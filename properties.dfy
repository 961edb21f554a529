/**
  Properties that relate several operations of the handler: seeding the
  table, reading back what was created, the state an update leaves, deleting
  twice, what a list reply holds, and where a 500 reply comes from.
 */
module Properties {
  import opened Wrappers
  import opened Text
  import opened Coach
  import opened Errors
  import opened Store
  import opened Handler

  // ---------------------------------------------------------------- seeding

  /** Reference for seeding when every put succeeds: each record filed under its coach_id, in order. */
  function Filed(items: map<string, Item>, coaches: seq<Item>): (r: map<string, Item>)
    requires forall i :: 0 <= i < |coaches| ==> KeyOf(coaches[i]).Some?
    ensures items.Keys <= r.Keys
    ensures forall i :: 0 <= i < |coaches| ==> KeyOf(coaches[i]).value in r
    decreases |coaches|
  {
    if coaches == [] then items
    else Filed(items[KeyOf(coaches[0]).value := coaches[0]], coaches[1..])
  }

  /** Every put the store accepts, when none of the records' keys faults. */
  predicate AllPutsAccepted(coaches: seq<Item>, faults: set<StoreOp>)
  {
    forall i :: 0 <= i < |coaches| ==> KeyOf(coaches[i]).Some? && PutItem(KeyOf(coaches[i]).value) !in faults
  }

  /** With every put accepted, seeding files every record. */
  lemma {:induction false} SeedEachFilesAll(items: map<string, Item>, coaches: seq<Item>, faults: set<StoreOp>)
    requires AllPutsAccepted(coaches, faults)
    ensures SeedEach(items, coaches, faults) == Filed(items, coaches)
    decreases |coaches|
  {
    if coaches != [] {
      var key := KeyOf(coaches[0]).value;
      assert PutOutcome(items, coaches[0], faults) == Success(items[key := coaches[0]]);
      assert AllPutsAccepted(coaches[1..], faults) by {
        forall i | 0 <= i < |coaches[1..]|
          ensures KeyOf(coaches[1..][i]).Some? && PutItem(KeyOf(coaches[1..][i]).value) !in faults
        {
          assert coaches[1..][i] == coaches[i + 1];
        }
      }
      SeedEachFilesAll(items[key := coaches[0]], coaches[1..], faults);
    }
  }

  /**
    Seeding that meets a put which raises at position `j` keeps the records
    before `j` and none from `j` on: the loop is left at the first error.
   */
  lemma {:induction false} SeedEachStopsAt(items: map<string, Item>, coaches: seq<Item>, faults: set<StoreOp>, j: nat)
    requires j < |coaches|
    requires AllPutsAccepted(coaches[..j], faults)
    requires KeyOf(coaches[j]).None? || PutItem(KeyOf(coaches[j]).value) in faults
    ensures SeedEach(items, coaches, faults) == Filed(items, coaches[..j])
    decreases j
  {
    if j == 0 {
      assert PutOutcome(items, coaches[0], faults).Failure?;
      assert coaches[..0] == [];
    } else {
      assert coaches[..j][0] == coaches[0];
      var key := KeyOf(coaches[0]).value;
      assert PutOutcome(items, coaches[0], faults) == Success(items[key := coaches[0]]);
      var rest := coaches[1..];
      assert rest[..j - 1] == coaches[..j][1..];
      assert rest[j - 1] == coaches[j];
      var front := rest[..j - 1];
      assert AllPutsAccepted(front, faults) by {
        forall i | 0 <= i < |front|
          ensures KeyOf(front[i]).Some? && PutItem(KeyOf(front[i]).value) !in faults
        {
          assert front[i] == coaches[..j][i + 1];
        }
      }
      SeedEachStopsAt(items[key := coaches[0]], rest, faults, j - 1);
    }
  }

  /** The sample records are filed under '1' to '6'. */
  lemma SampleKeys()
    ensures |SampleCoaches| == 6
    ensures KeyOf(SampleCoaches[0]) == Some("1") && KeyOf(SampleCoaches[1]) == Some("2")
    ensures KeyOf(SampleCoaches[2]) == Some("3") && KeyOf(SampleCoaches[3]) == Some("4")
    ensures KeyOf(SampleCoaches[4]) == Some("5") && KeyOf(SampleCoaches[5]) == Some("6")
  {
  }

  /** Every sample record has a string coach_id. */
  lemma SampleKeyed()
    ensures forall i :: 0 <= i < |SampleCoaches| ==> KeyOf(SampleCoaches[i]).Some?
  {
    SampleKeys();
    forall i | 0 <= i < |SampleCoaches| ensures KeyOf(SampleCoaches[i]).Some? {
      if i == 0 {} else if i == 1 {} else if i == 2 {} else if i == 3 {} else if i == 4 {} else {}
    }
  }

  /** Filing six records is six updates of the map, in order. */
  lemma FiledSix(items: map<string, Item>, cs: seq<Item>)
    requires |cs| == 6 && forall i :: 0 <= i < 6 ==> KeyOf(cs[i]).Some?
    ensures Filed(items, cs) ==
              items[KeyOf(cs[0]).value := cs[0]][KeyOf(cs[1]).value := cs[1]][KeyOf(cs[2]).value := cs[2]]
                   [KeyOf(cs[3]).value := cs[3]][KeyOf(cs[4]).value := cs[4]][KeyOf(cs[5]).value := cs[5]]
  {
    var c1, c2, c3, c4, c5 := cs[1..], cs[2..], cs[3..], cs[4..], cs[5..];
    assert c1[0] == cs[1] && c1[1..] == c2;
    assert c2[0] == cs[2] && c2[1..] == c3;
    assert c3[0] == cs[3] && c3[1..] == c4;
    assert c4[0] == cs[4] && c4[1..] == c5;
    assert c5[0] == cs[5] && c5[1..] == [];
    var m0 := items[KeyOf(cs[0]).value := cs[0]];
    var m1 := m0[KeyOf(cs[1]).value := cs[1]];
    var m2 := m1[KeyOf(cs[2]).value := cs[2]];
    var m3 := m2[KeyOf(cs[3]).value := cs[3]];
    var m4 := m3[KeyOf(cs[4]).value := cs[4]];
    var m5 := m4[KeyOf(cs[5]).value := cs[5]];
    assert Filed(m5, []) == m5;
    assert Filed(m4, c5) == m5;
    assert Filed(m3, c4) == m5;
    assert Filed(m2, c3) == m5;
    assert Filed(m1, c2) == m5;
    assert Filed(m0, c1) == m5;
  }

  /** A first request on an empty table whose puts all succeed leaves exactly the six sample records. */
  lemma SeedingEmptyTable(faults: set<StoreOp>)
    requires ProbeScan !in faults
    requires forall k :: PutItem(k) !in faults
    ensures Seeded(map[], faults) == SampleTable()
  {
    SampleKeys();
    SampleKeyed();
    SeedEachFilesAll(map[], SampleCoaches, faults);
    FiledSix(map[], SampleCoaches);
  }

  /**
    When the put of sample record `j` raises (and none before it does), the
    table keeps the first `j` sample records; with `j` = 0 it stays empty and
    the next request tries again.
   */
  lemma PartialSeeding(faults: set<StoreOp>, j: nat)
    requires ProbeScan !in faults
    requires j < |SampleCoaches|
    requires AllPutsAccepted(SampleCoaches[..j], faults)
    requires KeyOf(SampleCoaches[j]).Some? && PutItem(KeyOf(SampleCoaches[j]).value) in faults
    ensures Seeded(map[], faults) == Filed(map[], SampleCoaches[..j])
    ensures j == 0 <==> Seeded(map[], faults) == map[]
  {
    assert Seeded(map[], faults) == SeedEach(map[], SampleCoaches, faults);
    SeedingEmptyStopsAt(SampleCoaches, faults, j);
  }

  /** Seeding an empty table that meets a raising put at `j` leaves the records before `j`: none when `j` is 0. */
  lemma SeedingEmptyStopsAt(coaches: seq<Item>, faults: set<StoreOp>, j: nat)
    requires j < |coaches|
    requires AllPutsAccepted(coaches[..j], faults)
    requires KeyOf(coaches[j]).Some? && PutItem(KeyOf(coaches[j]).value) in faults
    ensures SeedEach(map[], coaches, faults) == Filed(map[], coaches[..j])
    ensures j == 0 <==> SeedEach(map[], coaches, faults) == map[]
  {
    SeedEachStopsAt(map[], coaches, faults, j);
    if j > 0 {
      assert KeyOf(coaches[..j][0]).value in Filed(map[], coaches[..j]);
    }
  }

  /** Seeding happens once: a table it left non-empty is not seeded again by any later request. */
  lemma SeedingOnce(items: map<string, Item>, faults: set<StoreOp>, later: set<StoreOp>)
    requires Seeded(items, faults) != map[]
    ensures Seeded(Seeded(items, faults), later) == Seeded(items, faults)
  {
  }

  // ---------------------------------------------------------------- create and get

  /** A created record reads back, unchanged, under the id it was given. */
  lemma CreateThenGet(before: map<string, Item>, after: map<string, Item>, data: Json, id: string, now: string,
                      faults: set<StoreOp>, resp: Response, later: set<StoreOp>, reply: Response)
    requires CreateSpec(before, after, data, id, now, faults, resp) && resp.statusCode == 201
    requires GetSpec(after, id, later, reply) && GetItem !in later
    ensures !data.JNull? && resp.body.Record?
    ensures reply == Reply(200, Record(resp.body.coach))
    ensures reply.body.coach["coach_id"] == Str(id) && reply.body.coach["created_at"] == Str(now)
    ensures forall k :: k in Supplied(data) ==> reply.body.coach[k] == Read(data, k).value
    ensures forall k :: k in before && k != id ==> k in after && after[k] == before[k]
  {
    CreateAccepted(before, after, data, id, now, faults, resp);
    var coach := NewRecord(data, id, now).value;
    assert id in after && after[id] == coach;
  }

  /** A 201 from createCoach means the body was not null, the put went through, and the new record is filed under its id. */
  lemma CreateAccepted(before: map<string, Item>, after: map<string, Item>, data: Json, id: string, now: string,
                       faults: set<StoreOp>, resp: Response)
    requires CreateSpec(before, after, data, id, now, faults, resp) && resp.statusCode == 201
    ensures !data.JNull? && PutItem(id) !in faults
    ensures after == before[id := NewRecord(data, id, now).value]
    ensures resp == Reply(201, Record(NewRecord(data, id, now).value))
  {
  }

  /** A create that raises leaves the table as it was. */
  lemma FailedCreateKeepsTable(before: map<string, Item>, after: map<string, Item>, data: Json, id: string,
                               now: string, faults: set<StoreOp>, resp: Response)
    requires CreateSpec(before, after, data, id, now, faults, resp)
    ensures resp.statusCode == 500 <==> data.JNull? || PutItem(id) in faults
    ensures resp.statusCode != 201 ==> after == before
  {
  }

  // ---------------------------------------------------------------- update

  /** The keys an update body asks to set: its own keys that are allowed fields. */
  function AllowedKeys(data: Json): set<string>
  {
    if data.JObject? then (set k | k in KeysOf(data.fields) && k in AllowedFields) else {}
  }

  /** A stamped plan assigns each of its keys once. */
  lemma StampedPlanDistinct(plan: seq<(string, Value)>, now: string)
    requires DistinctKeys(plan)
    requires forall i :: 0 <= i < |plan| ==> plan[i].0 != "updated_at"
    ensures DistinctKeys(plan + [("updated_at", Str(now))])
    ensures KeysOf(plan + [("updated_at", Str(now))]) == KeysOf(plan) + {"updated_at"}
  {
    var a := plan + [("updated_at", Str(now))];
    forall i | 0 <= i < |a| ensures a[i].0 in KeysOf(plan) + {"updated_at"} {
      if i < |plan| { assert a[i] == plan[i]; }
    }
    forall k | k in KeysOf(plan) + {"updated_at"} ensures k in KeysOf(a) {
      if k == "updated_at" {
        assert a[|plan|].0 == k;
      } else {
        var i :| 0 <= i < |plan| && plan[i].0 == k;
        assert a[i] == plan[i];
      }
    }
  }

  /** The keys an update changes: the body's allowed keys and `updated_at`, which no allowed field equals. */
  lemma PlanKeys(data: Json)
    requires WellFormedJson(data) && data.JObject?
    ensures KeysOf(Plan(data)) == AllowedKeys(data)
    ensures forall i :: 0 <= i < |Plan(data)| ==>
              Plan(data)[i].0 != "updated_at" && Plan(data)[i].0 != "coach_id" && Plan(data)[i].0 != "created_at"
  {
    AllowedPairsKeys(data.fields);
    forall i | 0 <= i < |Plan(data)|
      ensures Plan(data)[i].0 != "updated_at" && Plan(data)[i].0 != "coach_id" && Plan(data)[i].0 != "created_at"
    {
      AllowedFieldIsPlain(Plan(data)[i].0);
    }
  }

  /** The record an update leaves: the plan's values, the new `updated_at`, every other attribute kept. */
  lemma RevisedContents(coach: Item, plan: seq<(string, Value)>, now: string)
    requires DistinctKeys(plan)
    requires forall i :: 0 <= i < |plan| ==> plan[i].0 != "updated_at"
    ensures Revised(coach, plan, now).Keys == coach.Keys + KeysOf(plan) + {"updated_at"}
    ensures forall i :: 0 <= i < |plan| ==> Revised(coach, plan, now)[plan[i].0] == plan[i].1
    ensures Revised(coach, plan, now)["updated_at"] == Str(now)
    ensures forall k :: k in coach && k !in KeysOf(plan) && k != "updated_at" ==> Revised(coach, plan, now)[k] == coach[k]
  {
    StampedPlanDistinct(plan, now);
    var assignments := plan + [("updated_at", Str(now))];
    assert assignments[|plan|] == ("updated_at", Str(now));
    assert forall i :: 0 <= i < |plan| ==> assignments[i] == plan[i];
  }

  /**
    The record an update body makes of a stored one: the body's allowed
    fields with the body's values, the new `updated_at`, and every other
    attribute kept (`coach_id` and `created_at` among them).
   */
  lemma RevisedByBody(coach: Item, data: Json, now: string)
    requires WellFormedJson(data) && data.JObject?
    ensures Revised(coach, Plan(data), now).Keys == coach.Keys + AllowedKeys(data) + {"updated_at"}
    ensures forall p :: p in data.fields && p.0 in AllowedFields ==> Revised(coach, Plan(data), now)[p.0] == p.1
    ensures Revised(coach, Plan(data), now)["updated_at"] == Str(now)
    ensures forall k :: k in coach && k !in AllowedKeys(data) && k != "updated_at" ==>
              Revised(coach, Plan(data), now)[k] == coach[k]
  {
    PlanKeys(data);
    RevisedContents(coach, Plan(data), now);
    BodyValuesApplied(coach, data, now);
  }

  /** An update never touches the record's `coach_id` or `created_at`: neither is an allowed field. */
  lemma RevisedKeepsIdentity(coach: Item, data: Json, now: string)
    requires WellFormedJson(data) && data.JObject?
    ensures "coach_id" in coach ==> Revised(coach, Plan(data), now)["coach_id"] == coach["coach_id"]
    ensures "created_at" in coach ==> Revised(coach, Plan(data), now)["created_at"] == coach["created_at"]
  {
    PlanKeys(data);
    RevisedContents(coach, Plan(data), now);
    var id, created := "coach_id", "created_at";
    if id in AllowedKeys(data) {
      AllowedFieldIsPlain(id);
    }
    if created in AllowedKeys(data) {
      AllowedFieldIsPlain(created);
    }
  }

  /** Each allowed field of an update body holds the body's value in the revised record. */
  lemma BodyValuesApplied(coach: Item, data: Json, now: string)
    requires WellFormedJson(data) && data.JObject?
    ensures forall p :: p in data.fields && p.0 in AllowedFields ==>
              p.0 in Revised(coach, Plan(data), now) && Revised(coach, Plan(data), now)[p.0] == p.1
  {
    var plan := Plan(data);
    PlanKeys(data);
    RevisedContents(coach, plan, now);
    forall p | p in data.fields && p.0 in AllowedFields
      ensures p.0 in Revised(coach, plan, now) && Revised(coach, plan, now)[p.0] == p.1
    {
      assert p in plan;
      var i :| 0 <= i < |plan| && plan[i] == p;
    }
  }

  /** A 200 from updateCoach means the record existed, the body named an allowed field, and the store took the revision. */
  lemma UpdateAccepted(before: map<string, Item>, after: map<string, Item>, id: string, data: Json,
                       now: string, faults: set<StoreOp>, resp: Response)
    requires WellFormedJson(data)
    requires UpdateSpec(before, after, id, data, now, faults, resp) && resp.statusCode == 200
    ensures GetItem !in faults && UpdateItem !in faults
    ensures id in before && data.JObject? && Plan(data) != []
    ensures after == before[id := Revised(before[id], Plan(data), now)]
    ensures after.Keys == before.Keys
    ensures forall k :: k in before && k != id ==> after[k] == before[k]
    ensures resp.body == Record(after[id])
  {
    UpdateBranch(before, after, id, data, now, faults, resp);
    ReplaceExisting(before, id, Revised(before[id], Plan(data), now));
  }

  /** Replacing the value of a key a map holds keeps its keys and every other entry. */
  lemma ReplaceExisting<K, V>(m: map<K, V>, k: K, v: V)
    requires k in m
    ensures m[k := v].Keys == m.Keys
    ensures forall j :: j in m && j != k ==> m[k := v][j] == m[j]
  {
  }

  /** Only the last branch of an update answers 200. */
  lemma UpdateBranch(before: map<string, Item>, after: map<string, Item>, id: string, data: Json,
                     now: string, faults: set<StoreOp>, resp: Response)
    requires WellFormedJson(data)
    requires UpdateSpec(before, after, id, data, now, faults, resp) && resp.statusCode == 200
    ensures GetItem !in faults && UpdateItem !in faults
    ensures id in before && data.JObject? && Plan(data) != []
    ensures after == before[id := Revised(before[id], Plan(data), now)] && resp == Reply(200, Record(after[id]))
  {
  }

  /**
    A successful update sets exactly the body's allowed fields and
    `updated_at` on the stored record, keeps its other attributes (its
    `coach_id` and `created_at` among them) and touches no other record.
   */
  lemma UpdateChangesOnlyPlan(before: map<string, Item>, after: map<string, Item>, id: string, data: Json,
                              now: string, faults: set<StoreOp>, resp: Response)
    requires WellFormedJson(data) && ValidTable(before)
    requires UpdateSpec(before, after, id, data, now, faults, resp) && resp.statusCode == 200
    ensures id in before && data.JObject? && AllowedKeys(data) != {}
    ensures after.Keys == before.Keys
    ensures forall k :: k in before && k != id ==> after[k] == before[k]
    ensures after[id].Keys == before[id].Keys + AllowedKeys(data) + {"updated_at"}
    ensures forall p :: p in data.fields && p.0 in AllowedFields ==> after[id][p.0] == p.1
    ensures after[id]["updated_at"] == Str(now)
    ensures forall k :: k in before[id] && k !in AllowedKeys(data) && k != "updated_at" ==> after[id][k] == before[id][k]
    ensures after[id]["coach_id"] == Str(id)
    ensures "created_at" in before[id] ==> after[id]["created_at"] == before[id]["created_at"]
    ensures resp.body == Record(after[id])
  {
    UpdateAccepted(before, after, id, data, now, faults, resp);
    PlanKeys(data);
    assert Plan(data)[0].0 in AllowedKeys(data);
    assert KeyOf(before[id]) == Some(id);
    RevisedByBody(before[id], data, now);
    RevisedKeepsIdentity(before[id], data, now);
  }

  /** An update whose body names no allowed field is refused and changes nothing. */
  lemma UpdateWithoutAllowedFields(before: map<string, Item>, after: map<string, Item>, id: string, data: Json,
                                   now: string, faults: set<StoreOp>, resp: Response)
    requires WellFormedJson(data)
    requires UpdateSpec(before, after, id, data, now, faults, resp)
    requires GetItem !in faults && id in before && !data.JNull? && AllowedKeys(data) == {}
    ensures resp == NoValidFields && after == before
  {
    NoAllowedKeysNoPlan(data);
  }

  /** A body that names no allowed field plans no assignment. */
  lemma NoAllowedKeysNoPlan(data: Json)
    requires WellFormedJson(data) && AllowedKeys(data) == {}
    ensures Plan(data) == []
  {
    if data.JObject? {
      PlanKeys(data);
      KeysOfEmpty(Plan(data));
    }
  }

  /** A list of pairs has no keys exactly when it is empty. */
  lemma KeysOfEmpty(fields: seq<(string, Value)>)
    ensures KeysOf(fields) == {} <==> fields == []
  {
    if fields != [] {
      assert fields[0].0 in KeysOf(fields);
    }
  }

  /** The body `{name, notAField}` updates only `name`. */
  lemma UpdatePlanExample()
    ensures Plan(JObject([("name", Str("Ann")), ("notAField", Num(1.0))])) == [("name", Str("Ann"))]
  {
  }

  // ---------------------------------------------------------------- delete

  /** After a delete, the record is gone: a get answers 404 and a second delete answers 404. */
  lemma DeleteThenGetOrDelete(before: map<string, Item>, after: map<string, Item>, id: string,
                              faults: set<StoreOp>, resp: Response,
                              later: set<StoreOp>, reply: Response, again: map<string, Item>, second: Response)
    requires DeleteSpec(before, after, id, faults, resp) && DeleteItem !in faults
    requires GetSpec(after, id, later, reply) && GetItem !in later
    requires DeleteSpec(after, again, id, later, second) && DeleteItem !in later
    ensures resp == CoachDeleted <==> id in before
    ensures reply == CoachNotFound
    ensures second == CoachNotFound && again == after
    ensures forall k :: k in before && k != id ==> k in after && after[k] == before[k]
  {
  }

  /**
    Deleting the last record empties the table, so the next request seeds it
    again: a deleted sample coach comes back.
   */
  lemma DeletedLastSampleComesBack(coach: Item, after: map<string, Item>, resp: Response,
                                   afterGet: map<string, Item>, reply: Response)
    requires KeyOf(coach) == Some("1")
    requires Answered(DeleteCoach("1"), Start(DeleteCoach("1"), map["1" := coach], {}), after, "", "", {}, resp)
    requires Answered(GetCoach("1"), Start(GetCoach("1"), after, {}), afterGet, "", "", {}, reply)
    ensures resp == CoachDeleted && after == map[]
    ensures afterGet == SampleTable() && reply == Reply(200, Record(SampleCoaches[0]))
  {
    DeleteOnlyRecord("1", coach, after, resp);
    GetFromEmptyTable(afterGet, reply);
  }

  /** A lookup of "1" in an empty table seeds it and finds the first sample coach. */
  lemma GetFromEmptyTable(afterGet: map<string, Item>, reply: Response)
    requires Answered(GetCoach("1"), Start(GetCoach("1"), map[], {}), afterGet, "", "", {}, reply)
    ensures afterGet == SampleTable() && reply == Reply(200, Record(SampleCoaches[0]))
  {
    SeedingEmptyTable({});
    SampleTableFirst();
  }

  /** The seeded table files the first sample coach under "1". */
  lemma SampleTableFirst()
    ensures "1" in SampleTable() && SampleTable()["1"] == SampleCoaches[0]
  {
    SampleKeys();
    KeyedSixFirst(SampleCoaches);
  }

  /** Six records keyed in order file the first under "1". */
  lemma KeyedSixFirst(cs: seq<Item>)
    requires |cs| == 6
    ensures "1" in KeyedSix(cs) && KeyedSix(cs)["1"] == cs[0]
  {
  }

  /** Deleting the one record of a table leaves it empty. */
  lemma DeleteOnlyRecord(id: string, coach: Item, after: map<string, Item>, resp: Response)
    requires Answered(DeleteCoach(id), Start(DeleteCoach(id), map[id := coach], {}), after, "", "", {}, resp)
    ensures resp == CoachDeleted && after == map[]
  {
    var before: map<string, Item> := map[id := coach];
    assert id in before;
    assert Start(DeleteCoach(id), before, {}) == before;
    assert before - {id} == map[];
  }

  // ---------------------------------------------------------------- list

  /** The table a list request reads: the location index under the location, or the whole table. */
  function Source(items: map<string, Item>, query: Option<map<string, string>>): map<string, Item>
  {
    match Param(query, "location")
    case Some(loc) => AtLocation(items, loc)
    case None => items
  }

  /** What the store hands back is the chosen table's records. */
  lemma RetrievedIsSource(items: map<string, Item>, query: Option<map<string, string>>, rs: seq<Item>)
    requires Retrieved(items, query, rs)
    ensures Enumerates(rs, Source(items, query))
  {
  }

  /**
    A 200 list reply holds records of the table only, each at the requested
    location and matching the requested specialty, and every such record.
   */
  lemma ListReplyContents(items: map<string, Item>, query: Option<map<string, string>>, faults: set<StoreOp>, resp: Response)
    requires ListSpec(items, query, faults, resp) && resp.statusCode == 200
    ensures resp.body.Records?
    ensures forall c :: c in resp.body.coaches ==> c in Source(items, query).Values
    ensures Param(query, "specialty").Some? ==>
              forall c :: c in resp.body.coaches ==> MatchesSpecialty(c, Param(query, "specialty").value)
    ensures forall k :: k in Source(items, query) &&
                        (Param(query, "specialty").Some? ==> MatchesSpecialty(items[k], Param(query, "specialty").value))
                        ==> items[k] in resp.body.coaches
  {
    var rs :| Retrieved(items, query, rs) && resp == ListResponse(rs, query);
    RetrievedIsSource(items, query, rs);
    var m := Source(items, query);
    ListingReply(rs, m, query, resp);
  }

  /** The list reply for a listing of the records of `m`. */
  lemma ListingReply(rs: seq<Item>, m: map<string, Item>, query: Option<map<string, string>>, resp: Response)
    requires forall i :: 0 <= i < |rs| ==> rs[i] in m.Values
    requires forall k :: k in m ==> m[k] in rs
    requires resp == ListResponse(rs, query) && resp.statusCode == 200
    ensures resp.body.Records?
    ensures forall c :: c in resp.body.coaches ==> c in m.Values
    ensures Param(query, "specialty").Some? ==>
              forall c :: c in resp.body.coaches ==> MatchesSpecialty(c, Param(query, "specialty").value)
    ensures forall k :: k in m && (Param(query, "specialty").Some? ==> MatchesSpecialty(m[k], Param(query, "specialty").value))
                        ==> m[k] in resp.body.coaches
  {
  }

  /** The specialty filter ignores case on both sides: the query may be given in any case. */
  lemma FilterIgnoresCase(coach: Item, query: string)
    ensures MatchesSpecialty(coach, query) <==> MatchesSpecialty(coach, Lower(query))
  {
    LowerIdempotent(query);
  }

  /** The specialty filter is a substring test: the lowered query occurs somewhere in the lowered specialty. */
  lemma FilterIsSubstring(coach: Item, query: string)
    ensures MatchesSpecialty(coach, query) <==>
              HasTextSpecialty(coach) &&
              exists i :: 0 <= i <= |coach["specialty"].s| && Lower(query) <= Lower(coach["specialty"].s)[i..]
  {
    if HasTextSpecialty(coach) {
      var s := coach["specialty"].s;
      assert |Lower(s)| == |s|;
      IncludesAt(Lower(s), Lower(query));
    }
  }

  /**
    A list request whose store call succeeds fails only through the specialty
    filter: without one the reply is 200, with one it is a 500 exactly when
    some record read lacks a string specialty.
   */
  lemma ListFailsOnlyOnSpecialty(items: map<string, Item>, query: Option<map<string, string>>, faults: set<StoreOp>, resp: Response)
    requires ListSpec(items, query, faults, resp) && ListFaultOp(query) !in faults
    ensures Param(query, "specialty").None? ==> resp.statusCode == 200
    ensures Param(query, "specialty").Some? ==>
              (resp.statusCode == 500 <==> exists k :: k in Source(items, query) && !HasTextSpecialty(items[k]))
    ensures resp.statusCode == 200 || resp == Internal(TypeError)
  {
    var rs :| Retrieved(items, query, rs) && resp == ListResponse(rs, query);
    RetrievedIsSource(items, query, rs);
    var m := Source(items, query);
    if Param(query, "specialty").Some? {
      if resp.statusCode == 500 {
        var i :| 0 <= i < |rs| && !HasTextSpecialty(rs[i]);
        var k :| k in m && m[k] == rs[i];
      }
      if exists k :: k in m && !HasTextSpecialty(items[k]) {
        var k :| k in m && !HasTextSpecialty(items[k]);
        var i :| 0 <= i < |rs| && rs[i] == m[k];
      }
    }
  }

  // ---------------------------------------------------------------- the handler

  /** An OPTIONS request answers 200 with an empty body and leaves the table alone, whatever its path. */
  lemma PreflightTouchesNothing(req: Request, before: map<string, Item>, after: map<string, Item>,
                                now: string, newId: string, faults: set<StoreOp>, resp: Response)
    requires WellFormedRequest(req) && req.httpMethod == "OPTIONS"
    requires Answered(RouteOf(req), Start(RouteOf(req), before, faults), after, now, newId, faults, resp)
    ensures resp == Reply(200, Empty) && after == before
  {
  }

  /** PUT and DELETE are dispatched on the id alone; the path is not looked at. */
  lemma IdRoutesIgnorePath(req: Request)
    requires Param(req.pathParameters, "id").Some?
    ensures req.httpMethod == "PUT" ==> RouteOf(req) == UpdateCoach(Param(req.pathParameters, "id").value, req.body)
    ensures req.httpMethod == "DELETE" ==> RouteOf(req) == DeleteCoach(Param(req.pathParameters, "id").value)
  {
  }

  /**
    A request no case of the switch takes (an unknown method, a POST off the
    collection path, a GET off it without an id, or a PUT or DELETE without an id) answers
    404 Not found, after the table has been seeded like any other request.
   */
  lemma UnmatchedRequest(req: Request, before: map<string, Item>, after: map<string, Item>,
                         now: string, newId: string, faults: set<StoreOp>, resp: Response)
    requires WellFormedRequest(req)
    requires || req.httpMethod !in {"OPTIONS", "GET", "POST", "PUT", "DELETE"}
             || (req.httpMethod == "POST" && !IsCollectionPath(req.path))
             || (req.httpMethod == "GET" && !IsCollectionPath(req.path) && Param(req.pathParameters, "id").None?)
             || (req.httpMethod in {"PUT", "DELETE"} && Param(req.pathParameters, "id").None?)
    requires Answered(RouteOf(req), Start(RouteOf(req), before, faults), after, now, newId, faults, resp)
    ensures resp == Reply(404, Error("Not found")) && after == Seeded(before, faults)
  {
    assert RouteOf(req) == NoRoute;
  }

  /** Every reply the handler gives is a 200, 201, 400, 404 or 500, and a 500 carries a store fault, a SyntaxError or a TypeError. */
  lemma ReplyStatuses(route: Route, seeded: map<string, Item>, after: map<string, Item>,
                      now: string, newId: string, faults: set<StoreOp>, resp: Response)
    requires route.CreateCoach? || route.UpdateCoach? ==> (route.body.WellFormed? ==> WellFormedJson(route.body.json))
    requires Answered(route, seeded, after, now, newId, faults, resp)
    ensures resp.statusCode in {200, 201, 400, 404, 500}
    ensures resp.statusCode == 500 ==>
              resp.body.ServerError? && (resp.body.details.StoreUnavailable? || resp.body.details in {SyntaxError, TypeError})
  {
    if route.ListCoaches? && ListFaultOp(route.query) !in faults {
      ListFailsOnlyOnSpecialty(seeded, route.query, faults, resp);
    }
  }

  /**
    Where a store fault in a reply comes from: one of the operation's own
    calls, never the seeding probe, and a put only for the created record.
   */
  lemma InternalErrorCauses(route: Route, seeded: map<string, Item>, after: map<string, Item>,
                            now: string, newId: string, faults: set<StoreOp>, resp: Response)
    requires route.CreateCoach? || route.UpdateCoach? ==> (route.body.WellFormed? ==> WellFormedJson(route.body.json))
    requires Answered(route, seeded, after, now, newId, faults, resp)
    ensures resp.body.ServerError? && resp.body.details.StoreUnavailable? ==>
              && resp.body.details.op in faults
              && resp.body.details.op != ProbeScan
              && (resp.body.details.op.PutItem? ==> route.CreateCoach? && resp.body.details.op.key == newId)
  {
    if route.ListCoaches? && ListFaultOp(route.query) !in faults {
      ListFailsOnlyOnSpecialty(seeded, route.query, faults, resp);
    }
  }

  /** A SyntaxError reply comes only from a create or update body that is not JSON. */
  lemma SyntaxErrorCause(route: Route, seeded: map<string, Item>, after: map<string, Item>,
                         now: string, newId: string, faults: set<StoreOp>, resp: Response)
    requires route.CreateCoach? || route.UpdateCoach? ==> (route.body.WellFormed? ==> WellFormedJson(route.body.json))
    requires Answered(route, seeded, after, now, newId, faults, resp)
    ensures resp.body.ServerError? && resp.body.details == SyntaxError ==>
              (route.CreateCoach? || route.UpdateCoach?) && route.body.Malformed?
  {
    if route.ListCoaches? && ListFaultOp(route.query) !in faults {
      ListFailsOnlyOnSpecialty(seeded, route.query, faults, resp);
    }
  }

  /**
    A POST to the collection or a PUT with an id whose body is not JSON fails
    in `JSON.parse`, before any store call: the reply is the 500 of a
    SyntaxError and the table is left as seeding made it.
   */
  lemma MalformedBodyFails(req: Request, before: map<string, Item>, after: map<string, Item>,
                           now: string, newId: string, faults: set<StoreOp>, resp: Response)
    requires req.body == Malformed
    requires || (req.httpMethod == "POST" && IsCollectionPath(req.path))
             || (req.httpMethod == "PUT" && Param(req.pathParameters, "id").Some?)
    requires Answered(RouteOf(req), Start(RouteOf(req), before, faults), after, now, newId, faults, resp)
    ensures resp == Reply(500, ServerError(SyntaxError)) && after == Seeded(before, faults)
  {
    assert RouteOf(req).CreateCoach? || RouteOf(req).UpdateCoach?;
  }
}
