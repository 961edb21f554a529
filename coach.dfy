/**
  The coach record (one item of the table) and the pure parts of the handler
  that build or change one: the record literal of createCoach, the allow-list
  of updateCoach, and the six sample coaches used for seeding.
 */
module Coach {
  import opened Wrappers

  /** An attribute value as read from a JSON body or stored in the table. */
  datatype Value =
    | Str(s: string)
    | Num(n: real)
    | StrList(items: seq<string>)
    | Bool(b: bool)
    | Null

  /** An item: attribute name to value; an attribute the source leaves `undefined` is absent. */
  type Item = map<string, Value>

  /** JavaScript falsiness, restricted to the values above (arrays are always truthy). */
  predicate Falsy(v: Value)
  {
    v == Str("") || v == Num(0.0) || v == Bool(false) || v == Null
  }

  /** `x || d` for a property read that may be `undefined` (None). */
  function OrElse(x: Option<Value>, d: Value): Value
  {
    if x.Some? && !Falsy(x.value) then x.value else d
  }

  /**
    A parsed request body: JSON null, some other non-object JSON value (a
    number, string, boolean or array, none of which has an own key the handler
    reads), or an object given as its keys in order with their values.
   */
  datatype Json = JNull | JOther | JObject(fields: seq<(string, Value)>)

  /** The keys of a JSON object are distinct, as JSON.parse delivers them. */
  predicate DistinctKeys(fields: seq<(string, Value)>)
  {
    forall i, j :: 0 <= i < j < |fields| ==> fields[i].0 != fields[j].0
  }

  predicate WellFormedJson(data: Json)
  {
    data.JObject? ==> DistinctKeys(data.fields)
  }

  function KeysOf(fields: seq<(string, Value)>): set<string>
  {
    set i | 0 <= i < |fields| :: fields[i].0
  }

  /** `obj[key]` on a JSON object: the value, or None for `undefined`. */
  function Lookup(fields: seq<(string, Value)>, key: string): (r: Option<Value>)
    ensures r.None? <==> key !in KeysOf(fields)
    ensures r.Some? ==> exists i :: 0 <= i < |fields| && fields[i] == (key, r.value)
    ensures DistinctKeys(fields) ==> forall i :: 0 <= i < |fields| && fields[i].0 == key ==> r == Some(fields[i].1)
  {
    if fields == [] then None
    else if fields[0].0 == key then Some(fields[0].1)
    else
      var r := Lookup(fields[1..], key);
      assert KeysOf(fields) == {fields[0].0} + KeysOf(fields[1..]) by {
        forall k | k in KeysOf(fields) ensures k in {fields[0].0} + KeysOf(fields[1..]) {
          var i :| 0 <= i < |fields| && fields[i].0 == k;
          if i > 0 { assert fields[1..][i - 1].0 == k; }
        }
        forall k | k in KeysOf(fields[1..]) ensures k in KeysOf(fields) {
          var i :| 0 <= i < |fields[1..]| && fields[1..][i].0 == k;
          assert fields[i + 1].0 == k;
        }
      }
      if r.Some? then
        var j :| 0 <= j < |fields[1..]| && fields[1..][j] == (key, r.value);
        assert fields[j + 1] == (key, r.value);
        r
      else r
  }

  /** A property read `data.key` on the parsed body (the body is not null). */
  function Read(data: Json, key: string): Option<Value>
    requires !data.JNull?
  {
    if data.JObject? then Lookup(data.fields, key) else None
  }

  /** The fields updateCoach lets a client change, in the source's order. */
  const AllowedFields: seq<string> :=
    ["name", "specialty", "location", "rating", "experience", "email", "phone",
     "bio", "hourly_rate", "availability", "certifications"]

  /** The fields createCoach copies from the body as they are (`undefined` stays absent). */
  const CopiedFields: set<string> :=
    {"name", "specialty", "location", "experience", "email", "phone", "bio", "hourly_rate"}

  /** The attributes createCoach sets itself or defaults. */
  const StampedFields: set<string> := {"coach_id", "rating", "availability", "certifications", "created_at"}

  /** Every attribute a record of the table ever holds. */
  const ProfileFields: set<string> :=
    {"coach_id", "name", "specialty", "location", "rating", "experience", "email", "phone",
     "bio", "hourly_rate", "availability", "certifications", "created_at", "updated_at"}

  /** The copied fields the body supplies (reads that are not `undefined`). */
  function Supplied(data: Json): set<string>
    requires !data.JNull?
  {
    set k | k in CopiedFields && Read(data, k).Some?
  }

  /** The record literal of createCoach; None when the body is JSON null (reading a property of null throws). */
  function NewRecord(data: Json, coachId: string, createdAt: string): (r: Option<Item>)
    ensures r.None? <==> data.JNull?
    ensures r.Some? ==> r.value.Keys == StampedFields + Supplied(data)
    ensures r.Some? ==> r.value["coach_id"] == Str(coachId) && r.value["created_at"] == Str(createdAt)
    ensures r.Some? ==> forall k :: k in Supplied(data) ==> r.value[k] == Read(data, k).value
    ensures r.Some? ==> r.value["rating"] == OrElse(Read(data, "rating"), Num(5.0))
    ensures r.Some? ==> r.value["availability"] == OrElse(Read(data, "availability"), StrList([]))
    ensures r.Some? ==> r.value["certifications"] == OrElse(Read(data, "certifications"), StrList([]))
  {
    if data.JNull? then None
    else
      var copied := CopiedPart(data);
      var stamped := StampedPart(data, coachId, createdAt);
      StampedNotCopied();
      Some(copied + stamped)
  }

  /**
    The defaults of the record literal: `rating` is 5, and `availability` and
    `certifications` are empty lists, exactly when the body leaves them out or
    gives a falsy value; so a rating of 0 is stored as 5.
   */
  lemma NewRecordDefaults(data: Json, coachId: string, createdAt: string)
    requires !data.JNull?
    ensures var x := Read(data, "rating");
            NewRecord(data, coachId, createdAt).value["rating"] ==
              if x.None? || Falsy(x.value) then Num(5.0) else x.value
    ensures var x := Read(data, "availability");
            NewRecord(data, coachId, createdAt).value["availability"] ==
              if x.None? || Falsy(x.value) then StrList([]) else x.value
    ensures var x := Read(data, "certifications");
            NewRecord(data, coachId, createdAt).value["certifications"] ==
              if x.None? || Falsy(x.value) then StrList([]) else x.value
    ensures Read(data, "rating") == Some(Num(0.0)) ==> NewRecord(data, coachId, createdAt).value["rating"] == Num(5.0)
  {
  }

  /** A created record holds only attributes of the profile schema, and never `updated_at`. */
  lemma NewRecordWithinSchema(data: Json, coachId: string, createdAt: string)
    requires !data.JNull?
    ensures NewRecord(data, coachId, createdAt).value.Keys <= ProfileFields - {"updated_at"}
  {
    CreatedFieldsInSchema();
    assert NewRecord(data, coachId, createdAt).value.Keys <= StampedFields + CopiedFields;
  }

  /** No attribute is both stamped and copied. */
  lemma StampedNotCopied()
    ensures StampedFields !! CopiedFields
  {
  }

  /** The attributes createCoach stamps and the ones it copies are all profile attributes other than `updated_at`. */
  lemma CreatedFieldsInSchema()
    ensures StampedFields + CopiedFields <= ProfileFields - {"updated_at"}
  {
  }

  /** The attributes createCoach copies from the body unchanged. */
  function CopiedPart(data: Json): Item
    requires !data.JNull?
  {
    map k | k in Supplied(data) :: Read(data, k).value
  }

  /** The attributes createCoach sets itself or defaults. */
  function StampedPart(data: Json, coachId: string, createdAt: string): Item
    requires !data.JNull?
  {
    map[
      "coach_id" := Str(coachId),
      "rating" := OrElse(Read(data, "rating"), Num(5.0)),
      "availability" := OrElse(Read(data, "availability"), StrList([])),
      "certifications" := OrElse(Read(data, "certifications"), StrList([])),
      "created_at" := Str(createdAt)]
  }

  /** The body's pairs whose key is an allowed field, in body order (updateCoach's forEach). */
  function AllowedPairs(fields: seq<(string, Value)>): (r: seq<(string, Value)>)
    ensures |r| <= |fields|
    ensures forall i :: 0 <= i < |r| ==> r[i].0 in AllowedFields
    ensures forall p :: p in r <==> p in fields && p.0 in AllowedFields
    ensures r == [] <==> forall i :: 0 <= i < |fields| ==> fields[i].0 !in AllowedFields
  {
    if fields == [] then []
    else
      var rest := AllowedPairs(fields[1..]);
      assert forall p :: p in fields <==> p == fields[0] || p in fields[1..];
      if fields[0].0 in AllowedFields then [fields[0]] + rest
      else
        assert forall i :: 0 <= i < |fields[1..]| ==> fields[1..][i] == fields[i + 1];
        rest
  }

  /** Filtering keeps keys distinct: a body with distinct keys gives allowed pairs with distinct keys. */
  lemma {:induction false} AllowedPairsDistinct(fields: seq<(string, Value)>)
    requires DistinctKeys(fields)
    ensures DistinctKeys(AllowedPairs(fields))
  {
    if fields != [] {
      DistinctTail(fields);
      AllowedPairsDistinct(fields[1..]);
      var rest := AllowedPairs(fields[1..]);
      if fields[0].0 in AllowedFields {
        forall p | p in rest ensures p.0 != fields[0].0 {
          var m :| 0 <= m < |fields[1..]| && fields[1..][m] == p;
          assert fields[m + 1] == p;
        }
        DistinctCons(fields[0], rest);
      }
    }
  }

  lemma DistinctTail(fields: seq<(string, Value)>)
    requires fields != [] && DistinctKeys(fields)
    ensures DistinctKeys(fields[1..])
  {
    forall i, j | 0 <= i < j < |fields[1..]| ensures fields[1..][i].0 != fields[1..][j].0 {
      assert fields[1..][i] == fields[i + 1] && fields[1..][j] == fields[j + 1];
    }
  }

  lemma DistinctCons(p: (string, Value), rest: seq<(string, Value)>)
    requires DistinctKeys(rest) && forall q :: q in rest ==> q.0 != p.0
    ensures DistinctKeys([p] + rest)
  {
    var r := [p] + rest;
    forall i, j | 0 <= i < j < |r| ensures r[i].0 != r[j].0 {
      assert r[j] == rest[j - 1];
      if i > 0 {
        assert r[i] == rest[i - 1];
      } else {
        assert r[j] in rest;
      }
    }
  }

  /** The keys of the allowed pairs are the body's keys that are allowed fields. */
  lemma AllowedPairsKeys(fields: seq<(string, Value)>)
    ensures KeysOf(AllowedPairs(fields)) == KeysOf(fields) * (set k | k in AllowedFields)
  {
    var r := AllowedPairs(fields);
    forall k | k in KeysOf(r) ensures k in KeysOf(fields) && k in AllowedFields {
      var i :| 0 <= i < |r| && r[i].0 == k;
      assert r[i] in fields;
    }
    forall k | k in KeysOf(fields) && k in AllowedFields ensures k in KeysOf(r) {
      var i :| 0 <= i < |fields| && fields[i].0 == k;
      assert fields[i] in r;
    }
  }

  /** Applies SET assignments left to right. */
  function Assign(item: Item, assignments: seq<(string, Value)>): (r: Item)
    ensures r.Keys == item.Keys + KeysOf(assignments)
    ensures forall k :: k in item && k !in KeysOf(assignments) ==> r[k] == item[k]
    ensures DistinctKeys(assignments) ==>
              forall i :: 0 <= i < |assignments| ==> r[assignments[i].0] == assignments[i].1
    decreases |assignments|
  {
    if assignments == [] then item
    else
      var (k, v) := assignments[0];
      var r := Assign(item[k := v], assignments[1..]);
      assert KeysOf(assignments) == {k} + KeysOf(assignments[1..]) by {
        forall x | x in KeysOf(assignments) ensures x in {k} + KeysOf(assignments[1..]) {
          var i :| 0 <= i < |assignments| && assignments[i].0 == x;
          if i > 0 { assert assignments[1..][i - 1].0 == x; }
        }
        forall x | x in KeysOf(assignments[1..]) ensures x in KeysOf(assignments) {
          var i :| 0 <= i < |assignments[1..]| && assignments[1..][i].0 == x;
          assert assignments[i + 1].0 == x;
        }
      }
      assert DistinctKeys(assignments) ==> k !in KeysOf(assignments[1..]) && DistinctKeys(assignments[1..]) by {
        if DistinctKeys(assignments) {
          forall i | 0 <= i < |assignments[1..]| ensures assignments[1..][i].0 != k {
            assert assignments[1..][i] == assignments[i + 1];
          }
        }
      }
      assert DistinctKeys(assignments) ==> forall i :: 1 <= i < |assignments| ==> assignments[i] == assignments[1..][i - 1];
      r
  }

  /** One entry of the source's sample list. */
  datatype SampleRow = SampleRow(id: string, name: string, specialty: string, location: string,
                                 experience: string, email: string, phone: string, bio: string,
                                 hourlyRate: real, availability: seq<string>, certifications: seq<string>)

  /** The record a sample row stands for: its fields, a rating of 5, and no time stamps. */
  function SampleProfile(row: SampleRow): (r: Item)
    ensures r.Keys == ProfileFields - {"created_at", "updated_at"}
    ensures r["coach_id"] == Str(row.id) && r["location"] == Str(row.location) && r["specialty"] == Str(row.specialty)
  {
    map["coach_id" := Str(row.id), "name" := Str(row.name), "specialty" := Str(row.specialty),
        "location" := Str(row.location), "rating" := Num(5.0), "experience" := Str(row.experience),
        "email" := Str(row.email), "phone" := Str(row.phone), "bio" := Str(row.bio),
        "hourly_rate" := Num(row.hourlyRate), "availability" := StrList(row.availability),
        "certifications" := StrList(row.certifications)]
  }

  /** The six sample coaches, in write order. */
  const SampleRows: seq<SampleRow> := [
    SampleRow("1", "Sarah Johnson", "Beginner & Intermediate", "New York", "8 years",
      "sarah.johnson@email.com", "+1-555-0101",
      "Passionate tennis coach with 8 years of experience helping beginners and intermediate players improve their game.",
      75.0, ["Monday", "Wednesday", "Friday", "Saturday"], ["USPTA Certified", "CPR Certified"]),
    SampleRow("2", "Mike Rodriguez", "Advanced & Competition", "Los Angeles", "12 years",
      "mike.rodriguez@email.com", "+1-555-0102",
      "Former professional player turned coach, specializing in competitive tennis and advanced techniques.",
      120.0, ["Tuesday", "Thursday", "Saturday", "Sunday"], ["PTR Professional", "USPTA Master Professional"]),
    SampleRow("3", "Emily Chen", "Youth & Junior Development", "Chicago", "6 years",
      "emily.chen@email.com", "+1-555-0103",
      "Specialized in youth development with a focus on building strong fundamentals and love for the game.",
      60.0, ["Monday", "Tuesday", "Thursday", "Saturday"], ["USPTA Certified", "Youth Development Specialist"]),
    SampleRow("4", "David Thompson", "Adult Beginner Specialist", "Miami", "10 years",
      "david.thompson@email.com", "+1-555-0104",
      "Patient and encouraging coach who helps adult beginners overcome their fears and enjoy tennis.",
      80.0, ["Wednesday", "Friday", "Saturday", "Sunday"], ["USPTA Certified", "Adult Learning Specialist"]),
    SampleRow("5", "Lisa Park", "Women's Tennis & Fitness", "Seattle", "7 years",
      "lisa.park@email.com", "+1-555-0105",
      "Combines tennis coaching with fitness training to help women achieve their health and tennis goals.",
      85.0, ["Monday", "Wednesday", "Friday", "Sunday"], ["USPTA Certified", "Fitness Trainer Certified"]),
    SampleRow("6", "Carlos Martinez", "Clay Court Specialist", "Phoenix", "15 years",
      "carlos.martinez@email.com", "+1-555-0106",
      "European-trained coach specializing in clay court techniques and strategic play.",
      100.0, ["Tuesday", "Thursday", "Saturday", "Sunday"], ["RPT Certified", "European Tennis Academy Graduate"])
  ]

  /** The six records written when the table is found empty, in write order. */
  const SampleCoaches: seq<Item> :=
    [SampleProfile(SampleRows[0]), SampleProfile(SampleRows[1]), SampleProfile(SampleRows[2]),
     SampleProfile(SampleRows[3]), SampleProfile(SampleRows[4]), SampleProfile(SampleRows[5])]

  /** Six records keyed '1' to '6', in order. */
  function KeyedSix(cs: seq<Item>): map<string, Item>
    requires |cs| == 6
  {
    map["1" := cs[0], "2" := cs[1], "3" := cs[2], "4" := cs[3], "5" := cs[4], "6" := cs[5]]
  }

  /** The sample records keyed by their coach_id: '1' to '6'. */
  function SampleTable(): map<string, Item>
  {
    KeyedSix(SampleCoaches)
  }
}
