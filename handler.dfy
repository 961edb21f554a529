/**
  The coach REST handler: routing of a request to one of five operations over
  the table, first-use seeding, the specialty filter, construction of the
  partial-update expression, and the conversion of every fault into a 500 reply.
 */
module Handler {
  import opened Wrappers
  import opened Text
  import opened Coach
  import opened Errors
  import opened Store

  /** The cross-origin headers every reply carries. */
  const CorsHeaders: map<string, string> := map[
    "Access-Control-Allow-Origin" := "*",
    "Access-Control-Allow-Headers" := "Content-Type,X-Amz-Date,Authorization,X-Api-Key,X-Amz-Security-Token",
    "Access-Control-Allow-Methods" := "GET,POST,PUT,DELETE,OPTIONS"]

  /** A reply body, before it is written out as JSON. */
  datatype ResponseBody =
    | Empty                        // ''
    | Error(error: string)         // {error}
    | ServerError(details: Fault)  // {error: 'Internal server error', details}
    | Message(message: string)     // {message}
    | Record(coach: Item)          // one coach
    | Records(coaches: seq<Item>)  // an array of coaches

  datatype Response = Response(statusCode: int, headers: map<string, string>, body: ResponseBody)

  /** The API Gateway event body: absent or empty (read as '{}'), not JSON, or parsed JSON. */
  datatype RawBody = NoBody | Malformed | WellFormed(json: Json)

  datatype Request = Request(
    httpMethod: string,
    path: string,
    pathParameters: Option<map<string, string>>,
    queryStringParameters: Option<map<string, string>>,
    body: RawBody)

  predicate WellFormedRequest(req: Request)
  {
    req.body.WellFormed? ==> WellFormedJson(req.body.json)
  }

  function Reply(statusCode: int, body: ResponseBody): Response
  {
    Response(statusCode, CorsHeaders, body)
  }

  const PreflightResponse: Response := Reply(200, Empty)
  const RouteNotFound: Response := Reply(404, Error("Not found"))
  const CoachNotFound: Response := Reply(404, Error("Coach not found"))
  const NoValidFields: Response := Reply(400, Error("No valid fields to update"))
  const CoachDeleted: Response := Reply(200, Message("Coach deleted successfully"))

  /** The reply of the top-level catch. */
  function Internal(f: Fault): Response
  {
    Reply(500, ServerError(f))
  }

  // ---------------------------------------------------------------- routing

  /** `params && params[name]`: a parameter that is present and not the empty string. */
  function Param(params: Option<map<string, string>>, name: string): Option<string>
  {
    if params.Some? && name in params.value && params.value[name] != "" then Some(params.value[name]) else None
  }

  predicate IsCollectionPath(path: string)
  {
    path == "/coaches" || path == "/prod/coaches"
  }

  /** The operation a request reaches. */
  datatype Route =
    | Preflight
    | ListCoaches(query: Option<map<string, string>>)
    | GetCoach(id: string)
    | CreateCoach(body: RawBody)
    | UpdateCoach(id: string, body: RawBody)
    | DeleteCoach(id: string)
    | NoRoute

  /** The dispatch of the handler: OPTIONS first, then the switch on the method. */
  function RouteOf(req: Request): (r: Route)
    ensures r == Preflight <==> req.httpMethod == "OPTIONS"
    ensures r.ListCoaches? <==> req.httpMethod == "GET" && IsCollectionPath(req.path)
    ensures r.GetCoach? <==> req.httpMethod == "GET" && !IsCollectionPath(req.path) && Param(req.pathParameters, "id").Some?
    ensures r.CreateCoach? <==> req.httpMethod == "POST" && IsCollectionPath(req.path)
    ensures r.UpdateCoach? <==> req.httpMethod == "PUT" && Param(req.pathParameters, "id").Some?
    ensures r.DeleteCoach? <==> req.httpMethod == "DELETE" && Param(req.pathParameters, "id").Some?
    ensures r.ListCoaches? ==> r.query == req.queryStringParameters
    ensures r.CreateCoach? || r.UpdateCoach? ==> r.body == req.body
    ensures r.GetCoach? || r.UpdateCoach? || r.DeleteCoach? ==> Param(req.pathParameters, "id") == Some(r.id)
  {
    var id := Param(req.pathParameters, "id");
    match req.httpMethod
    case "OPTIONS" => Preflight
    case "GET" =>
      if IsCollectionPath(req.path) then ListCoaches(req.queryStringParameters)
      else if id.Some? then GetCoach(id.value)
      else NoRoute
    case "POST" => if IsCollectionPath(req.path) then CreateCoach(req.body) else NoRoute
    case "PUT" => if id.Some? then UpdateCoach(id.value, req.body) else NoRoute
    case "DELETE" => if id.Some? then DeleteCoach(id.value) else NoRoute
    case _ => NoRoute
  }

  /** `JSON.parse(body || '{}')`. */
  function ParseBody(body: RawBody): Result<Json, Fault>
  {
    match body
    case NoBody => Success(JObject([]))
    case Malformed => Failure(SyntaxError)
    case WellFormed(j) => Success(j)
  }

  // ---------------------------------------------------------------- seeding

  /** The seeding loop: puts each record in order and stops at the first put that raises. */
  function SeedEach(items: map<string, Item>, coaches: seq<Item>, faults: set<StoreOp>): (r: map<string, Item>)
    ensures ValidTable(items) ==> ValidTable(r)
    ensures items.Keys <= r.Keys
    decreases |coaches|
  {
    if coaches == [] then items
    else
      match PutOutcome(items, coaches[0], faults)
      case Failure(_) => items
      case Success(next) => SeedEach(next, coaches[1..], faults)
  }

  /** The table after initializeSampleData: seeded only when the probe scan answers that it is empty. */
  function Seeded(items: map<string, Item>, faults: set<StoreOp>): (r: map<string, Item>)
    ensures items != map[] ==> r == items
    ensures ProbeScan in faults ==> r == items
    ensures ValidTable(items) ==> ValidTable(r)
  {
    if ProbeScan in faults || items != map[] then items
    else SeedEach(items, SampleCoaches, faults)
  }

  /** initializeSampleData: any error is swallowed and the request goes on. */
  method InitializeSampleData(table: Table, faults: set<StoreOp>)
    requires table.Valid()
    modifies table
    ensures table.Valid()
    ensures table.items == Seeded(old(table.items), faults)
  {
    var probe := table.Probe(faults);
    if probe.Failure? {
      return;
    }
    if |probe.value| == 0 {
      SeedAll(table, SampleCoaches, faults);
    }
  }

  /** The `for (const coach of sampleCoaches)` loop: one put per record, leaving at the first error. */
  method SeedAll(table: Table, coaches: seq<Item>, faults: set<StoreOp>)
    requires table.Valid()
    modifies table
    ensures table.Valid()
    ensures table.items == SeedEach(old(table.items), coaches, faults)
  {
    for i := 0 to |coaches|
      invariant table.Valid()
      invariant SeedEach(table.items, coaches[i..], faults) == SeedEach(old(table.items), coaches, faults)
    {
      assert coaches[i..][0] == coaches[i] && coaches[i..][1..] == coaches[i + 1..];
      var put := table.Put(coaches[i], faults);
      if put.Failure? {
        break;
      }
    }
  }

  // ---------------------------------------------------------------- list

  /** `coach.specialty.toLowerCase()` throws unless the specialty is a string. */
  predicate HasTextSpecialty(coach: Item)
  {
    "specialty" in coach && coach["specialty"].Str?
  }

  /** A record passes the filter when its specialty, lower-cased, contains the lower-cased query. */
  predicate MatchesSpecialty(coach: Item, query: string)
  {
    HasTextSpecialty(coach) && Includes(Lower(coach["specialty"].s), Lower(query))
  }

  /** `a` is `b` with some elements left out, the rest in their order. */
  predicate IsSubsequence(a: seq<Item>, b: seq<Item>)
  {
    a == [] || (b != [] && ((a[0] == b[0] && IsSubsequence(a[1..], b[1..])) || IsSubsequence(a, b[1..])))
  }

  /** `coaches.filter(...)` on the specialty: a TypeError when some record has no string specialty. */
  function FilterSpecialty(coaches: seq<Item>, query: string): (r: Result<seq<Item>, Fault>)
    ensures r.Failure? <==> exists i :: 0 <= i < |coaches| && !HasTextSpecialty(coaches[i])
    ensures r.Failure? ==> r.error == TypeError
    ensures r.Success? ==> IsSubsequence(r.value, coaches)
    ensures r.Success? ==> forall c :: c in r.value <==> c in coaches && MatchesSpecialty(c, query)
  {
    if coaches == [] then Success([])
    else if !HasTextSpecialty(coaches[0]) then Failure(TypeError)
    else
      match FilterSpecialty(coaches[1..], query)
      case Failure(e) =>
        var i :| 0 <= i < |coaches[1..]| && !HasTextSpecialty(coaches[1..][i]);
        assert !HasTextSpecialty(coaches[i + 1]);
        Failure(e)
      case Success(rest) =>
        assert forall c :: c in coaches <==> c == coaches[0] || c in coaches[1..];
        assert forall i :: 1 <= i < |coaches| ==> coaches[i] == coaches[1..][i - 1];
        if MatchesSpecialty(coaches[0], query) then
          assert ([coaches[0]] + rest)[1..] == rest;
          Success([coaches[0]] + rest)
        else Success(rest)
  }

  /** The filter keeps each passing record as often as the input holds it, and drops every other. */
  lemma {:induction false} FilterCounts(coaches: seq<Item>, query: string)
    requires FilterSpecialty(coaches, query).Success?
    ensures forall c :: multiset(FilterSpecialty(coaches, query).value)[c] ==
                          if MatchesSpecialty(c, query) then multiset(coaches)[c] else 0
  {
    if coaches != [] {
      FilterCounts(coaches[1..], query);
      assert coaches == [coaches[0]] + coaches[1..];
      var rest := FilterSpecialty(coaches[1..], query).value;
      if MatchesSpecialty(coaches[0], query) {
        assert FilterSpecialty(coaches, query).value == [coaches[0]] + rest;
      } else {
        assert FilterSpecialty(coaches, query).value == rest;
      }
    }
  }

  function ListFaultOp(query: Option<map<string, string>>): StoreOp
  {
    if Param(query, "location").Some? then LocationQuery else FullScan
  }

  /** What the store hands back for a list request: the location index or the whole table. */
  ghost predicate Retrieved(items: map<string, Item>, query: Option<map<string, string>>, rs: seq<Item>)
  {
    match Param(query, "location")
    case Some(loc) => Enumerates(rs, AtLocation(items, loc))
    case None => Enumerates(rs, items)
  }

  /** The reply to a list request once the store has answered with `retrieved`. */
  function ListResponse(retrieved: seq<Item>, query: Option<map<string, string>>): Response
  {
    match Param(query, "specialty")
    case None => Reply(200, Records(retrieved))
    case Some(s) =>
      match FilterSpecialty(retrieved, s)
      case Success(found) => Reply(200, Records(found))
      case Failure(e) => Internal(e)
  }

  ghost predicate ListSpec(items: map<string, Item>, query: Option<map<string, string>>, faults: set<StoreOp>, resp: Response)
  {
    if ListFaultOp(query) in faults then resp == Internal(StoreUnavailable(ListFaultOp(query)))
    else exists rs :: Retrieved(items, query, rs) && resp == ListResponse(rs, query)
  }

  /** getCoaches. */
  method GetCoaches(table: Table, query: Option<map<string, string>>, faults: set<StoreOp>) returns (resp: Response)
    ensures resp.headers == CorsHeaders
    ensures ListSpec(table.items, query, faults, resp)
  {
    var location := Param(query, "location");
    var result;
    if location.Some? {
      result := table.QueryByLocation(location.value, faults);
    } else {
      result := table.Scan(faults);
    }
    if result.Failure? {
      return Internal(result.error);
    }
    var coaches := result.value;
    var specialty := Param(query, "specialty");
    if specialty.Some? {
      var filtered := FilterSpecialty(coaches, specialty.value);
      if filtered.Failure? {
        assert Retrieved(table.items, query, result.value) && Internal(filtered.error) == ListResponse(result.value, query);
        return Internal(filtered.error);
      }
      coaches := filtered.value;
    }
    resp := Reply(200, Records(coaches));
    assert Retrieved(table.items, query, result.value) && resp == ListResponse(result.value, query);
  }

  // ---------------------------------------------------------------- get

  ghost predicate GetSpec(items: map<string, Item>, id: string, faults: set<StoreOp>, resp: Response)
  {
    if GetItem in faults then resp == Internal(StoreUnavailable(GetItem))
    else if id in items then resp == Reply(200, Record(items[id]))
    else resp == CoachNotFound
  }

  /** getCoachById. */
  method GetCoachById(table: Table, id: string, faults: set<StoreOp>) returns (resp: Response)
    ensures resp.headers == CorsHeaders
    ensures GetSpec(table.items, id, faults, resp)
  {
    var result := table.Get(id, faults);
    if result.Failure? {
      return Internal(result.error);
    }
    if result.value.None? {
      return CoachNotFound;
    }
    resp := Reply(200, Record(result.value.value));
  }

  // ---------------------------------------------------------------- create

  ghost predicate CreateSpec(before: map<string, Item>, after: map<string, Item>, data: Json,
                             coachId: string, createdAt: string, faults: set<StoreOp>, resp: Response)
  {
    match NewRecord(data, coachId, createdAt)
    case None => resp == Internal(TypeError) && after == before
    case Some(coach) =>
      if PutItem(coachId) in faults then resp == Internal(StoreUnavailable(PutItem(coachId))) && after == before
      else resp == Reply(201, Record(coach)) && after == before[coachId := coach]
  }

  /** createCoach; the fresh id and the creation time are supplied by the caller. */
  method CreateCoachRecord(table: Table, data: Json, coachId: string, createdAt: string, faults: set<StoreOp>)
    returns (resp: Response)
    requires table.Valid()
    modifies table
    ensures table.Valid()
    ensures resp.headers == CorsHeaders
    ensures CreateSpec(old(table.items), table.items, data, coachId, createdAt, faults, resp)
  {
    var coach := NewRecord(data, coachId, createdAt);
    if coach.None? {
      return Internal(TypeError);
    }
    var put := table.Put(coach.value, faults);
    if put.Failure? {
      return Internal(put.error);
    }
    resp := Reply(201, Record(coach.value));
  }

  // ---------------------------------------------------------------- update

  /** The assignments an update body asks for: its allowed pairs, in body order. */
  function Plan(data: Json): (plan: seq<(string, Value)>)
    requires WellFormedJson(data)
    ensures DistinctKeys(plan)
    ensures forall i :: 0 <= i < |plan| ==> plan[i].0 in AllowedFields
    ensures !data.JObject? ==> plan == []
  {
    if data.JObject? then AllowedPairsDistinct(data.fields); AllowedPairs(data.fields) else []
  }

  /** The record an accepted update leaves: the plan applied, then `updated_at` stamped. */
  function Revised(coach: Item, plan: seq<(string, Value)>, now: string): Item
  {
    Assign(coach, plan + [("updated_at", Str(now))])
  }

  ghost predicate UpdateSpec(before: map<string, Item>, after: map<string, Item>, id: string, data: Json,
                             now: string, faults: set<StoreOp>, resp: Response)
    requires WellFormedJson(data)
  {
    if GetItem in faults then resp == Internal(StoreUnavailable(GetItem)) && after == before
    else if id !in before then resp == CoachNotFound && after == before
    else if data.JNull? then resp == Internal(TypeError) && after == before
    else if Plan(data) == [] then resp == NoValidFields && after == before
    else if UpdateItem in faults then resp == Internal(StoreUnavailable(UpdateItem)) && after == before
    else after == before[id := Revised(before[id], Plan(data), now)] && resp == Reply(200, Record(after[id]))
  }

  /** One clause `path = placeholder` of a SET expression. */
  function ClauseText(path: string, placeholder: string): string
  {
    path + " = " + placeholder
  }

  /** The SET clause updateCoach writes for one field: `#key = :key`. */
  function ClauseFor(key: string): string
  {
    ClauseText("#" + key, ":" + key)
  }

  /** The clause updateCoach appends last: `updated_at = :updated_at`. */
  function UpdatedAtClause(): string
  {
    ClauseText("updated_at", ":updated_at")
  }

  /** The builder's `updates` for a plan: one clause per assignment, in order. */
  function ClausesFor(plan: seq<(string, Value)>): (r: seq<string>)
    ensures |r| == |plan|
    ensures forall i :: 0 <= i < |plan| ==> r[i] == ClauseFor(plan[i].0)
  {
    if plan == [] then [] else ClausesFor(plan[..|plan| - 1]) + [ClauseFor(plan[|plan| - 1].0)]
  }

  /** The builder's `expressionAttributeNames` for a plan: `#k` names the attribute `k`. */
  function NamesFor(plan: seq<(string, Value)>): (r: map<string, string>)
    ensures forall i :: 0 <= i < |plan| ==> "#" + plan[i].0 in r && r["#" + plan[i].0] == plan[i].0
  {
    if plan == [] then map[]
    else
      var k := plan[|plan| - 1].0;
      var r := NamesFor(plan[..|plan| - 1])["#" + k := k];
      assert forall i :: 0 <= i < |plan| - 1 ==> plan[..|plan| - 1][i] == plan[i];
      forall i | 0 <= i < |plan| - 1 && "#" + plan[i].0 == "#" + k ensures plan[i].0 == k {
        assert ("#" + plan[i].0)[1..] == plan[i].0 && ("#" + k)[1..] == k;
      }
      r
  }

  /** The builder's `expressionAttributeValues` for a plan: `:k` holds the new value of `k`. */
  function ValuesFor(plan: seq<(string, Value)>): (r: map<string, Value>)
    ensures DistinctKeys(plan) ==>
              forall i :: 0 <= i < |plan| ==> ":" + plan[i].0 in r && r[":" + plan[i].0] == plan[i].1
  {
    if plan == [] then map[]
    else
      var (k, v) := plan[|plan| - 1];
      var front := plan[..|plan| - 1];
      var r := ValuesFor(front)[":" + k := v];
      assert forall i :: 0 <= i < |plan| - 1 ==> front[i] == plan[i];
      assert DistinctKeys(plan) ==> DistinctKeys(front);
      forall i | 0 <= i < |plan| - 1 && DistinctKeys(plan) ensures ":" + plan[i].0 != ":" + k {
        assert (":" + plan[i].0)[1..] == plan[i].0 && (":" + k)[1..] == k;
      }
      r
  }

  lemma {:induction false} AllowedPairsSnoc(fields: seq<(string, Value)>, p: (string, Value))
    ensures AllowedPairs(fields + [p]) == AllowedPairs(fields) + (if p.0 in AllowedFields then [p] else [])
  {
    if fields == [] {
      assert [p][1..] == [];
    } else {
      assert (fields + [p])[1..] == fields[1..] + [p];
      AllowedPairsSnoc(fields[1..], p);
    }
  }

  /** Each builder output grows by one entry when the plan grows by one assignment. */
  lemma BuilderSnoc(plan: seq<(string, Value)>, p: (string, Value))
    ensures ClausesFor(plan + [p]) == ClausesFor(plan) + [ClauseFor(p.0)]
    ensures NamesFor(plan + [p]) == NamesFor(plan)["#" + p.0 := p.0]
    ensures ValuesFor(plan + [p]) == ValuesFor(plan)[":" + p.0 := p.1]
  {
    var plan' := plan + [p];
    assert plan'[..|plan'| - 1] == plan && plan'[|plan'| - 1] == p;
  }

  /** The forEach of updateCoach over the body's keys: a clause, a name and a value per allowed key. */
  method CollectUpdates(fields: seq<(string, Value)>)
    returns (updates: seq<string>, names: map<string, string>, values: map<string, Value>)
    ensures updates == ClausesFor(AllowedPairs(fields))
    ensures names == NamesFor(AllowedPairs(fields))
    ensures values == ValuesFor(AllowedPairs(fields))
  {
    updates, names, values := [], map[], map[];
    for i := 0 to |fields|
      invariant updates == ClausesFor(AllowedPairs(fields[..i]))
      invariant names == NamesFor(AllowedPairs(fields[..i]))
      invariant values == ValuesFor(AllowedPairs(fields[..i]))
    {
      var (key, value) := fields[i];
      AllowedPairsSnoc(fields[..i], fields[i]);
      PrefixSnoc(fields, i);
      if key in AllowedFields {
        BuilderSnoc(AllowedPairs(fields[..i]), (key, value));
        updates := updates + [ClauseFor(key)];
        names := names["#" + key := key];
        values := values[":" + key := value];
        assert AllowedPairs(fields[..i + 1]) == AllowedPairs(fields[..i]) + [(key, value)];
        assert names == NamesFor(AllowedPairs(fields[..i + 1]));
        assert values == ValuesFor(AllowedPairs(fields[..i + 1]));
      } else {
        assert AllowedPairs(fields[..i + 1]) == AllowedPairs(fields[..i]);
      }
    }
    PrefixWhole(fields);
  }

  /** A field name the SET expression can carry: no space, no comma, not empty, not starting with '#'. */
  predicate PlainName(k: string)
  {
    k != "" && k[0] != '#' && ' ' !in k && ',' !in k
  }

  /** The allowed field names are plain, and none is a system-stamped attribute. */
  lemma AllowedFieldIsPlain(k: string)
    requires k in AllowedFields
    ensures PlainName(k) && k != "coach_id" && k != "created_at" && k != "updated_at"
  {
    assert k == "name" || k == "specialty" || k == "location" || k == "rating" || k == "experience"
        || k == "email" || k == "phone" || k == "bio" || k == "hourly_rate" || k == "availability"
        || k == "certifications";
  }

  /** The expression updateCoach sends, for the builder's clauses. */
  function SetExpression(updates: seq<string>): string
  {
    "SET " + Join(updates, ", ") + ", " + UpdatedAtClause()
  }

  lemma ClauseTextSplits(path: string, placeholder: string)
    requires ' ' !in path && ' ' !in placeholder
    ensures Split(ClauseText(path, placeholder), " = ") == [path, placeholder]
    ensures ',' !in path && ',' !in placeholder ==> ',' !in ClauseText(path, placeholder)
  {
    var parts := [path, placeholder];
    assert parts[1..] == [placeholder];
    assert Join(parts, " = ") == ClauseText(path, placeholder);
    assert forall i :: 0 <= i < |parts| ==> " = "[0] !in parts[i];
    SplitJoin(parts, " = ");
  }

  lemma ClauseSplits(key: string)
    requires PlainName(key)
    ensures Split(ClauseFor(key), " = ") == ["#" + key, ":" + key]
    ensures ',' !in ClauseFor(key)
  {
    assert ' ' !in "#" + key && ' ' !in ":" + key;
    assert ',' !in "#" + key && ',' !in ":" + key;
    ClauseTextSplits("#" + key, ":" + key);
  }

  lemma {:induction false} ParseClausesOfPlan(plan: seq<(string, Value)>, names: map<string, string>, values: map<string, Value>)
    requires forall i :: 0 <= i < |plan| ==> PlainName(plan[i].0)
    requires forall i :: 0 <= i < |plan| ==> "#" + plan[i].0 in names && names["#" + plan[i].0] == plan[i].0
    requires forall i :: 0 <= i < |plan| ==> ":" + plan[i].0 in values && values[":" + plan[i].0] == plan[i].1
    ensures ParseClauses(ClausesFor(plan), names, values) == Success(plan)
  {
    if plan != [] {
      var clauses := ClausesFor(plan);
      ClauseSplits(plan[0].0);
      assert ParseClause(clauses[0], names, values) == Success(plan[0]);
      ParseClausesOfPlan(plan[1..], names, values);
      assert ClausesFor(plan[1..]) == clauses[1..];
      assert plan == [plan[0]] + plan[1..];
    }
  }

  lemma {:induction false} ParseClausesAppend(a: seq<string>, b: seq<string>,
                                               names: map<string, string>, values: map<string, Value>)
    requires ParseClauses(a, names, values).Success? && ParseClauses(b, names, values).Success?
    ensures ParseClauses(a + b, names, values)
            == Success(ParseClauses(a, names, values).value + ParseClauses(b, names, values).value)
  {
    if a == [] {
      assert a + b == b;
      assert ParseClauses(a, names, values).value == [];
      assert [] + ParseClauses(b, names, values).value == ParseClauses(b, names, values).value;
    } else {
      ParseClausesAppend(a[1..], b, names, values);
      ParseClausesConsAppend(a, b, names, values);
    }
  }

  /** One step of ParseClausesAppend: the first clause of `a` is read first in `a + b`. */
  lemma ParseClausesConsAppend(a: seq<string>, b: seq<string>, names: map<string, string>, values: map<string, Value>)
    requires a != [] && ParseClauses(a, names, values).Success? && ParseClauses(b, names, values).Success?
    requires ParseClauses(a[1..] + b, names, values)
             == Success(ParseClauses(a[1..], names, values).value + ParseClauses(b, names, values).value)
    ensures ParseClauses(a + b, names, values)
            == Success(ParseClauses(a, names, values).value + ParseClauses(b, names, values).value)
  {
    var ab := a + b;
    ConcatSplit(a, b);
    var head := ParseClause(a[0], names, values);
    var x := ParseClauses(a[1..], names, values).value;
    var y := ParseClauses(b, names, values).value;
    assert head.Success? && ParseClauses(a, names, values).value == [head.value] + x;
    assert ParseClauses(ab, names, values) == Success([head.value] + (x + y));
    ConsAssociates(head.value, x, y);
  }

  lemma PrefixSnoc<T>(s: seq<T>, i: int)
    requires 0 <= i < |s|
    ensures s[..i + 1] == s[..i] + [s[i]]
  {
  }

  lemma PrefixWhole<T>(s: seq<T>)
    ensures s[..|s|] == s
  {
  }

  lemma ConcatSplit<T>(a: seq<T>, b: seq<T>)
    requires a != []
    ensures a + b != [] && (a + b)[0] == a[0] && (a + b)[1..] == a[1..] + b
  {
  }

  lemma ConsAssociates<T>(h: T, x: seq<T>, y: seq<T>)
    ensures [h] + (x + y) == ([h] + x) + y
  {
  }

  lemma UpdatedAtClauseSplits()
    ensures Split(UpdatedAtClause(), " = ") == ["updated_at", ":updated_at"]
    ensures ',' !in UpdatedAtClause()
  {
    assert ' ' !in "updated_at" && ' ' !in ":updated_at";
    assert ',' !in "updated_at" && ',' !in ":updated_at";
    ClauseTextSplits("updated_at", ":updated_at");
  }

  lemma ClauseTextParses(path: string, placeholder: string, names: map<string, string>, values: map<string, Value>)
    requires ' ' !in path && ' ' !in placeholder
    requires path != "" && path[0] != '#'
    requires placeholder != "" && placeholder[0] == ':' && placeholder in values
    ensures ParseClauses([ClauseText(path, placeholder)], names, values) == Success([(path, values[placeholder])])
  {
    var clause := ClauseText(path, placeholder);
    ClauseTextSplits(path, placeholder);
    assert ResolvePath(path, names) == Some(path);
    assert ParseClause(clause, names, values) == Success((path, values[placeholder]));
    assert [clause][0] == clause && [clause][1..] == [];
    assert ParseClauses([], names, values) == Success([]);
    assert [(path, values[placeholder])] + [] == [(path, values[placeholder])];
  }

  lemma UpdatedAtClauseParses(names: map<string, string>, values: map<string, Value>)
    requires ":updated_at" in values
    ensures ParseClauses([UpdatedAtClause()], names, values) == Success([("updated_at", values[":updated_at"])])
  {
    ClauseTextParses("updated_at", ":updated_at", names, values);
  }

  /** The store splits the expression back into the clauses it was joined from. */
  lemma SetExpressionClauses(updates: seq<string>)
    requires updates != []
    requires forall i :: 0 <= i < |updates| ==> ',' !in updates[i]
    ensures |SetExpression(updates)| >= 4 && SetExpression(updates)[..4] == "SET "
    ensures Split(SetExpression(updates)[4..], ", ") == updates + [UpdatedAtClause()]
  {
    var clauses := updates + [UpdatedAtClause()];
    JoinSnoc(updates, UpdatedAtClause(), ", ");
    var expression := SetExpression(updates);
    assert expression == "SET " + Join(clauses, ", ");
    assert expression[4..] == Join(clauses, ", ");
    UpdatedAtClauseSplits();
    assert forall i :: 0 <= i < |clauses| ==> ", "[0] !in clauses[i] by {
      forall i | 0 <= i < |clauses| ensures ',' !in clauses[i] {
        if i < |updates| { assert clauses[i] == updates[i]; }
      }
    }
    SplitJoin(clauses, ", ");
  }

  lemma {:induction false} ClausesForPlain(plan: seq<(string, Value)>)
    requires forall i :: 0 <= i < |plan| ==> PlainName(plan[i].0)
    ensures forall i :: 0 <= i < |ClausesFor(plan)| ==> ',' !in ClausesFor(plan)[i]
  {
    forall i | 0 <= i < |ClausesFor(plan)| ensures ',' !in ClausesFor(plan)[i] {
      ClauseSplits(plan[i].0);
    }
  }

  /**
    The round trip of the update expression: the store reads the expression,
    names and values that updateCoach builds for a plan as exactly the plan's
    assignments in order, followed by `updated_at`.
   */
  lemma SetExpressionMeaning(plan: seq<(string, Value)>, now: string)
    requires plan != [] && DistinctKeys(plan)
    requires forall i :: 0 <= i < |plan| ==> PlainName(plan[i].0) && plan[i].0 != "updated_at"
    ensures ParseSet(SetExpression(ClausesFor(plan)), NamesFor(plan), ValuesFor(plan)[":updated_at" := Str(now)])
            == Success(plan + [("updated_at", Str(now))])
  {
    var values := ValuesFor(plan)[":updated_at" := Str(now)];
    ClausesForPlain(plan);
    SetExpressionClauses(ClausesFor(plan));
    StampedValues(plan, now);
    PlanClausesParse(plan, NamesFor(plan), values);
  }

  /** Adding the `:updated_at` placeholder keeps every placeholder of the plan. */
  lemma StampedValues(plan: seq<(string, Value)>, now: string)
    requires DistinctKeys(plan)
    requires forall i :: 0 <= i < |plan| ==> plan[i].0 != "updated_at"
    ensures var values := ValuesFor(plan)[":updated_at" := Str(now)];
            ":updated_at" in values && values[":updated_at"] == Str(now) &&
            forall i :: 0 <= i < |plan| ==> ":" + plan[i].0 in values && values[":" + plan[i].0] == plan[i].1
  {
    var values := ValuesFor(plan)[":updated_at" := Str(now)];
    forall i | 0 <= i < |plan| ensures ":" + plan[i].0 in values && values[":" + plan[i].0] == plan[i].1 {
      assert ":" + plan[i].0 != ":updated_at" by {
        assert (":" + plan[i].0)[1..] == plan[i].0;
      }
    }
  }

  /** The plan's clauses followed by the `updated_at` clause parse as the plan followed by the stamp. */
  lemma PlanClausesParse(plan: seq<(string, Value)>, names: map<string, string>, values: map<string, Value>)
    requires forall i :: 0 <= i < |plan| ==> PlainName(plan[i].0)
    requires forall i :: 0 <= i < |plan| ==> "#" + plan[i].0 in names && names["#" + plan[i].0] == plan[i].0
    requires forall i :: 0 <= i < |plan| ==> ":" + plan[i].0 in values && values[":" + plan[i].0] == plan[i].1
    requires ":updated_at" in values
    ensures ParseClauses(ClausesFor(plan) + [UpdatedAtClause()], names, values)
            == Success(plan + [("updated_at", values[":updated_at"])])
  {
    ParseClausesOfPlan(plan, names, values);
    UpdatedAtClauseParses(names, values);
    ParseClausesAppend(ClausesFor(plan), [UpdatedAtClause()], names, values);
  }

  lemma PlanIsPlain(plan: seq<(string, Value)>)
    requires forall i :: 0 <= i < |plan| ==> plan[i].0 in AllowedFields
    ensures forall i :: 0 <= i < |plan| ==> PlainName(plan[i].0) && plan[i].0 != "updated_at" && plan[i].0 != "coach_id"
  {
    forall i | 0 <= i < |plan| ensures PlainName(plan[i].0) && plan[i].0 != "updated_at" && plan[i].0 != "coach_id" {
      AllowedFieldIsPlain(plan[i].0);
    }
  }

  /**
    What the store makes of the update request built for a non-empty plan of
    plain field names: the stored record with the plan applied and
    `updated_at` stamped.
   */
  lemma PlainUpdateMeaning(items: map<string, Item>, id: string, plan: seq<(string, Value)>, now: string)
    requires id in items && plan != [] && DistinctKeys(plan)
    requires forall i :: 0 <= i < |plan| ==> PlainName(plan[i].0) && plan[i].0 != "updated_at" && plan[i].0 != "coach_id"
    ensures ApplyUpdate(items, id, SetExpression(ClausesFor(plan)), NamesFor(plan), ValuesFor(plan)[":updated_at" := Str(now)])
            == Success(Revised(items[id], plan, now))
  {
    var expression := SetExpression(ClausesFor(plan));
    var names := NamesFor(plan);
    var values := ValuesFor(plan)[":updated_at" := Str(now)];
    var assignments := plan + [("updated_at", Str(now))];
    assert ParseSet(expression, names, values) == Success(assignments) by {
      SetExpressionMeaning(plan, now);
    }
    StampKeepsKey(plan, now);
    ParsedUpdate(items, id, expression, names, values, assignments);
  }

  /** A plan that does not assign the key attribute still does not once stamped. */
  lemma StampKeepsKey(plan: seq<(string, Value)>, now: string)
    requires forall i :: 0 <= i < |plan| ==> plan[i].0 != "coach_id"
    ensures "coach_id" !in KeysOf(plan + [("updated_at", Str(now))])
  {
    var assignments := plan + [("updated_at", Str(now))];
    forall i | 0 <= i < |assignments| ensures assignments[i].0 != "coach_id" {
      if i < |plan| { assert assignments[i] == plan[i]; }
    }
  }

  lemma ParsedUpdate(items: map<string, Item>, id: string, expression: string, names: map<string, string>,
                     values: map<string, Value>, assignments: seq<(string, Value)>)
    requires id in items
    requires ParseSet(expression, names, values) == Success(assignments)
    requires "coach_id" !in KeysOf(assignments)
    ensures ApplyUpdate(items, id, expression, names, values) == Success(Assign(items[id], assignments))
  {
  }

  /** updateCoach; the update time is supplied by the caller. */
  method UpdateCoachRecord(table: Table, id: string, data: Json, now: string, faults: set<StoreOp>)
    returns (resp: Response)
    requires table.Valid() && WellFormedJson(data)
    modifies table
    ensures table.Valid()
    ensures resp.headers == CorsHeaders
    ensures UpdateSpec(old(table.items), table.items, id, data, now, faults, resp)
  {
    var existing := table.Get(id, faults);
    if existing.Failure? {
      return Internal(existing.error);
    }
    if existing.value.None? {
      return CoachNotFound;
    }
    if data.JNull? {
      // Object.keys(null) throws
      return Internal(TypeError);
    }
    var fields := if data.JObject? then data.fields else [];
    var updates, names, values := CollectUpdates(fields);
    if |updates| == 0 {
      return NoValidFields;
    }
    var expression := SetExpression(updates);
    values := values[":updated_at" := Str(now)];
    PlanIsPlain(Plan(data));
    PlainUpdateMeaning(table.items, id, Plan(data), now);
    var result := table.Update(id, expression, names, values, faults);
    if result.Failure? {
      return Internal(result.error);
    }
    resp := Reply(200, Record(result.value));
  }

  // ---------------------------------------------------------------- delete

  ghost predicate DeleteSpec(before: map<string, Item>, after: map<string, Item>, id: string,
                             faults: set<StoreOp>, resp: Response)
  {
    if DeleteItem in faults then resp == Internal(StoreUnavailable(DeleteItem)) && after == before
    else if id !in before then resp == CoachNotFound && after == before
    else resp == CoachDeleted && after == before - {id}
  }

  /** deleteCoach. */
  method DeleteCoachRecord(table: Table, id: string, faults: set<StoreOp>) returns (resp: Response)
    requires table.Valid()
    modifies table
    ensures table.Valid()
    ensures resp.headers == CorsHeaders
    ensures DeleteSpec(old(table.items), table.items, id, faults, resp)
  {
    var result := table.Delete(id, faults);
    if result.Failure? {
      return Internal(result.error);
    }
    if result.value.None? {
      assert table.items == old(table.items);
      return CoachNotFound;
    }
    resp := CoachDeleted;
  }

  // ---------------------------------------------------------------- handler

  /** What the handler does for a request that reaches `route`, given the table `seeded` the operation sees. */
  ghost predicate Answered(route: Route, seeded: map<string, Item>, after: map<string, Item>,
                           now: string, newId: string, faults: set<StoreOp>, resp: Response)
    requires route.CreateCoach? || route.UpdateCoach? ==>
               (route.body.WellFormed? ==> WellFormedJson(route.body.json))
  {
    match route
    case Preflight => resp == PreflightResponse && after == seeded
    case NoRoute => resp == RouteNotFound && after == seeded
    case ListCoaches(query) => ListSpec(seeded, query, faults, resp) && after == seeded
    case GetCoach(id) => GetSpec(seeded, id, faults, resp) && after == seeded
    case CreateCoach(body) =>
      (match ParseBody(body)
       case Failure(e) => resp == Internal(e) && after == seeded
       case Success(data) => CreateSpec(seeded, after, data, newId, now, faults, resp))
    case UpdateCoach(id, body) =>
      (match ParseBody(body)
       case Failure(e) => resp == Internal(e) && after == seeded
       case Success(data) => UpdateSpec(seeded, after, id, data, now, faults, resp))
    case DeleteCoach(id) => DeleteSpec(seeded, after, id, faults, resp)
  }

  /** The table an operation sees: the one the request found, seeded first unless it is a preflight. */
  ghost function Start(route: Route, before: map<string, Item>, faults: set<StoreOp>): map<string, Item>
  {
    if route.Preflight? then before else Seeded(before, faults)
  }

  /**
    The handler: one request in, one reply out. `now` stands for the clock
    and `newId` for `Date.now().toString()`; `faults` names the store calls
    that raise during this request.
   */
  method Handle(table: Table, req: Request, now: string, newId: string, faults: set<StoreOp>)
    returns (resp: Response)
    requires table.Valid() && WellFormedRequest(req)
    modifies table
    ensures table.Valid()
    ensures resp.headers == CorsHeaders
    ensures Answered(RouteOf(req), Start(RouteOf(req), old(table.items), faults), table.items, now, newId, faults, resp)
  {
    var route := RouteOf(req);
    if route.Preflight? {
      return PreflightResponse;
    }
    InitializeSampleData(table, faults);
    match route {
      case NoRoute =>
        resp := RouteNotFound;
      case ListCoaches(query) =>
        resp := GetCoaches(table, query, faults);
      case GetCoach(id) =>
        resp := GetCoachById(table, id, faults);
      case CreateCoach(body) =>
        var data := ParseBody(body);
        if data.Failure? {
          return Internal(data.error);
        }
        resp := CreateCoachRecord(table, data.value, newId, now, faults);
      case UpdateCoach(id, body) =>
        var data := ParseBody(body);
        if data.Failure? {
          return Internal(data.error);
        }
        resp := UpdateCoachRecord(table, id, data.value, now, faults);
      case DeleteCoach(id) =>
        resp := DeleteCoachRecord(table, id, faults);
    }
  }
}
