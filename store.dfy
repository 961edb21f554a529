/**
  The document store the handler talks to, as an in-memory table keyed by
  `coach_id`. It offers the calls the handler makes: a one-item scan, a full
  scan, a query on the location index, and get, put, update and delete of one
  item. A call whose kind is in `faults` raises instead of answering, which is
  how the model lets any store call fail.
 */
module Store {
  import opened Wrappers
  import opened Text
  import opened Coach
  import opened Errors

  /** The item's `coach_id`, when it has one of string type. */
  function KeyOf(item: Item): Option<string>
  {
    if "coach_id" in item && item["coach_id"].Str? then Some(item["coach_id"].s) else None
  }

  /** Every item is filed under its own `coach_id`. */
  ghost predicate ValidTable(items: map<string, Item>)
  {
    forall k :: k in items ==> KeyOf(items[k]) == Some(k)
  }

  /** `ks` lists keys of `m` without repeats, and `rs` holds their values in that order. */
  ghost predicate ListedBy(rs: seq<Item>, m: map<string, Item>, ks: seq<string>)
  {
    && |ks| == |rs|
    && (forall i :: 0 <= i < |ks| ==> ks[i] in m && rs[i] == m[ks[i]])
    && (forall i, j :: 0 <= i < j < |ks| ==> ks[i] != ks[j])
  }

  /**
    `rs` lists the values of `m` in some order, one entry per key: as many
    entries as keys, each the value of a different key, so every key is
    listed once and a record appears once for each key that holds it.
   */
  ghost predicate Enumerates(rs: seq<Item>, m: map<string, Item>)
  {
    && |rs| == |m|
    && (forall i :: 0 <= i < |rs| ==> rs[i] in m.Values)
    && (forall k :: k in m ==> m[k] in rs)
    && exists ks :: ListedBy(rs, m, ks)
  }

  /** Listing a table whose items are filed under their own keys repeats no record. */
  lemma EnumeratedOnce(rs: seq<Item>, m: map<string, Item>)
    requires ValidTable(m) && Enumerates(rs, m)
    ensures forall i, j :: 0 <= i < j < |rs| ==> rs[i] != rs[j]
  {
    var ks :| ListedBy(rs, m, ks);
    forall i, j | 0 <= i < j < |rs| ensures rs[i] != rs[j] {
      assert KeyOf(rs[i]) == Some(ks[i]) && KeyOf(rs[j]) == Some(ks[j]);
    }
  }

  /** The items whose `location` is exactly the string `loc`: what the location index holds under `loc`. */
  function AtLocation(items: map<string, Item>, loc: string): map<string, Item>
  {
    map k | k in items && "location" in items[k] && items[k]["location"] == Str(loc) :: items[k]
  }

  /** Lists the values of a map in some order, as a scan of the store does. */
  method EnumerateValues(m: map<string, Item>) returns (rs: seq<Item>)
    ensures Enumerates(rs, m)
  {
    var rest := m.Keys;
    rs := [];
    ghost var ks: seq<string> := [];
    while rest != {}
      invariant rest <= m.Keys
      invariant |rs| + |rest| == |m|
      invariant forall i :: 0 <= i < |rs| ==> rs[i] in m.Values
      invariant forall k :: k in m.Keys - rest ==> m[k] in rs
      invariant |ks| == |rs|
      invariant forall i :: 0 <= i < |ks| ==> ks[i] in m && ks[i] !in rest && rs[i] == m[ks[i]]
      invariant forall i, j :: 0 <= i < j < |ks| ==> ks[i] != ks[j]
      decreases rest
    {
      var k :| k in rest;
      rs := rs + [m[k]];
      ks := ks + [k];
      rest := rest - {k};
    }
    assert ListedBy(rs, m, ks);
  }

  /** The outcome of an unconditional put: the new table, or the fault the call raises. */
  function PutOutcome(items: map<string, Item>, item: Item, faults: set<StoreOp>): (r: Result<map<string, Item>, Fault>)
    ensures KeyOf(item).None? ==> r == Failure(ValidationException)
    ensures KeyOf(item).Some? && PutItem(KeyOf(item).value) in faults ==> r == Failure(StoreUnavailable(PutItem(KeyOf(item).value)))
    ensures r.Success? ==> KeyOf(item).Some? && r.value == items[KeyOf(item).value := item]
    ensures r.Success? && ValidTable(items) ==> ValidTable(r.value)
    ensures r.Success? <==> KeyOf(item).Some? && PutItem(KeyOf(item).value) !in faults
  {
    match KeyOf(item)
    case None => Failure(ValidationException)
    case Some(key) =>
      if PutItem(key) in faults then Failure(StoreUnavailable(PutItem(key)))
      else Success(items[key := item])
  }

  /** Where a SET path points: `#name` through the name map, any other non-empty path as written. */
  function ResolvePath(path: string, names: map<string, string>): Option<string>
  {
    if path == "" then None
    else if path[0] == '#' then (if path in names then Some(names[path]) else None)
    else Some(path)
  }

  /** One clause `path = :placeholder` of a SET expression, as an assignment. */
  function ParseClause(clause: string, names: map<string, string>, values: map<string, Value>): (r: Result<(string, Value), Fault>)
  {
    var sides := Split(clause, " = ");
    if |sides| != 2 then Failure(ValidationException)
    else
      var target := ResolvePath(sides[0], names);
      var placeholder := sides[1];
      if target.None? || placeholder == "" || placeholder[0] != ':' || placeholder !in values then Failure(ValidationException)
      else Success((target.value, values[placeholder]))
  }

  function ParseClauses(clauses: seq<string>, names: map<string, string>, values: map<string, Value>): (r: Result<seq<(string, Value)>, Fault>)
    ensures r.Success? ==> |r.value| == |clauses|
  {
    if clauses == [] then Success([])
    else
      var head := ParseClause(clauses[0], names, values);
      var rest := ParseClauses(clauses[1..], names, values);
      if head.Failure? then Failure(head.error)
      else if rest.Failure? then Failure(rest.error)
      else Success([head.value] + rest.value)
  }

  /**
    How the store reads `SET c1, c2, ...` with its name and value maps: the
    assignments in clause order, or a validation fault. Only the SET form with
    clauses separated by ", " is read.
   */
  function ParseSet(expression: string, names: map<string, string>, values: map<string, Value>): Result<seq<(string, Value)>, Fault>
  {
    if |expression| < 4 || expression[..4] != "SET " then Failure(ValidationException)
    else ParseClauses(Split(expression[4..], ", "), names, values)
  }

  /**
    The item after applying SET assignments to the item under `key` (a new
    item holding only the key when there is none); the key attribute itself
    cannot be set.
   */
  function UpdatedItem(items: map<string, Item>, key: string, assignments: seq<(string, Value)>): (r: Result<Item, Fault>)
    ensures r.Failure? <==> "coach_id" in KeysOf(assignments)
    ensures r.Success? ==> KeyOf(r.value) == Some(key) || (key in items && KeyOf(items[key]) != Some(key))
    ensures r.Success? && key in items ==> r.value == Assign(items[key], assignments)
  {
    if "coach_id" in KeysOf(assignments) then Failure(ValidationException)
    else if key in items then Success(Assign(items[key], assignments))
    else Success(Assign(map["coach_id" := Str(key)], assignments))
  }

  /** The outcome of an update request that the store is able to answer. */
  function ApplyUpdate(items: map<string, Item>, key: string, expression: string,
                       names: map<string, string>, values: map<string, Value>): Result<Item, Fault>
  {
    match ParseSet(expression, names, values)
    case Failure(e) => Failure(e)
    case Success(assignments) => UpdatedItem(items, key, assignments)
  }

  /** The table: items keyed by `coach_id`. */
  class Table {
    var items: map<string, Item>

    ghost predicate Valid()
      reads this
    {
      ValidTable(items)
    }

    constructor (initial: map<string, Item>)
      requires ValidTable(initial)
      ensures Valid() && items == initial
    {
      items := initial;
    }

    /** A scan limited to one item: empty exactly when the table is. */
    method Probe(faults: set<StoreOp>) returns (r: Result<seq<Item>, Fault>)
      ensures ProbeScan in faults ==> r == Failure(StoreUnavailable(ProbeScan))
      ensures ProbeScan !in faults ==> r.Success?
      ensures r.Success? ==> |r.value| <= 1 && (r.value == [] <==> items == map[])
      ensures r.Success? ==> forall i :: 0 <= i < |r.value| ==> r.value[i] in items.Values
    {
      if ProbeScan in faults {
        return Failure(StoreUnavailable(ProbeScan));
      }
      if items == map[] {
        r := Success([]);
      } else {
        var k :| k in items;
        r := Success([items[k]]);
      }
    }

    /** A scan of the whole table, in the store's order. */
    method Scan(faults: set<StoreOp>) returns (r: Result<seq<Item>, Fault>)
      ensures FullScan in faults ==> r == Failure(StoreUnavailable(FullScan))
      ensures FullScan !in faults ==> r.Success? && Enumerates(r.value, items)
    {
      if FullScan in faults {
        return Failure(StoreUnavailable(FullScan));
      }
      var rs := EnumerateValues(items);
      r := Success(rs);
    }

    /** A query of the location index: the items whose location is exactly `loc`. */
    method QueryByLocation(loc: string, faults: set<StoreOp>) returns (r: Result<seq<Item>, Fault>)
      ensures LocationQuery in faults ==> r == Failure(StoreUnavailable(LocationQuery))
      ensures LocationQuery !in faults ==> r.Success? && Enumerates(r.value, AtLocation(items, loc))
    {
      if LocationQuery in faults {
        return Failure(StoreUnavailable(LocationQuery));
      }
      var rs := EnumerateValues(AtLocation(items, loc));
      r := Success(rs);
    }

    /** Read by key: the item, or None when there is none. */
    method Get(key: string, faults: set<StoreOp>) returns (r: Result<Option<Item>, Fault>)
      ensures GetItem in faults ==> r == Failure(StoreUnavailable(GetItem))
      ensures GetItem !in faults && key in items ==> r == Success(Some(items[key]))
      ensures GetItem !in faults && key !in items ==> r == Success(None)
    {
      if GetItem in faults {
        return Failure(StoreUnavailable(GetItem));
      }
      r := if key in items then Success(Some(items[key])) else Success(None);
    }

    /** Unconditional write under the item's own `coach_id`. */
    method Put(item: Item, faults: set<StoreOp>) returns (r: Result<(), Fault>)
      requires Valid()
      modifies this
      ensures Valid()
      ensures PutOutcome(old(items), item, faults).Success? ==>
                r == Success(()) && items == PutOutcome(old(items), item, faults).value
      ensures PutOutcome(old(items), item, faults).Failure? ==>
                r == Failure(PutOutcome(old(items), item, faults).error) && items == old(items)
    {
      var outcome := PutOutcome(items, item, faults);
      if outcome.Failure? {
        return Failure(outcome.error);
      }
      items := outcome.value;
      r := Success(());
    }

    /** Partial update of the item under `key`; answers the whole new item. */
    method Update(key: string, expression: string, names: map<string, string>, values: map<string, Value>,
                  faults: set<StoreOp>) returns (r: Result<Item, Fault>)
      requires Valid()
      requires key in items
      modifies this
      ensures Valid()
      ensures UpdateItem in faults ==> r == Failure(StoreUnavailable(UpdateItem)) && items == old(items)
      ensures UpdateItem !in faults ==> r == ApplyUpdate(old(items), key, expression, names, values)
      ensures items == if r.Success? then old(items)[key := r.value] else old(items)
    {
      if UpdateItem in faults {
        return Failure(StoreUnavailable(UpdateItem));
      }
      r := ApplyUpdate(items, key, expression, names, values);
      if r.Success? {
        items := items[key := r.value];
      }
    }

    /** Removal by key; answers the removed item, or None when there was none. */
    method Delete(key: string, faults: set<StoreOp>) returns (r: Result<Option<Item>, Fault>)
      requires Valid()
      modifies this
      ensures Valid()
      ensures DeleteItem in faults ==> r == Failure(StoreUnavailable(DeleteItem)) && items == old(items)
      ensures DeleteItem !in faults ==>
                r == Success(if key in old(items) then Some(old(items)[key]) else None)
                && items == old(items) - {key}
    {
      if DeleteItem in faults {
        return Failure(StoreUnavailable(DeleteItem));
      }
      r := if key in items then Success(Some(items[key])) else Success(None);
      items := items - {key};
    }
  }
}
