/** The generated search filter: numbered placeholders, their arguments, and what the predicate means to
    a three-valued SQL. The text of the query is left as a tree. */
module FilterSql {
  import opened Text
  import opened Options

  datatype Value =
    | Id(id: nat) | Time(at: int) | Words(words: string) | Number(number: real) | Vector(components: seq<real>)

  datatype Truth = True | False | Unknown

  /** Each conjunct names its arguments by number, from one. */
  datatype Conjunct =
    | CallIn(ids: seq<nat>)
    | DepartmentIn(ids: seq<nat>)
    | FolderIn(ids: seq<nat>)
    | CreatedFrom(at: nat)
    | CreatedBefore(at: nat)

  /** A call as the filter sees it. */
  datatype Row = Row(call: nat, department: Option<nat>, folders: set<nat>, createdAt: int)

  datatype Filter = Filter(
    calls: seq<nat>, departments: seq<nat>, folders: seq<nat>, from: Option<int>, to: Option<int>)

  // ----- evaluation -----

  predicate HoldsArgument(args: seq<Value>, placeholder: nat, value: Value) {
    1 <= placeholder <= |args| && args[placeholder - 1] == value
  }

  /** x IN ($i, $j, …) for an x that is not null. */
  function AmongArguments(args: seq<Value>, ids: seq<nat>, value: Value): Truth {
    if exists k :: 0 <= k < |ids| && HoldsArgument(args, ids[k], value) then True else False
  }

  predicate AnyFolder(args: seq<Value>, ids: seq<nat>, folders: set<nat>) {
    exists f :: f in folders && AmongArguments(args, ids, Id(f)).True?
  }

  function Compare(args: seq<Value>, placeholder: nat, holds: int -> bool): Truth {
    if 1 <= placeholder <= |args| && args[placeholder - 1].Time?
    then if holds(args[placeholder - 1].at) then True else False
    else Unknown
  }

  /** NULL is in no list, and not out of it either. */
  function Eval(c: Conjunct, args: seq<Value>, row: Row): Truth {
    match c
    case CallIn(ids) => AmongArguments(args, ids, Id(row.call))
    case DepartmentIn(ids) =>
      if row.department.None? then Unknown else AmongArguments(args, ids, Id(row.department.value))
    case FolderIn(ids) => if AnyFolder(args, ids, row.folders) then True else False
    case CreatedFrom(p) => Compare(args, p, at => row.createdAt >= at)
    case CreatedBefore(p) => Compare(args, p, at => row.createdAt < at)
  }

  function And(a: Truth, b: Truth): Truth {
    if a.False? || b.False? then False else if a.Unknown? || b.Unknown? then Unknown else True
  }

  function Conjunction(parts: seq<Conjunct>, args: seq<Value>, row: Row): Truth {
    if parts == [] then True else And(Eval(parts[0], args, row), Conjunction(parts[1..], args, row))
  }

  /** WHERE keeps a row only when its condition is true. */
  predicate Keeps(parts: seq<Conjunct>, args: seq<Value>, row: Row) {
    Conjunction(parts, args, row).True?
  }

  function Placeholders(parts: seq<Conjunct>): seq<nat> {
    if parts == [] then []
    else
      (match parts[0]
       case CallIn(ids) => ids
       case DepartmentIn(ids) => ids
       case FolderIn(ids) => ids
       case CreatedFrom(p) => [p]
       case CreatedBefore(p) => [p])
      + Placeholders(parts[1..])
  }

  // ----- the direct meaning -----

  predicate Accepts(filter: Filter, row: Row) {
    && (filter.calls == [] || row.call in filter.calls)
    && (filter.departments == [] || (row.department.Some? && row.department.value in filter.departments))
    && (filter.folders == [] || exists f :: f in filter.folders && f in row.folders)
    && (filter.from.Some? ==> filter.from.value <= row.createdAt)
    && (filter.to.Some? ==> row.createdAt < filter.to.value)
  }

  // ----- generation -----

  datatype Kind = Call | Department | Folder

  function IdConjunct(kind: Kind, places: seq<nat>): Conjunct {
    match kind
    case Call => CallIn(places)
    case Department => DepartmentIn(places)
    case Folder => FolderIn(places)
  }

  function Ids(ids: seq<nat>): seq<Value> {
    seq(|ids|, k requires 0 <= k < |ids| => Id(ids[k]))
  }

  function Range(start: nat, n: nat): seq<nat> {
    seq(n, k => start + k)
  }

  /** The conjuncts and the arguments so far. */
  datatype Clause = Clause(parts: seq<Conjunct>, args: seq<Value>)

  function AddIds(c: Clause, start: nat, kind: Kind, ids: seq<nat>): Clause {
    if ids == [] then c
    else Clause(c.parts + [IdConjunct(kind, Range(start + |c.args|, |ids|))], c.args + Ids(ids))
  }

  function AddFrom(c: Clause, start: nat, from: Option<int>): Clause {
    if from.None? then c else Clause(c.parts + [CreatedFrom(start + |c.args|)], c.args + [Time(from.value)])
  }

  function AddTo(c: Clause, start: nat, to: Option<int>): Clause {
    if to.None? then c else Clause(c.parts + [CreatedBefore(start + |c.args|)], c.args + [Time(to.value)])
  }

  function Generated(filter: Filter, start: nat): Clause {
    var calls := AddIds(Clause([], []), start, Call, filter.calls);
    var departments := AddIds(calls, start, Department, filter.departments);
    var folders := AddIds(departments, start, Folder, filter.folders);
    AddTo(AddFrom(folders, start, filter.from), start, filter.to)
  }

  /** Appends the identifiers to the arguments, and says where they went. */
  method AddAll(ids: seq<nat>, start: nat, args: seq<Value>) returns (places: seq<nat>, more: seq<Value>)
    ensures places == Range(start + |args|, |ids|) && more == args + Ids(ids)
  {
    places, more := [], args;
    for k := 0 to |ids|
      invariant more == args + Ids(ids[..k]) && places == Range(start + |args|, k)
    {
      more := more + [Id(ids[k])];
      places := places + [start + |more| - 1];
      assert Ids(ids[..k + 1]) == Ids(ids[..k]) + [Id(ids[k])];
    }
    assert ids[..|ids|] == ids;
  }

  method AddList(parts: seq<Conjunct>, args: seq<Value>, start: nat, kind: Kind, ids: seq<nat>)
    returns (parts': seq<Conjunct>, args': seq<Value>)
    ensures Clause(parts', args') == AddIds(Clause(parts, args), start, kind, ids)
  {
    parts', args' := parts, args;
    if |ids| > 0 {
      var places: seq<nat>;
      places, args' := AddAll(ids, start, args);
      parts' := parts + [IdConjunct(kind, places)];
    }
  }

  method FilterSQL(filter: Filter, start: nat) returns (parts: seq<Conjunct>, args: seq<Value>)
    ensures Clause(parts, args) == Generated(filter, start)
  {
    parts, args := AddList([], [], start, Call, filter.calls);
    parts, args := AddList(parts, args, start, Department, filter.departments);
    parts, args := AddList(parts, args, start, Folder, filter.folders);
    if filter.from.Some? {
      args := args + [Time(filter.from.value)];
      parts := parts + [CreatedFrom(start + |args| - 1)];
    }
    if filter.to.Some? {
      args := args + [Time(filter.to.value)];
      parts := parts + [CreatedBefore(start + |args| - 1)];
    }
  }

  // ----- the meaning is kept -----

  /** Numbered from start, between any other arguments, the clause keeps the row exactly if it is wanted,
      and uses the numbers from start on, each in the order of its argument. */
  ghost predicate Means(c: Clause, start: nat, row: Row, wanted: bool) {
    && (forall before: seq<Value>, after: seq<Value> :: |before| + 1 == start ==>
          (Keeps(c.parts, before + c.args + after, row) <==> wanted))
    && Placeholders(c.parts) == Range(start, |c.args|)
  }

  lemma {:induction false} ConjunctionMore(parts: seq<Conjunct>, c: Conjunct, args: seq<Value>, row: Row)
    ensures Keeps(parts + [c], args, row) <==> Keeps(parts, args, row) && Eval(c, args, row).True?
  {
    if parts == [] {
      assert parts + [c] == [c];
      assert Conjunction([c][1..], args, row) == True;
    } else {
      assert (parts + [c])[0] == parts[0] && (parts + [c])[1..] == parts[1..] + [c];
      ConjunctionMore(parts[1..], c, args, row);
    }
  }

  lemma {:induction false} PlaceholdersMore(parts: seq<Conjunct>, c: Conjunct)
    ensures Placeholders(parts + [c]) == Placeholders(parts) + Placeholders([c])
  {
    if parts == [] {
      assert parts + [c] == [c];
    } else {
      assert (parts + [c])[0] == parts[0] && (parts + [c])[1..] == parts[1..] + [c];
      PlaceholdersMore(parts[1..], c);
    }
  }

  /** A conjunct whose own arguments start at start holds exactly if it is wanted. */
  ghost predicate ConjunctMeans(c: Conjunct, args: seq<Value>, start: nat, row: Row, wanted: bool) {
    && (forall before: seq<Value>, after: seq<Value> :: |before| + 1 == start ==>
          (Eval(c, before + args + after, row).True? <==> wanted))
    && Placeholders([c]) == Range(start, |args|)
  }

  lemma MeansMore(c: Clause, start: nat, row: Row, wanted: bool, part: Conjunct, args: seq<Value>, more: bool)
    requires Means(c, start, row, wanted) && ConjunctMeans(part, args, start + |c.args|, row, more)
    ensures Means(Clause(c.parts + [part], c.args + args), start, row, wanted && more)
  {
    forall before: seq<Value>, after: seq<Value> | |before| + 1 == start
      ensures Keeps(c.parts + [part], before + (c.args + args) + after, row) <==> wanted && more
    {
      var all := before + (c.args + args) + after;
      assert all == before + c.args + (args + after) && all == (before + c.args) + args + after;
      ConjunctionMore(c.parts, part, all, row);
    }
    PlaceholdersMore(c.parts, part);
    assert Range(start, |c.args|) + Range(start + |c.args|, |args|) == Range(start, |c.args + args|);
  }

  lemma AmongIds(ids: seq<nat>, start: nat, before: seq<Value>, after: seq<Value>, id: nat)
    requires |before| + 1 == start
    ensures AmongArguments(before + Ids(ids) + after, Range(start, |ids|), Id(id)).True? <==> id in ids
  {
    var all, places := before + Ids(ids) + after, Range(start, |ids|);
    assert forall k :: 0 <= k < |ids| ==> places[k] == start + k && all[places[k] - 1] == Id(ids[k]);
    if id in ids {
      var k :| 0 <= k < |ids| && ids[k] == id;
      assert HoldsArgument(all, places[k], Id(id));
    }
  }

  predicate IdsAccept(kind: Kind, ids: seq<nat>, row: Row) {
    match kind
    case Call => row.call in ids
    case Department => row.department.Some? && row.department.value in ids
    case Folder => exists f :: f in ids && f in row.folders
  }

  lemma IdsMean(kind: Kind, ids: seq<nat>, start: nat, row: Row)
    ensures ConjunctMeans(IdConjunct(kind, Range(start, |ids|)), Ids(ids), start, row, IdsAccept(kind, ids, row))
  {
    var part, args := IdConjunct(kind, Range(start, |ids|)), Ids(ids);
    forall before: seq<Value>, after: seq<Value> | |before| + 1 == start
      ensures Eval(part, before + args + after, row).True? <==> IdsAccept(kind, ids, row)
    {
      forall id ensures AmongArguments(before + args + after, Range(start, |ids|), Id(id)).True? <==> id in ids {
        AmongIds(ids, start, before, after, id);
      }
    }
    assert Placeholders([part][1..]) == [];
  }

  lemma FromMeans(from: int, start: nat, row: Row)
    ensures ConjunctMeans(CreatedFrom(start), [Time(from)], start, row, from <= row.createdAt)
  {
    assert Placeholders([CreatedFrom(start)][1..]) == [];
  }

  lemma ToMeans(to: int, start: nat, row: Row)
    ensures ConjunctMeans(CreatedBefore(start), [Time(to)], start, row, row.createdAt < to)
  {
    assert Placeholders([CreatedBefore(start)][1..]) == [];
  }

  lemma AddIdsMeans(c: Clause, start: nat, kind: Kind, ids: seq<nat>, row: Row, wanted: bool)
    requires Means(c, start, row, wanted)
    ensures Means(AddIds(c, start, kind, ids), start, row, wanted && (ids == [] || IdsAccept(kind, ids, row)))
  {
    if ids != [] {
      var place := start + |c.args|;
      IdsMean(kind, ids, place, row);
      MeansMore(c, start, row, wanted, IdConjunct(kind, Range(place, |ids|)), Ids(ids), IdsAccept(kind, ids, row));
    }
  }

  lemma AddFromMeans(c: Clause, start: nat, from: Option<int>, row: Row, wanted: bool)
    requires Means(c, start, row, wanted)
    ensures Means(AddFrom(c, start, from), start, row, wanted && (from.Some? ==> from.value <= row.createdAt))
  {
    if from.Some? {
      FromMeans(from.value, start + |c.args|, row);
      MeansMore(c, start, row, wanted, CreatedFrom(start + |c.args|), [Time(from.value)], from.value <= row.createdAt);
    }
  }

  lemma AddToMeans(c: Clause, start: nat, to: Option<int>, row: Row, wanted: bool)
    requires Means(c, start, row, wanted)
    ensures Means(AddTo(c, start, to), start, row, wanted && (to.Some? ==> row.createdAt < to.value))
  {
    if to.Some? {
      ToMeans(to.value, start + |c.args|, row);
      MeansMore(c, start, row, wanted, CreatedBefore(start + |c.args|), [Time(to.value)], row.createdAt < to.value);
    }
  }

  /** Among any other arguments, the generated condition keeps exactly the rows that the filter accepts,
      and its placeholders are start, start + 1, … in the order of its arguments. */
  lemma FilterMeans(filter: Filter, start: nat, row: Row, c: Clause)
    requires c == Generated(filter, start)
    ensures Means(c, start, row, Accepts(filter, row))
  {
    var none := Clause([], []);
    assert Means(none, start, row, true);
    AddIdsMeans(none, start, Call, filter.calls, row, true);
    var calls := AddIds(none, start, Call, filter.calls);
    var w1 := filter.calls == [] || IdsAccept(Call, filter.calls, row);
    AddIdsMeans(calls, start, Department, filter.departments, row, w1);
    var departments := AddIds(calls, start, Department, filter.departments);
    var w2 := w1 && (filter.departments == [] || IdsAccept(Department, filter.departments, row));
    AddIdsMeans(departments, start, Folder, filter.folders, row, w2);
    var folders := AddIds(departments, start, Folder, filter.folders);
    var w3 := w2 && (filter.folders == [] || IdsAccept(Folder, filter.folders, row));
    AddFromMeans(folders, start, filter.from, row, w3);
    AddToMeans(
      AddFrom(folders, start, filter.from), start, filter.to, row,
      w3 && (filter.from.Some? ==> filter.from.value <= row.createdAt));
  }

  // ----- the queries around it -----

  /** Where the query names the vector and the threshold of a semantic search. */
  datatype Query = Query(parts: seq<Conjunct>, args: seq<Value>, vectorAt: Option<nat>, thresholdAt: Option<nat>)

  const THRESHOLD := 0.35

  predicate Names(q: Query, place: Option<nat>, value: Value) {
    place.Some? && HoldsArgument(q.args, place.value, value)
  }

  function PlaceList(place: Option<nat>): seq<nat> {
    if place.Some? then [place.value] else []
  }

  /** The query keeps the rows that the filter accepts, and its placeholders, the fixed ones first, are
      1, 2, … in the order of the arguments, none left over. */
  ghost predicate Faithful(q: Query, fixed: nat, filter: Filter) {
    && (forall row :: Keeps(q.parts, q.args, row) <==> Accepts(filter, row))
    && Range(1, fixed) + Placeholders(q.parts) + PlaceList(q.vectorAt) + PlaceList(q.thresholdAt) == Range(1, |q.args|)
  }

  lemma GeneratedAmong(filter: Filter, before: seq<Value>, after: seq<Value>)
    ensures var c, start := Generated(filter, |before| + 1), |before| + 1;
            && (forall row :: Keeps(c.parts, before + c.args + after, row) <==> Accepts(filter, row))
            && Placeholders(c.parts) == Range(start, |c.args|)
  {
    var start := |before| + 1;
    var c := Generated(filter, start);
    forall row ensures Keeps(c.parts, before + c.args + after, row) <==> Accepts(filter, row) {
      FilterMeans(filter, start, row, c);
    }
    FilterMeans(filter, start, Row(0, None, {}, 0), c);
  }

  lemma PlacesJoin(fixed: nat, own: seq<nat>, rest: seq<nat>)
    requires own == Range(1 + fixed, |own|) && rest == Range(1 + fixed + |own|, |rest|)
    ensures Range(1, fixed) + own + rest == Range(1, fixed + |own| + |rest|)
  {}

  /** The hybrid or lexical search over the chunks. */
  method ContentQuery(user: nat, company: nat, text: string, limit: nat, filter: Filter, vector: Option<seq<real>>)
    returns (q: Query)
    ensures Faithful(q, 4, filter)
    ensures q.args[..4] == [Id(user), Id(company), Words(text), Number(limit as real)]
    ensures if vector.Some?
            then Names(q, q.vectorAt, Vector(vector.value)) && Names(q, q.thresholdAt, Number(THRESHOLD))
            else q.vectorAt == q.thresholdAt == None
  {
    var args := [Id(user), Id(company), Words(text), Number(limit as real)];
    ghost var fixed := args;
    var parts, extra := FilterSQL(filter, 5);
    args := args + extra;
    var vectorAt, thresholdAt := None, None;
    if vector.Some? {
      args := args + [Vector(vector.value)];
      vectorAt := Some(|args|);
    }
    if vector.Some? {
      args := args + [Number(THRESHOLD)];
      thresholdAt := Some(|args|);
    }
    q := Query(parts, args, vectorAt, thresholdAt);
    ghost var after := args[4 + |extra|..];
    assert args == fixed + extra + after;
    GeneratedAmong(filter, fixed, after);
    PlacesJoin(4, Placeholders(parts), PlaceList(vectorAt) + PlaceList(thresholdAt));
    Associate(Range(1, 4) + Placeholders(parts), PlaceList(vectorAt), PlaceList(thresholdAt));
  }

  /** The count of the calls in scope, and the full content of the selected calls. */
  method ScopeQuery(user: nat, company: nat, filter: Filter) returns (q: Query)
    ensures Faithful(q, 2, filter) && q.args[..2] == [Id(user), Id(company)]
  {
    var args := [Id(user), Id(company)];
    var parts, extra := FilterSQL(filter, 3);
    q := Query(parts, args + extra, None, None);
    assert args + extra == args + extra + [];
    GeneratedAmong(filter, args, []);
    PlacesJoin(2, Placeholders(parts), []);
  }
}
