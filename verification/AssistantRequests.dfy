/** A message request to the assistant, and the canonical form that decides whether two are the same. */
module AssistantRequests {
  import opened Options
  import opened Text

  /** Identifiers are naturals in the order of their text; times are nanoseconds since 1970 in UTC. */
  datatype Input = Input(
    user: nat, company: nat, chat: nat, text: string, clientMessageId: string, idempotencyKey: string,
    responseDetail: string, calls: seq<nat>, departments: seq<nat>, folders: seq<nat>,
    labels: Option<seq<string>>, from: Option<int>, to: Option<int>)

  /** The labels of a request; none when they are absent. */
  function Labels(input: Input): seq<string> {
    if input.labels.Some? then input.labels.value else []
  }

  function Elements(ids: seq<nat>): set<nat> {
    set id | id in ids
  }

  predicate Increasing(ids: seq<nat>) {
    forall j, k :: 0 <= j < k < |ids| ==> ids[j] < ids[k]
  }

  predicate Ordered(ids: seq<nat>) {
    forall j, k :: 0 <= j < k < |ids| ==> ids[j] <= ids[k]
  }

  /** sort.Slice over the identifiers. */
  function Insert(id: nat, ids: seq<nat>): seq<nat> {
    if ids == [] then [id] else if id <= ids[0] then [id] + ids else [ids[0]] + Insert(id, ids[1..])
  }

  function Sort(ids: seq<nat>): seq<nat> {
    if ids == [] then [] else Insert(ids[0], Sort(ids[1..]))
  }

  lemma ElementsSplit(id: nat, ids: seq<nat>)
    ensures Elements([id] + ids) == {id} + Elements(ids)
  {}

  lemma HeadLeast(ids: seq<nat>, x: nat)
    requires Ordered(ids) && ids != [] && x in Elements(ids[1..])
    ensures ids[0] <= x
  {}

  lemma OrderedMore(head: nat, rest: seq<nat>)
    requires Ordered(rest) && forall x :: x in Elements(rest) ==> head <= x
    ensures Ordered([head] + rest)
  {
    assert forall k :: 0 <= k < |rest| ==> rest[k] in Elements(rest);
  }

  lemma {:induction false} InsertOrders(id: nat, ids: seq<nat>)
    requires Ordered(ids)
    ensures Ordered(Insert(id, ids)) && Elements(Insert(id, ids)) == {id} + Elements(ids)
  {
    if ids == [] {
      ElementsSplit(id, ids);
    } else if id <= ids[0] {
      ElementsSplit(id, ids);
      assert forall x :: x in Elements(ids) ==> id <= x;
      OrderedMore(id, ids);
    } else {
      var rest := Insert(id, ids[1..]);
      InsertOrders(id, ids[1..]);
      forall x | x in Elements(rest) ensures ids[0] <= x { if x != id { HeadLeast(ids, x); } }
      OrderedMore(ids[0], rest);
      ElementsSplit(ids[0], rest);
      ElementsSplit(ids[0], ids[1..]);
      assert ids == [ids[0]] + ids[1..];
    }
  }

  lemma {:induction false} SortOrders(ids: seq<nat>)
    ensures Ordered(Sort(ids)) && Elements(Sort(ids)) == Elements(ids)
  {
    if ids != [] {
      SortOrders(ids[1..]);
      InsertOrders(ids[0], Sort(ids[1..]));
      ElementsSplit(ids[0], ids[1..]);
      assert ids == [ids[0]] + ids[1..];
    }
  }

  function Compact(ids: seq<nat>): seq<nat> {
    if ids == [] then []
    else
      var rest := Compact(ids[..|ids| - 1]);
      if rest != [] && rest[|rest| - 1] == ids[|ids| - 1] then rest else rest + [ids[|ids| - 1]]
  }

  lemma CompactStep(ids: seq<nat>, i: nat, kept: seq<nat>)
    requires i < |ids| && kept == Compact(ids[..i])
    ensures Compact(ids[..i + 1]) ==
            if kept == [] || kept[|kept| - 1] != ids[i] then kept + [ids[i]] else kept
  {
    assert ids[..i + 1][..i] == ids[..i];
  }

  function Canonical(ids: seq<nat>): seq<nat> {
    Compact(Sort(ids))
  }

  /** Keeps the first of each run of equals, moved to the front of the same array. */
  method CompactInPlace(result: array<nat>) returns (n: nat)
    modifies result
    ensures n <= result.Length && result[..n] == Compact(old(result[..]))
  {
    ghost var was := result[..];
    n := 0;
    for i := 0 to result.Length
      invariant 0 <= n <= i && result[..n] == Compact(was[..i])
      invariant forall k :: i <= k < result.Length ==> result[k] == was[k]
    {
      CompactStep(was, i, result[..n]);
      if n == 0 || result[n - 1] != result[i] {
        result[n] := result[i];
        n := n + 1;
      }
    }
    assert was[..result.Length] == was;
  }

  /** Sorts a copy and compacts it over itself. */
  method CanonicalIDs(ids: seq<nat>) returns (out: seq<nat>)
    ensures out == Canonical(ids)
  {
    var sorted := Sort(ids);
    var result := new nat[|sorted|](i requires 0 <= i < |sorted| => sorted[i]);
    assert result[..] == sorted;
    var n := CompactInPlace(result);
    out := result[..n];
  }

  predicate EndsAlike(a: seq<nat>, b: seq<nat>) {
    a != [] && b != [] && a[|a| - 1] == b[|b| - 1]
  }

  lemma {:induction false} CompactIncreases(ids: seq<nat>)
    requires Ordered(ids)
    ensures Increasing(Compact(ids)) && Elements(Compact(ids)) == Elements(ids)
    ensures ids != [] ==> EndsAlike(Compact(ids), ids)
  {
    if ids != [] {
      var front, last := ids[..|ids| - 1], ids[|ids| - 1];
      CompactIncreases(front);
      ElementsMore(front, last);
      assert ids == front + [last];
      if front == [] || front[|front| - 1] < last {
        IncreasingMore(Compact(front), last);
        ElementsMore(Compact(front), last);
      } else {
        assert last in Elements(front);
      }
    }
  }

  lemma ElementsMore(ids: seq<nat>, last: nat)
    ensures Elements(ids + [last]) == Elements(ids) + {last}
  {}

  lemma IncreasingMore(ids: seq<nat>, last: nat)
    requires Increasing(ids) && (ids == [] || ids[|ids| - 1] < last)
    ensures Increasing(ids + [last])
  {}

  lemma CanonicalIncreases(ids: seq<nat>)
    ensures Increasing(Canonical(ids)) && Elements(Canonical(ids)) == Elements(ids)
  {
    SortOrders(ids);
    CompactIncreases(Sort(ids));
  }

  /** A set of identifiers has one increasing order. */
  lemma {:induction false} IncreasingIsUnique(a: seq<nat>, b: seq<nat>)
    requires Increasing(a) && Increasing(b) && Elements(a) == Elements(b)
    ensures a == b
  {
    assert a != [] ==> a[0] in Elements(b);
    assert b != [] ==> b[0] in Elements(a);
    if a != [] {
      var x, y := a[|a| - 1], b[|b| - 1];
      assert x in Elements(a) && y in Elements(b);
      var a', b' := a[..|a| - 1], b[..|b| - 1];
      assert x == y;
      forall z ensures z in Elements(a') <==> z in Elements(b') {
        assert z in Elements(a) <==> z in Elements(a') || z == x;
        assert z in Elements(b) <==> z in Elements(b') || z == x;
      }
      IncreasingIsUnique(a', b');
      assert a == a' + [x] && b == b' + [x];
    }
  }

  /** Two lists have the same canonical form exactly when they hold the same identifiers. */
  lemma CanonicalDecides(a: seq<nat>, b: seq<nat>)
    ensures Canonical(a) == Canonical(b) <==> Elements(a) == Elements(b)
  {
    CanonicalIncreases(a);
    CanonicalIncreases(b);
    if Elements(a) == Elements(b) { IncreasingIsUnique(Canonical(a), Canonical(b)); }
  }

  // ----- the hash of a request -----

  const YEAR_0 := -62_167_219_200_000_000_000
  const YEAR_10000 := 253_402_300_800_000_000_000

  predicate TimeFits(time: Option<int>) {
    time.Some? ==> YEAR_0 <= time.value < YEAR_10000
  }

  /** Both times lie in the years 0 to 9999 of UTC; JSON has no others. */
  predicate Marshals(input: Input) {
    TimeFits(input.from) && TimeFits(input.to)
  }

  /** What is hashed, in place of its hash: the hash is taken to tell its inputs apart. */
  datatype Hash = HashOf(request: Input) | HashOfNothing

  /** The error of marshalling is dropped, and then nothing is hashed. */
  function RequestHash(input: Input): Hash {
    if !Marshals(input) then HashOfNothing
    else
      HashOf(input.(
             idempotencyKey := "", text := Trim(input.text), calls := Canonical(input.calls),
             departments := Canonical(input.departments), folders := Canonical(input.folders)))
  }

  /** The requests agree on everything but the key, the space around the text, and the order and
      repetition of identifiers; absent labels are no labels. */
  predicate SameRequest(a: Input, b: Input) {
    && a.user == b.user && a.company == b.company && a.chat == b.chat
    && Trim(a.text) == Trim(b.text) && a.clientMessageId == b.clientMessageId
    && a.responseDetail == b.responseDetail && Labels(a) == Labels(b) && a.from == b.from && a.to == b.to
    && Elements(a.calls) == Elements(b.calls) && Elements(a.departments) == Elements(b.departments)
    && Elements(a.folders) == Elements(b.folders)
  }

  /** Both requests have labels, or neither has. */
  predicate LabelsGivenAlike(a: Input, b: Input) {
    a.labels.None? <==> b.labels.None?
  }

  /** Requests hash alike if they are the same and give their labels alike, or if neither marshals. */
  predicate PassAsSame(a: Input, b: Input) {
    (SameRequest(a, b) && LabelsGivenAlike(a, b)) || (!Marshals(a) && !Marshals(b))
  }

  lemma HashDecides(a: Input, b: Input)
    ensures RequestHash(a) == RequestHash(b) <==> PassAsSame(a, b)
  {
    CanonicalDecides(a.calls, b.calls);
    CanonicalDecides(a.departments, b.departments);
    CanonicalDecides(a.folders, b.folders);
  }

  /** When comparing hashes is comparing requests. */
  lemma HashTellsExactly(a: Input, b: Input)
    ensures (RequestHash(a) == RequestHash(b) <==> SameRequest(a, b)) <==>
            if SameRequest(a, b) then LabelsGivenAlike(a, b) || !Marshals(a) else Marshals(a) || Marshals(b)
  {
    HashDecides(a, b);
  }

  /** 9999-12-31T23:30:00-01:00, which is in the year 10000 of UTC. */
  const LATE := YEAR_10000 + 1_800_000_000_000

  /** Requests over different calls hash alike, however little else they differ. */
  lemma LateHashesAlike(input: Input)
    requires input.from == Some(LATE)
    ensures var a, b := input.(calls := [0]), input.(calls := [1]);
            RequestHash(a) == RequestHash(b) && !SameRequest(a, b)
  {
    assert 0 in Elements([0]) && 0 !in Elements([1]);
  }

  /** A request without labels and the same one with an empty list of them hash apart. */
  lemma EmptyLabelsHashApart(input: Input)
    requires Marshals(input)
    ensures var a, b := input.(labels := None), input.(labels := Some([]));
            SameRequest(a, b) && RequestHash(a) != RequestHash(b)
  {}
}
