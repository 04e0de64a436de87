/** Putting the vectors of an embedding answer where their items say they belong. */
module Embedding {

  datatype Component = Finite(value: real) | NotFinite

  type Vector = seq<Component>

  datatype Item = Item(index: int, vector: Vector)

  datatype Error = UnexpectedCount | InvalidVector | NonfiniteVector | ZeroVector

  datatype Result = Ok(vectors: seq<Vector>) | Err(error: Error)

  function Times(a: real, b: real): (p: real)
    ensures (a > 0.0 && b > 0.0) || (a < 0.0 && b < 0.0) ==> p > 0.0
    ensures a == 0.0 ==> p == 0.0
  {
    a * b
  }

  /** The sum of the squares, as far as the components are finite. */
  function Norm(v: Vector): real {
    if v == [] then 0.0
    else Norm(v[..|v| - 1]) + if v[|v| - 1].Finite? then Times(v[|v| - 1].value, v[|v| - 1].value) else 0.0
  }

  /** Of finite components, only zeros have no norm. */
  lemma {:induction false} NormIsZero(v: Vector)
    requires !AnyNotFinite(v)
    ensures if IsZero(v) then Norm(v) == 0.0 else Norm(v) > 0.0
  {
    if v != [] {
      var front, last := v[..|v| - 1], v[|v| - 1];
      assert last.Finite?;
      NormIsZero(front);
      assert IsZero(v) <==> IsZero(front) && last.value == 0.0 by { assert v == front + [last]; }
      Adds(Norm(front), Times(last.value, last.value), Norm(v));
    }
  }

  lemma Adds(a: real, b: real, sum: real)
    requires a >= 0.0 && b >= 0.0 && sum == a + b
    ensures sum >= 0.0 && (sum == 0.0 <==> a == 0.0 && b == 0.0)
  {}

  predicate AnyNotFinite(v: Vector) {
    exists k :: 0 <= k < |v| && v[k].NotFinite?
  }

  predicate IsZero(v: Vector) {
    forall k :: 0 <= k < |v| ==> v[k] == Finite(0.0)
  }

  predicate IsNamed(data: seq<Item>, n: nat, i: int)
    requires n <= |data|
  {
    exists j :: 0 <= j < n && data[j].index == i
  }

  /** What is wrong with item k, given the ones before it. */
  predicate IsFault(data: seq<Item>, k: nat, count: nat, dimensions: nat, error: Error)
    requires k < |data|
  {
    var item := data[k];
    match error
    case InvalidVector => !(0 <= item.index < count) || |item.vector| != dimensions || IsNamed(data, k, item.index)
    case NonfiniteVector =>
      && 0 <= item.index < count && |item.vector| == dimensions && !IsNamed(data, k, item.index)
      && AnyNotFinite(item.vector)
    case ZeroVector =>
      0 <= item.index < count && |item.vector| == dimensions && !IsNamed(data, k, item.index) && IsZero(item.vector)
    case UnexpectedCount => false
  }

  predicate IsFaulty(data: seq<Item>, k: nat, count: nat, dimensions: nat)
    requires k < |data|
  {
    || IsFault(data, k, count, dimensions, InvalidVector)
    || IsFault(data, k, count, dimensions, NonfiniteVector)
    || IsFault(data, k, count, dimensions, ZeroVector)
  }

  /** The result for the first n items, one slot for each input. */
  ghost predicate Scattered(data: seq<Item>, n: nat, vectors: seq<Vector>)
    requires n <= |data|
  {
    && (forall k :: 0 <= k < n ==> 0 <= data[k].index < |vectors| && vectors[data[k].index] == data[k].vector)
    && forall i, j :: 0 <= i < j < n ==> data[i].index != data[j].index
  }

  /** Every slot holds the vector of the one item that named it. */
  ghost predicate FilledByNames(data: seq<Item>, vectors: seq<Vector>) {
    forall i :: 0 <= i < |vectors| ==> IsFilled(data, vectors, i)
  }

  ghost predicate IsFilled(data: seq<Item>, vectors: seq<Vector>, i: nat)
    requires i < |vectors|
  {
    exists k :: IsNamer(data, vectors, i, k)
  }

  ghost predicate IsNamer(data: seq<Item>, vectors: seq<Vector>, i: nat, k: nat)
    requires i < |vectors|
  {
    && k < |data| && data[k].index == i && vectors[i] == data[k].vector
    && forall j :: 0 <= j < |data| && data[j].index == i ==> j == k
  }

  datatype Check = Good | Bad(error: Error)

  /** A vector must be finite, and not zero. */
  method CheckVector(v: Vector) returns (c: Check)
    ensures c == if AnyNotFinite(v) then Bad(NonfiniteVector) else if IsZero(v) then Bad(ZeroVector) else Good
  {
    var norm := 0.0;
    for k := 0 to |v|
      invariant !AnyNotFinite(v[..k]) && norm == Norm(v[..k])
    {
      if v[k].NotFinite? { return Bad(NonfiniteVector); }
      assert v[..k + 1][..k] == v[..k];
      norm := norm + Times(v[k].value, v[k].value);
    }
    assert v[..|v|] == v;
    NormIsZero(v);
    return if norm == 0.0 then Bad(ZeroVector) else Good;
  }

  lemma OneMoreNamed(data: seq<Item>, n: nat, i: int)
    requires n < |data|
    ensures IsNamed(data, n + 1, i) <==> IsNamed(data, n, i) || i == data[n].index
  {
    if i == data[n].index { assert data[n].index == i; }
  }

  lemma AllNamed(data: seq<Item>, n: nat)
    requires n < |data|
    ensures forall i :: IsNamed(data, n + 1, i) <==> IsNamed(data, n, i) || i == data[n].index
  {
    forall i ensures IsNamed(data, n + 1, i) <==> IsNamed(data, n, i) || i == data[n].index {
      OneMoreNamed(data, n, i);
    }
  }

  lemma OneMoreScattered(data: seq<Item>, n: nat, vectors: seq<Vector>)
    requires n < |data| && Scattered(data, n, vectors) && 0 <= data[n].index < |vectors|
    requires !IsNamed(data, n, data[n].index)
    ensures Scattered(data, n + 1, vectors[data[n].index := data[n].vector])
  {}

  ghost predicate NoneFaulty(data: seq<Item>, n: nat, count: nat, dimensions: nat)
    requires n <= |data|
  {
    forall k :: 0 <= k < n ==> !IsFaulty(data, k, count, dimensions)
  }

  ghost predicate FirstFault(data: seq<Item>, k: nat, count: nat, dimensions: nat, error: Error) {
    k < |data| && NoneFaulty(data, k, count, dimensions) && IsFault(data, k, count, dimensions, error)
  }

  /** What may come of an answer: the vectors where they belong, or the error of the first faulty item. */
  ghost predicate IsOutcome(data: seq<Item>, count: nat, dimensions: nat, r: Result) {
    if |data| != count then r == Err(UnexpectedCount)
    else match r
         case Ok(vectors) =>
           NoneFaulty(data, count, count, dimensions) && |vectors| == count && FilledByNames(data, vectors)
         case Err(error) => exists k :: FirstFault(data, k, count, dimensions, error)
  }

  lemma FirstFaultIsOutcome(data: seq<Item>, n: nat, count: nat, dimensions: nat, error: Error)
    requires |data| == count && n < count && NoneFaulty(data, n, count, dimensions)
    requires IsFault(data, n, count, dimensions, error)
    ensures IsOutcome(data, count, dimensions, Err(error))
  {
    assert FirstFault(data, n, count, dimensions, error);
  }

  lemma OneMoreFaultless(data: seq<Item>, n: nat, count: nat, dimensions: nat)
    requires n < |data| && NoneFaulty(data, n, count, dimensions) && !IsFaulty(data, n, count, dimensions)
    ensures NoneFaulty(data, n + 1, count, dimensions)
  {}

  /** Puts every vector into the slot its item names, from only: as many items as inputs, every index in
      range and not seen before. */
  method Scatter(data: seq<Item>, count: nat, dimensions: nat) returns (r: Result)
    ensures IsOutcome(data, count, dimensions, r)
  {
    if |data| != count { return Err(UnexpectedCount); }
    var result := new Vector[count](_ => []);
    var seen := new bool[count](_ => false);
    for n := 0 to |data|
      invariant Scattered(data, n, result[..]) && NoneFaulty(data, n, count, dimensions)
      invariant forall i :: 0 <= i < count ==> (seen[i] <==> IsNamed(data, n, i))
    {
      var item := data[n];
      if item.index < 0 || item.index >= count || |item.vector| != dimensions || seen[item.index] {
        FirstFaultIsOutcome(data, n, count, dimensions, InvalidVector);
        return Err(InvalidVector);
      }
      AllNamed(data, n);
      seen[item.index] := true;
      var check := CheckVector(item.vector);
      if check.Bad? {
        FirstFaultIsOutcome(data, n, count, dimensions, check.error);
        return Err(check.error);
      }
      OneMoreScattered(data, n, result[..]);
      ghost var was := result[..];
      result[item.index] := item.vector;
      assert result[..] == was[item.index := item.vector];
      OneMoreFaultless(data, n, count, dimensions);
    }
    EverySlotIsNamed(data, result[..]);
    return Ok(result[..]);
  }

  // ----- why nothing is left empty -----

  lemma {:induction false} NamesCount(data: seq<Item>, names: set<int>)
    requires names == set k | 0 <= k < |data| :: data[k].index
    requires forall i, j :: 0 <= i < j < |data| ==> data[i].index != data[j].index
    ensures |names| == |data|
  {
    if data != [] {
      var front, last := data[..|data| - 1], data[|data| - 1];
      var rest := set k | 0 <= k < |front| :: front[k].index;
      NamesCount(front, rest);
      assert forall k :: 0 <= k < |front| ==> front[k] == data[k];
      assert last.index !in rest;
      assert names == rest + {last.index};
    }
  }

  function Slots(n: nat): set<int> {
    if n == 0 then {} else Slots(n - 1) + {n - 1}
  }

  lemma {:induction false} SlotsCount(n: nat)
    ensures |Slots(n)| == n && forall i :: i in Slots(n) <==> 0 <= i < n
  {
    if n > 0 { SlotsCount(n - 1); }
  }

  lemma SubsetOfSize(a: set<int>, b: set<int>)
    requires a <= b && |a| == |b|
    ensures a == b
  {
    assert b * a == a;
    assert |b - a| == 0;
  }

  /** As many items as slots, in range and all different: every slot is named. */
  lemma EverySlotIsNamed(data: seq<Item>, vectors: seq<Vector>)
    requires |data| == |vectors| && Scattered(data, |data|, vectors)
    ensures FilledByNames(data, vectors)
  {
    var names := set k | 0 <= k < |data| :: data[k].index;
    NamesCount(data, names);
    SlotsCount(|vectors|);
    SubsetOfSize(names, Slots(|vectors|));
    forall i | 0 <= i < |vectors| ensures IsFilled(data, vectors, i) {
      assert i in names;
      var k :| 0 <= k < |data| && data[k].index == i;
      assert IsNamer(data, vectors, i, k);
    }
  }
}
