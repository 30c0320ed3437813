/** Labelled records and the counting that the ID3 scoring is built on:
    how often a label occurs, which records carry a given attribute value,
    and the ascending list of indices a set leaves out. */
module Dataset {

  /** One row of data: the categorical attribute values, in column order,
      and the outcome label. */
  datatype Record = Record(attrs: seq<string>, outcome: string)

  /** A sequence without repeats: how the model fixes the iteration order of
      a hash set. */
  predicate NoDup<T(==)>(s: seq<T>) {
    forall i, j :: 0 <= i < j < |s| ==> s[i] != s[j]
  }

  /** The head of a duplicate-free sequence does not recur in its tail. */
  lemma NoDupHead<T>(s: seq<T>)
    requires NoDup(s) && s != []
    ensures s[0] !in s[1..] && NoDup(s[1..])
  {
  }

  /** Every record has exactly `w` attribute values. */
  predicate UniformWidth(data: seq<Record>, w: nat) {
    forall r :: r in data ==> |r.attrs| == w
  }

  /** A row of attribute values drawn from the per-position variant universe. */
  predicate InUniverse(attrs: seq<string>, variants: seq<seq<string>>) {
    |attrs| == |variants| && forall i :: 0 <= i < |attrs| ==> attrs[i] in variants[i]
  }

  /** Every record's label belongs to the outcome universe. */
  predicate OutcomesKnown(data: seq<Record>, outcomes: seq<string>) {
    forall r :: r in data ==> r.outcome in outcomes
  }

  /** The labels carried by the records of `data`. */
  function OutcomeSet(data: seq<Record>): set<string> {
    set r | r in data :: r.outcome
  }

  /** The outcome labels of `data`, in record order. */
  function OutcomeColumn(data: seq<Record>): (col: seq<string>)
    ensures |col| == |data|
    ensures forall k :: 0 <= k < |data| ==> col[k] == data[k].outcome
  {
    if data == [] then [] else [data[0].outcome] + OutcomeColumn(data[1..])
  }

  /** The values at attribute position `a`, in record order. */
  function Column(data: seq<Record>, a: nat): (col: seq<string>)
    requires forall r :: r in data ==> a < |r.attrs|
    ensures |col| == |data|
    ensures forall k :: 0 <= k < |data| ==> col[k] == data[k].attrs[a]
  {
    if data == [] then [] else [data[0].attrs[a]] + Column(data[1..], a)
  }

  /** Number of positions of `xs` holding `x`. */
  function Occurrences<T(==)>(xs: seq<T>, x: T): (n: nat)
    ensures n <= |xs|
    ensures n > 0 <==> x in xs
  {
    if xs == [] then 0
    else (if xs[0] == x then 1 else 0) + Occurrences(xs[1..], x)
  }

  /** Sum of `Occurrences(xs, k)` over the keys `ks`. */
  function SumOccurrences<T(==)>(xs: seq<T>, ks: seq<T>): nat {
    if ks == [] then 0 else Occurrences(xs, ks[0]) + SumOccurrences(xs, ks[1..])
  }

  /** The per-outcome count of entropy (src/algorithm.rs:8). */
  function Count(data: seq<Record>, o: string): (c: nat)
    ensures c <= |data|
    ensures c > 0 <==> exists r :: r in data && r.outcome == o
  {
    var c := Occurrences(OutcomeColumn(data), o);
    assert c > 0 ==> data[IndexOf(OutcomeColumn(data), o)].outcome == o;
    c
  }

  /** Appending one element adds one occurrence exactly when it is `y`. */
  lemma {:induction false} OccurrencesSnoc<T>(xs: seq<T>, x: T, y: T)
    ensures Occurrences(xs + [x], y) == Occurrences(xs, y) + (if x == y then 1 else 0)
  {
    if xs != [] {
      assert (xs + [x])[1..] == xs[1..] + [x];
      OccurrencesSnoc(xs[1..], x, y);
    }
  }

  /** The count of a label grows by one exactly when the last record carries
      it. */
  lemma CountSnoc(data: seq<Record>, o: string)
    requires data != []
    ensures Count(data, o) == Count(data[..|data| - 1], o) + (if data[|data| - 1].outcome == o then 1 else 0)
  {
    var init := data[..|data| - 1];
    assert OutcomeColumn(data) == OutcomeColumn(init) + [data[|data| - 1].outcome];
    OccurrencesSnoc(OutcomeColumn(init), data[|data| - 1].outcome, o);
  }

  /** First position of `x` in `xs`. */
  function IndexOf<T(==)>(xs: seq<T>, x: T): (k: nat)
    requires x in xs
    ensures k < |xs| && xs[k] == x
    ensures forall j :: 0 <= j < k ==> xs[j] != x
  {
    if xs[0] == x then 0 else 1 + IndexOf(xs[1..], x)
  }

  /** The records whose value at attribute `a` is `v`, in their original order
      (the filter of src/algorithm.rs:24-27 and 87-90). */
  function Subset(data: seq<Record>, a: nat, v: string): (s: seq<Record>)
    requires forall r :: r in data ==> a < |r.attrs|
    ensures forall r :: r in s <==> r in data && r.attrs[a] == v
  {
    if data == [] then []
    else (if data[0].attrs[a] == v then [data[0]] else []) + Subset(data[1..], a, v)
  }

  /** A subset has one record per occurrence of its value in the column. */
  lemma {:induction false} SubsetSize(data: seq<Record>, a: nat, v: string)
    requires forall r :: r in data ==> a < |r.attrs|
    ensures |Subset(data, a, v)| == Occurrences(Column(data, a), v)
  {
    if data != [] {
      SubsetSize(data[1..], a, v);
      assert Column(data, a) == [data[0].attrs[a]] + Column(data[1..], a);
    }
  }

  /** A subset keeps the width and the known labels of the records it keeps. */
  lemma SubsetKeeps(data: seq<Record>, a: nat, v: string, w: nat, outcomes: seq<string>)
    requires UniformWidth(data, w) && a < w
    ensures UniformWidth(Subset(data, a, v), w)
    ensures OutcomesKnown(data, outcomes) ==> OutcomesKnown(Subset(data, a, v), outcomes)
  {
  }

  /** The indices below `n` that are not in `used`, in ascending order: the
      held-out rows of src/main.rs:129-130. */
  function Unselected(n: nat, used: set<nat>): (idx: seq<nat>)
    ensures forall k :: 0 <= k < |idx| ==> idx[k] < n
  {
    if n == 0 then []
    else Unselected(n - 1, used) + (if n - 1 in used then [] else [n - 1])
  }

  /** `Unselected` lists exactly the indices below `n` outside `used`, each
      once, in ascending order. */
  lemma {:induction false} UnselectedIndices(n: nat, used: set<nat>)
    ensures var idx := Unselected(n, used);
            (forall i, j :: 0 <= i < j < |idx| ==> idx[i] < idx[j]) &&
            (forall i: nat :: i in idx <==> i < n && i !in used)
  {
    if n > 0 {
      UnselectedIndices(n - 1, used);
    }
  }

  /** Splitting a column by a duplicate-free key list that covers every value
      accounts for each position exactly once. */
  lemma {:induction false} OccurrencesPartition<T>(xs: seq<T>, ks: seq<T>)
    requires NoDup(ks)
    requires forall x :: x in xs ==> x in ks
    ensures SumOccurrences(xs, ks) == |xs|
  {
    if xs != [] {
      SumOccurrencesHead(xs, ks);
      OccurrencesPartition(xs[1..], ks);
      OccursOnce(xs[0], ks);
    } else {
      SumOccurrencesEmpty(ks);
    }
  }

  /** A key of a duplicate-free list occurs in it exactly once. */
  lemma {:induction false} OccursOnce<T>(x: T, ks: seq<T>)
    requires NoDup(ks) && x in ks
    ensures Occurrences(ks, x) == 1
  {
    if ks[0] == x {
      assert x !in ks[1..] by { NoDupHead(ks); }
    } else {
      assert x in ks[1..];
      assert NoDup(ks[1..]) by { NoDupHead(ks); }
      OccursOnce(x, ks[1..]);
    }
  }

  lemma {:induction false} SumOccurrencesHead<T>(xs: seq<T>, ks: seq<T>)
    requires xs != []
    ensures SumOccurrences(xs, ks) == Occurrences(ks, xs[0]) + SumOccurrences(xs[1..], ks)
  {
    if ks != [] {
      SumOccurrencesHead(xs, ks[1..]);
    }
  }

  /** Helper for the base case of `OccurrencesPartition`: an empty column
      has no occurrences of any key. */
  lemma SumOccurrencesEmpty<T>(ks: seq<T>)
    ensures SumOccurrences([], ks) == 0
  {
  }
}
