/** The split score of src/algorithm.rs:5-32 at the counting level. The real
    program adds `-c * log2(c)` in `f64` for every outcome count `c > 0`; here
    that per-count term is the parameter `term`, so every fact below holds
    whatever the logarithm computes. */
module Scoring {
  import opened Dataset

  /** Unnormalised entropy: `term(c)` summed over the outcomes of the universe
      that `c > 0` records of `data` carry; labels with no record add nothing. */
  function Entropy(data: seq<Record>, outcomes: seq<string>, term: nat -> real): real {
    if outcomes == [] then 0.0
    else
      var c := Count(data, outcomes[0]);
      (if c > 0 then term(c) else 0.0) + Entropy(data, outcomes[1..], term)
  }

  /** Sum over the variants `keys` of attribute `a` of each subset's entropy,
      weighted by the subset's share of `data`. */
  function WeightedSum(data: seq<Record>, keys: seq<string>, a: nat,
                       outcomes: seq<string>, term: nat -> real): real
    requires |data| > 0
    requires forall r :: r in data ==> a < |r.attrs|
  {
    if keys == [] then 0.0
    else
      var s := Subset(data, a, keys[0]);
      Scale(Share(|s|, |data|), Entropy(s, outcomes, term))
        + WeightedSum(data, keys[1..], a, outcomes, term)
  }

  /** The fraction `part / whole` of src/algorithm.rs:28, in exact arithmetic. */
  function Share(part: nat, whole: nat): (w: real)
    requires whole > 0
    ensures part == whole ==> w == 1.0
    ensures part == 0 ==> w == 0.0
  {
    var n := whole as real;
    assert n / n == 1.0;
    part as real / n
  }

  /** A subset's entropy scaled by its share of the data. */
  function Scale(w: real, e: real): (r: real)
    ensures w == 1.0 ==> r == e
    ensures w == 0.0 ==> r == 0.0
  {
    w * e
  }

  /** Entropy of `data` minus the weighted entropy after splitting it by the
      variants of attribute `a`. */
  function InformationGain(data: seq<Record>, variants: seq<seq<string>>,
                           outcomes: seq<string>, a: nat, term: nat -> real): real
    requires |data| > 0 && a < |variants|
    requires forall r :: r in data ==> a < |r.attrs|
  {
    Entropy(data, outcomes, term) - WeightedSum(data, variants[a], a, outcomes, term)
  }

  /** Sum of the per-outcome counts over the universe. */
  function CountTotal(data: seq<Record>, outcomes: seq<string>): nat {
    if outcomes == [] then 0 else Count(data, outcomes[0]) + CountTotal(data, outcomes[1..])
  }

  /** Sum of the subset sizes over the variants `keys` of attribute `a`. */
  function SubsetTotal(data: seq<Record>, a: nat, keys: seq<string>): nat
    requires forall r :: r in data ==> a < |r.attrs|
  {
    if keys == [] then 0 else |Subset(data, a, keys[0])| + SubsetTotal(data, a, keys[1..])
  }

  /** An empty data set scores zero. */
  lemma {:induction false} EntropyOfEmpty(outcomes: seq<string>, term: nat -> real)
    ensures Entropy([], outcomes, term) == 0.0
  {
    if outcomes != [] {
      EntropyOfEmpty(outcomes[1..], term);
    }
  }

  /** A data set whose records all carry label `o`, listed once in the
      universe, scores exactly `term(|data|)`: the other labels add nothing. */
  lemma {:induction false} EntropyOfPure(data: seq<Record>, outcomes: seq<string>, o: string,
                                         term: nat -> real)
    requires |data| > 0
    requires forall r :: r in data ==> r.outcome == o
    requires NoDup(outcomes) && o in outcomes
    ensures Entropy(data, outcomes, term) == term(|data|)
  {
    PureCount(data, o);
    PureEntropy(data, outcomes, o, term);
  }

  lemma {:induction false} PureEntropy(data: seq<Record>, outcomes: seq<string>, o: string,
                                       term: nat -> real)
    requires |data| > 0
    requires forall r :: r in data ==> r.outcome == o
    requires NoDup(outcomes)
    requires Count(data, o) == |data|
    ensures Entropy(data, outcomes, term) == if o in outcomes then term(|data|) else 0.0
  {
    if outcomes != [] {
      PureEntropy(data, outcomes[1..], o, term);
      NoDupHead(outcomes);
      if outcomes[0] != o {
        assert Count(data, outcomes[0]) == 0;
      }
    }
  }

  lemma {:induction false} PureCount(data: seq<Record>, o: string)
    requires forall r :: r in data ==> r.outcome == o
    ensures Count(data, o) == |data|
  {
    AllOccurrences(OutcomeColumn(data), o);
  }

  lemma {:induction false} AllOccurrences<T>(xs: seq<T>, x: T)
    requires forall k :: 0 <= k < |xs| ==> xs[k] == x
    ensures Occurrences(xs, x) == |xs|
  {
    if xs != [] {
      AllOccurrences(xs[1..], x);
    }
  }

  /** Entropy reads `data` only through the per-outcome counts. */
  lemma {:induction false} EntropyDependsOnlyOnCounts(d1: seq<Record>, d2: seq<Record>,
                                                      outcomes: seq<string>, term: nat -> real)
    requires forall o :: o in outcomes ==> Count(d1, o) == Count(d2, o)
    ensures Entropy(d1, outcomes, term) == Entropy(d2, outcomes, term)
  {
    if outcomes != [] {
      EntropyDependsOnlyOnCounts(d1, d2, outcomes[1..], term);
    }
  }

  /** Entropy never applies the per-count term to a zero count. */
  lemma {:induction false} EntropyIgnoresZeroTerm(data: seq<Record>, outcomes: seq<string>,
                                                  t1: nat -> real, t2: nat -> real)
    requires forall c: nat :: c > 0 ==> t1(c) == t2(c)
    ensures Entropy(data, outcomes, t1) == Entropy(data, outcomes, t2)
  {
    if outcomes != [] {
      EntropyIgnoresZeroTerm(data, outcomes[1..], t1, t2);
    }
  }

  /** With every label in a duplicate-free universe, the per-outcome counts
      add up to the size of the data set. */
  lemma CountsCoverData(data: seq<Record>, outcomes: seq<string>)
    requires NoDup(outcomes) && OutcomesKnown(data, outcomes)
    ensures CountTotal(data, outcomes) == |data|
  {
    CountTotalIsSum(data, outcomes);
    OccurrencesPartition(OutcomeColumn(data), outcomes);
  }

  lemma {:induction false} CountTotalIsSum(data: seq<Record>, outcomes: seq<string>)
    ensures CountTotal(data, outcomes) == SumOccurrences(OutcomeColumn(data), outcomes)
  {
    if outcomes != [] {
      CountTotalIsSum(data, outcomes[1..]);
    }
  }

  /** With every value at `a` among duplicate-free variants, the subsets of a
      split partition the data: their sizes add up to `|data|`. */
  lemma SubsetsCoverData(data: seq<Record>, a: nat, keys: seq<string>)
    requires forall r :: r in data ==> a < |r.attrs| && r.attrs[a] in keys
    requires NoDup(keys)
    ensures SubsetTotal(data, a, keys) == |data|
  {
    SubsetTotalIsSum(data, a, keys);
    OccurrencesPartition(Column(data, a), keys);
  }

  lemma {:induction false} SubsetTotalIsSum(data: seq<Record>, a: nat, keys: seq<string>)
    requires forall r :: r in data ==> a < |r.attrs|
    ensures SubsetTotal(data, a, keys) == SumOccurrences(Column(data, a), keys)
  {
    if keys != [] {
      SubsetSize(data, a, keys[0]);
      SubsetTotalIsSum(data, a, keys[1..]);
    }
  }

  /** Splitting on an attribute every record agrees on gains nothing. */
  lemma GainOfConstantAttribute(data: seq<Record>, variants: seq<seq<string>>,
                                outcomes: seq<string>, a: nat, v: string, term: nat -> real)
    requires |data| > 0 && a < |variants|
    requires forall r :: r in data ==> a < |r.attrs| && r.attrs[a] == v
    requires NoDup(variants[a]) && v in variants[a]
    ensures InformationGain(data, variants, outcomes, a, term) == 0.0
  {
    ConstantWeightedSum(data, variants[a], a, outcomes, v, term);
  }

  lemma {:induction false} ConstantWeightedSum(data: seq<Record>, keys: seq<string>, a: nat,
                                               outcomes: seq<string>, v: string, term: nat -> real)
    requires |data| > 0
    requires forall r :: r in data ==> a < |r.attrs| && r.attrs[a] == v
    requires NoDup(keys)
    ensures WeightedSum(data, keys, a, outcomes, term)
         == if v in keys then Entropy(data, outcomes, term) else 0.0
  {
    if keys != [] {
      NoDupHead(keys);
      ConstantWeightedSum(data, keys[1..], a, outcomes, v, term);
      var rest := WeightedSum(data, keys[1..], a, outcomes, term);
      var s := Subset(data, a, keys[0]);
      var w := Share(|s|, |data|);
      var e := Entropy(s, outcomes, term);
      assert WeightedSum(data, keys, a, outcomes, term) == Scale(w, e) + rest;
      if keys[0] == v {
        SubsetOfAll(data, a, v);
      }
    }
  }

  lemma {:induction false} SubsetOfAll(data: seq<Record>, a: nat, v: string)
    requires forall r :: r in data ==> a < |r.attrs| && r.attrs[a] == v
    ensures Subset(data, a, v) == data
  {
    if data != [] {
      SubsetOfAll(data[1..], a, v);
    }
  }

  /** The unnormalised score can make a split look worse than none: two
      records with the same label, split into singletons by an attribute on
      which they differ, gain `term(2) - 2 * (1/2) * term(1)`, which is `-2`
      for `term(c) = -c * log2(c)`. So `Entropy` is not zero on pure data and
      `InformationGain` is not non-negative. */
  lemma {:induction false} GainCanBeNegative(term: nat -> real)
    requires term(1) == 0.0 && term(2) == -2.0
    ensures var data := [Record(["x"], "yes"), Record(["y"], "yes")];
            Entropy(data, ["yes"], term) == -2.0 &&
            InformationGain(data, [["x", "y"]], ["yes"], 0, term) == -2.0
  {
    var data := [Record(["x"], "yes"), Record(["y"], "yes")];
    PureCount(data, "yes");
    assert Entropy(data, ["yes"], term) == term(2);
    var sx := Subset(data, 0, "x");
    var sy := Subset(data, 0, "y");
    assert data[1..] == [Record(["y"], "yes")];
    assert sx == [data[0]];
    assert sy == [data[1]];
    PureCount(sx, "yes");
    PureCount(sy, "yes");
    assert Entropy(sx, ["yes"], term) == term(1);
    assert Entropy(sy, ["yes"], term) == term(1);
    assert WeightedSum(data, [["x", "y"]][0], 0, ["yes"], term) == 0.0;
  }
}
