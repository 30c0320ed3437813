/** Tree construction: `id3` of src/algorithm.rs:35-107, with its
    `get_common_coutcome` closure and the `max_by` selection of the split
    attribute. */
module Induction {
  import opened Wrappers
  import opened Dataset
  import opened Scoring
  import opened Tree

  /** Why construction aborts: a leaf is asked for the first record of an
      empty data set (the `expect` at src/algorithm.rs:54), a record's label
      is missing from the outcome universe (the `unwrap` at 48), or the
      universe is empty when a majority is needed (the `unwrap` at 50). */
  datatype BuildError =
    | EmptyData
    | UnknownOutcome(name: string)
    | NoOutcomes

  /** The attribute indices below `n` not yet used: the termination measure
      of `Id3`, which shrinks by the chosen attribute at every split. */
  function Unused(used: set<nat>, n: nat): set<nat> {
    set i: nat | i < n && i !in used
  }

  /** Marking an unused attribute used shrinks the measure. */
  lemma UnusedShrinks(used: set<nat>, b: nat, n: nat)
    requires b < n && b !in used
    ensures Unused(used + {b}, n) < Unused(used, n)
  {
    assert b in Unused(used, n) - Unused(used + {b}, n);
  }

  /** `max_by` over the ascending positions of `scores` outside `skip`: the
      largest score, and on a tie the later position, since `max_by` keeps
      the last of several equal maxima. */
  function MaxByLast(scores: seq<real>, skip: set<nat>): (r: Option<nat>)
    ensures r.None? <==> forall i: nat :: i < |scores| ==> i in skip
    ensures r.Some? ==> r.value < |scores| && r.value !in skip
    ensures r.Some? ==> forall j :: 0 <= j < |scores| && j !in skip ==> scores[j] <= scores[r.value]
    ensures r.Some? ==> forall j :: r.value < j < |scores| && j !in skip ==> scores[j] < scores[r.value]
  {
    if |scores| == 0 then None
    else
      var n := |scores| - 1;
      var prev := MaxByLast(scores[..n], skip);
      if n in skip then prev
      else
        match prev
        case None => Some(n)
        case Some(b) => if scores[b] <= scores[n] then Some(n) else Some(b)
  }

  /** How `Id3` ranks a candidate attribute `a` of a data set. */
  type Scorer = (seq<Record>, nat) -> real

  /** The score `id3` ranks by: `information_gain` (src/algorithm.rs:16-32)
      against the universes, `term` being the `-c * log2(c)` of the entropy.
      Outside the domain of `InformationGain` it is 0; `Id3` never asks
      there. */
  function InformationGainOf(variants: seq<seq<string>>, outcomes: seq<string>,
                             term: nat -> real): Scorer
  {
    (d: seq<Record>, a: nat) =>
      if |d| > 0 && a < |variants| && forall r :: r in d ==> a < |r.attrs|
      then InformationGain(d, variants, outcomes, a, term)
      else 0.0
  }

  /** The score of every attribute position of `data` below `n`. */
  function Gains(data: seq<Record>, n: nat, gain: Scorer): seq<real> {
    seq(n, a requires 0 <= a < n => gain(data, a))
  }

  /** The split attribute of src/algorithm.rs:65-71: among the unused
      positions of the first record, one of highest score, the last such on
      a tie (stated by `BestAttrHasBestGain`). */
  function BestAttr(data: seq<Record>, variants: seq<seq<string>>, used: set<nat>,
                    gain: Scorer): (r: Option<nat>)
    requires UniformWidth(data, |variants|)
    ensures r.Some? <==> |data| > 0 && exists i: nat :: i < |variants| && i !in used
    ensures r.Some? ==> r.value < |variants| && r.value !in used
  {
    if |data| == 0 then None
    else
      assert data[0] in data;
      MaxByLast(Gains(data, |data[0].attrs|, gain), used)
  }

  /** The attribute `BestAttr` picks scores highest among the unused ones,
      and every later unused attribute scores strictly lower. */
  lemma BestAttrHasBestGain(data: seq<Record>, variants: seq<seq<string>>, used: set<nat>,
                            gain: Scorer)
    requires UniformWidth(data, |variants|)
    requires BestAttr(data, variants, used, gain).Some?
    ensures var b := BestAttr(data, variants, used, gain).value;
            (forall j :: 0 <= j < |variants| && j !in used ==> gain(data, j) <= gain(data, b)) &&
            (forall j :: b < j < |variants| && j !in used ==> gain(data, j) < gain(data, b))
  {
    assert data[0] in data;
    var g := Gains(data, |variants|, gain);
    assert BestAttr(data, variants, used, gain) == MaxByLast(g, used);
  }

  /** The first record label missing from the outcome universe, if any: the
      record on which the loop of src/algorithm.rs:47-49 panics. */
  function FirstUnknown(data: seq<Record>, outcomes: seq<string>): (r: Option<string>)
    ensures r.None? <==> OutcomesKnown(data, outcomes)
    ensures r.Some? ==> r.value !in outcomes && exists x :: x in data && x.outcome == r.value
  {
    if data == [] then None
    else if data[0].outcome !in outcomes then Some(data[0].outcome)
    else FirstUnknown(data[1..], outcomes)
  }

  /** `o` is a label of the universe that no other label outnumbers in `data`. */
  predicate IsMajority(data: seq<Record>, outcomes: seq<string>, o: string) {
    o in outcomes && forall o' :: o' in outcomes ==> Count(data, o') <= Count(data, o)
  }

  /** `get_common_coutcome` (src/algorithm.rs:44-51): count every label of
      the universe, then take one with the largest count, the last in
      universe order on a tie. */
  function CommonOutcome(data: seq<Record>, outcomes: seq<string>): (r: Result<string, BuildError>)
    ensures r.Ok? <==> OutcomesKnown(data, outcomes) && outcomes != []
    ensures r.Ok? ==> r.value in outcomes
    ensures r.Err? && r.error.UnknownOutcome? ==>
              r.error.name !in outcomes && exists x :: x in data && x.outcome == r.error.name
    ensures r == Err(NoOutcomes) ==> outcomes == [] && data == []
    ensures r != Err(EmptyData)
  {
    match FirstUnknown(data, outcomes)
    case Some(o) => Err(UnknownOutcome(o))
    case None =>
      match MaxByLast(OutcomeCounts(data, outcomes), {})
      case None => Err(NoOutcomes)
      case Some(k) => Ok(outcomes[k])
  }

  /** The label `get_common_coutcome` returns has the largest count of the
      universe, and every label after it in universe order has a strictly
      smaller one (`max_by` keeps the last maximum). */
  lemma CommonOutcomeIsMajority(data: seq<Record>, outcomes: seq<string>)
    requires CommonOutcome(data, outcomes).Ok?
    ensures IsMajority(data, outcomes, CommonOutcome(data, outcomes).value)
    ensures var c := CommonOutcome(data, outcomes).value;
      exists k :: 0 <= k < |outcomes| && outcomes[k] == c &&
        forall j :: k < j < |outcomes| ==> Count(data, outcomes[j]) < Count(data, c)
  {
    match MaxByLast(OutcomeCounts(data, outcomes), {})
    case None =>
    case Some(k) => MajorityFromCounts(data, outcomes, k);
  }

  /** The `outcome_counts` map of src/algorithm.rs:45-49: every label of the
      universe starts at 0, and the records are visited in order, each adding
      1 to its own label. Labels outside the universe are the `unwrap` panic
      of line 48, ruled out by the precondition (`FirstUnknown` reports it). */
  function Tally(data: seq<Record>, outcomes: seq<string>): (m: map<string, nat>)
    requires OutcomesKnown(data, outcomes)
    ensures m.Keys == set o | o in outcomes
  {
    if data == [] then map o | o in outcomes :: 0
    else
      var last := data[|data| - 1];
      var m := Tally(data[..|data| - 1], outcomes);
      m[last.outcome := m[last.outcome] + 1]
  }

  /** After the loop, the map holds for each label of the universe the number
      of records carrying it: the increment loop agrees with the filter count
      of `entropy`. */
  lemma {:induction false} TallyIsCount(data: seq<Record>, outcomes: seq<string>)
    requires OutcomesKnown(data, outcomes)
    ensures forall o :: o in outcomes ==> Tally(data, outcomes)[o] == Count(data, o)
  {
    if data != [] {
      var init := data[..|data| - 1];
      TallyIsCount(init, outcomes);
      forall o | o in outcomes
        ensures Tally(data, outcomes)[o] == Count(data, o)
      {
        CountSnoc(data, o);
      }
    }
  }

  /** The tallies of the universe's labels, in universe order: the values
      `max_by_key` at src/algorithm.rs:50 compares. */
  function OutcomeCounts(data: seq<Record>, outcomes: seq<string>): (counts: seq<real>)
    requires OutcomesKnown(data, outcomes)
    ensures |counts| == |outcomes|
    ensures forall k :: 0 <= k < |outcomes| ==> counts[k] == Count(data, outcomes[k]) as real
  {
    var m := Tally(data, outcomes);
    TallyIsCount(data, outcomes);
    seq(|outcomes|, k requires 0 <= k < |outcomes| => m[outcomes[k]] as real)
  }

  lemma MajorityFromCounts(data: seq<Record>, outcomes: seq<string>, k: nat)
    requires OutcomesKnown(data, outcomes) && k < |outcomes|
    requires forall j :: 0 <= j < |outcomes| ==> OutcomeCounts(data, outcomes)[j] <= OutcomeCounts(data, outcomes)[k]
    requires forall j :: k < j < |outcomes| ==> OutcomeCounts(data, outcomes)[j] < OutcomeCounts(data, outcomes)[k]
    ensures IsMajority(data, outcomes, outcomes[k])
    ensures exists k' :: 0 <= k' < |outcomes| && outcomes[k'] == outcomes[k] &&
              forall j :: k' < j < |outcomes| ==> Count(data, outcomes[j]) < Count(data, outcomes[k])
  {
    var counts := OutcomeCounts(data, outcomes);
    forall o' | o' in outcomes
      ensures Count(data, o') <= Count(data, outcomes[k])
    {
      var j := IndexOf(outcomes, o');
      assert counts[j] <= counts[k];
    }
    assert forall j :: k < j < |outcomes| ==> counts[j] < counts[k];
  }

  /** `id3` (src/algorithm.rs:35-107) on a fresh node whose `used_attrs` is
      `used`. The rules apply in order: all attributes used gives a leaf with
      the first record's label; the prune depth gives a leaf with the majority
      label; otherwise the best unused attribute is split on (`SplitOn`), and
      with no unused attribute left the node stays empty. `gain` ranks the
      candidate attributes; `InformationGainOf` is the ranking of the
      source. */
  function Id3(used: set<nat>, data: seq<Record>, variants: seq<seq<string>>,
               outcomes: seq<string>, depth: nat, prune: Option<nat>,
               gain: Scorer): (r: Result<Node, BuildError>)
    requires UniformWidth(data, |variants|)
    ensures |data| > 0 && OutcomesKnown(data, outcomes) ==> r.Ok?
    decreases Unused(used, |variants|), 3, 0
  {
    if |used| == |variants| then
      if |data| == 0 then Err(EmptyData)
      else Ok(Node(None, [], used, Some(data[0].outcome)))
    else if prune == Some(depth) then
      var o :- CommonOutcome(data, outcomes);
      Ok(Node(None, [], used, Some(o)))
    else
      match BestAttr(data, variants, used, gain)
      case None => Ok(EmptyNode(used))
      case Some(best) => SplitOn(best, used, data, variants, outcomes, depth, prune, gain)
  }

  /** The split node of src/algorithm.rs:81-105 on attribute `best`: one child
      per variant of `best`, `best` added to the used attributes, and, when a
      variant is carried by no record, the first record's label as the
      node's own outcome. */
  function SplitOn(best: nat, used: set<nat>, data: seq<Record>, variants: seq<seq<string>>,
                   outcomes: seq<string>, depth: nat, prune: Option<nat>,
                   gain: Scorer): (r: Result<Node, BuildError>)
    requires UniformWidth(data, |variants|) && |data| > 0
    requires best < |variants| && best !in used
    ensures OutcomesKnown(data, outcomes) ==> r.Ok?
    decreases Unused(used, |variants|), 2, 0
  {
    var cs :- Children(variants[best], best, used, data, variants, outcomes, depth, prune, gain);
    Ok(Node(Some(best), cs, used + {best}, if Starved(data, best, variants[best]) then Some(data[0].outcome) else None))
  }

  /** Some variant in `keys` of attribute `best` is carried by no record. */
  predicate Starved(data: seq<Record>, best: nat, keys: seq<string>)
    requires forall r :: r in data ==> best < |r.attrs|
  {
    exists v :: v in keys && Subset(data, best, v) == []
  }

  /** The loop of src/algorithm.rs:84-105 over the variants `keys` of the
      split attribute `best`: one child per key, in key order. */
  function Children(keys: seq<string>, best: nat, used: set<nat>, data: seq<Record>,
                    variants: seq<seq<string>>, outcomes: seq<string>, depth: nat,
                    prune: Option<nat>, gain: Scorer): (r: Result<seq<(string, Node)>, BuildError>)
    requires UniformWidth(data, |variants|)
    requires best < |variants| && best !in used
    ensures OutcomesKnown(data, outcomes) ==> r.Ok?
    decreases Unused(used, |variants|), 1, |keys|
  {
    if keys == [] then Ok([])
    else
      var child :- Child(keys[0], best, used, data, variants, outcomes, depth, prune, gain);
      var rest :- Children(keys[1..], best, used, data, variants, outcomes, depth, prune, gain);
      Ok([(keys[0], child)] + rest)
  }

  /** One pass of that loop (src/algorithm.rs:85-103): the records whose value
      at `best` is `key` build the child one level down with `best` marked
      used; when there are none, the child stays an empty node. */
  function Child(key: string, best: nat, used: set<nat>, data: seq<Record>,
                 variants: seq<seq<string>>, outcomes: seq<string>, depth: nat,
                 prune: Option<nat>, gain: Scorer): (r: Result<Node, BuildError>)
    requires UniformWidth(data, |variants|)
    requires best < |variants| && best !in used
    ensures OutcomesKnown(data, outcomes) ==> r.Ok?
    decreases Unused(used, |variants|), 0, 0
  {
    var s := Subset(data, best, key);
    if s == [] then Ok(EmptyNode(used + {best}))
    else
      UnusedShrinks(used, best, |variants|);
      SubsetKeeps(data, best, key, |variants|, outcomes);
      Id3(used + {best}, s, variants, outcomes, depth + 1, prune, gain)
  }
}
