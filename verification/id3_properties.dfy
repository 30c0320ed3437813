/** What a tree built by `Id3` promises: its shape after a split, that
    `eval` never fails on rows of the universe, that it only predicts labels
    of its training data, and how deep it can grow. */
module Id3Properties {
  import opened Wrappers
  import opened Dataset
  import opened Scoring
  import opened Tree
  import opened Induction

  /** Every index of `used` names an attribute of the universe. */
  predicate UsedInRange(used: set<nat>, n: nat) {
    forall i :: i in used ==> i < n
  }

  /** A set of indices below `n` has at most `n` elements, and fewer than
      `n` leave an index below `n` out. */
  lemma {:induction false} UnusedExists(used: set<nat>, n: nat)
    requires UsedInRange(used, n)
    ensures |used| <= n
    ensures |used| < n ==> exists i: nat :: i < n && i !in used
  {
    if n > 0 {
      var rest := used - {n - 1};
      UnusedExists(rest, n - 1);
      if n - 1 in used {
        assert |rest| == |used| - 1;
      } else {
        assert rest == used;
      }
    } else {
      assert used == {};
    }
  }

  /** After a split, the children list the variants of the split attribute in
      order; each is the `Child` built from the records carrying its value. */
  lemma {:induction false} ChildrenShape(keys: seq<string>, best: nat, used: set<nat>,
                                         data: seq<Record>, variants: seq<seq<string>>,
                                         outcomes: seq<string>, depth: nat, prune: Option<nat>,
                                         gain: Scorer)
    requires UniformWidth(data, |variants|)
    requires best < |variants| && best !in used
    requires Children(keys, best, used, data, variants, outcomes, depth, prune, gain).Ok?
    ensures var cs := Children(keys, best, used, data, variants, outcomes, depth, prune, gain).value;
            |cs| == |keys| &&
            forall i :: 0 <= i < |keys| ==>
              cs[i].0 == keys[i] &&
              Child(keys[i], best, used, data, variants, outcomes, depth, prune, gain) == Ok(cs[i].1)
  {
    if keys != [] {
      ChildrenShape(keys[1..], best, used, data, variants, outcomes, depth, prune, gain);
      var cs := Children(keys, best, used, data, variants, outcomes, depth, prune, gain).value;
      var rest := Children(keys[1..], best, used, data, variants, outcomes, depth, prune, gain).value;
      assert cs[1..] == rest;
    }
  }

  /** Rule one of src/algorithm.rs:53-56: once every attribute is used the
      node is a leaf with the first record's label, and empty data aborts. */
  lemma ExhaustedGivesFirstLabel(used: set<nat>, data: seq<Record>, variants: seq<seq<string>>,
                                 outcomes: seq<string>, depth: nat, prune: Option<nat>,
                                 gain: Scorer)
    requires UniformWidth(data, |variants|) && |used| == |variants|
    ensures var r := Id3(used, data, variants, outcomes, depth, prune, gain);
            (r.Ok? <==> |data| > 0) && (r.Err? ==> r.error == EmptyData) &&
            (r.Ok? ==> r.value.attr.None? && r.value.children == [] &&
                       r.value.outcome == Some(data[0].outcome))
  {
  }

  /** Rule two of src/algorithm.rs:58-63: at the prune depth, with attributes
      left, the node is a leaf with a majority label, and the build aborts
      exactly when a label is outside the universe or the universe is empty. */
  lemma PruneGivesMajority(used: set<nat>, data: seq<Record>, variants: seq<seq<string>>,
                           outcomes: seq<string>, depth: nat, gain: Scorer)
    requires UniformWidth(data, |variants|) && |used| != |variants|
    ensures var r := Id3(used, data, variants, outcomes, depth, Some(depth), gain);
            (r.Ok? <==> OutcomesKnown(data, outcomes) && outcomes != []) &&
            (r.Ok? ==> r.value.attr.None? && r.value.children == [] &&
                       r.value.outcome.Some? && IsMajority(data, outcomes, r.value.outcome.value))
  {
    if CommonOutcome(data, outcomes).Ok? {
      CommonOutcomeIsMajority(data, outcomes);
    }
  }

  /** With no data, or with no unused attribute left among those of the
      universe, the `max_by` finds nothing and the node stays empty. */
  lemma NothingToSplitGivesEmptyNode(used: set<nat>, data: seq<Record>, variants: seq<seq<string>>,
                                     outcomes: seq<string>, depth: nat, prune: Option<nat>,
                                     gain: Scorer)
    requires UniformWidth(data, |variants|) && |used| != |variants| && prune != Some(depth)
    requires |data| == 0 || forall i: nat :: i < |variants| ==> i in used
    ensures Id3(used, data, variants, outcomes, depth, prune, gain) == Ok(EmptyNode(used))
  {
  }

  /** A node of `Id3` with a split attribute `b` is the `SplitOn` of `b`, the
      best unused attribute of non-empty data. */
  lemma SplitIsSplitOn(used: set<nat>, data: seq<Record>, variants: seq<seq<string>>,
                       outcomes: seq<string>, depth: nat, prune: Option<nat>, gain: Scorer)
    requires UniformWidth(data, |variants|)
    requires Id3(used, data, variants, outcomes, depth, prune, gain).Ok?
    requires Id3(used, data, variants, outcomes, depth, prune, gain).value.attr.Some?
    ensures var b := Id3(used, data, variants, outcomes, depth, prune, gain).value.attr.value;
            |data| > 0 && |used| != |variants| && prune != Some(depth) &&
            BestAttr(data, variants, used, gain) == Some(b) &&
            Id3(used, data, variants, outcomes, depth, prune, gain) ==
              SplitOn(b, used, data, variants, outcomes, depth, prune, gain)
  {
  }

  /** The node `SplitOn` builds on attribute `b`: `used` extended by `b`, for
      each variant `v` of `b` in order a child keyed `v` that `Id3` built one
      level down from exactly the records whose value at `b` is `v` (an empty
      node when there are none), and the first record's label as the node's
      outcome exactly when some variant has no records. */
  lemma SplitOnShape(b: nat, used: set<nat>, data: seq<Record>, variants: seq<seq<string>>,
                     outcomes: seq<string>, depth: nat, prune: Option<nat>, gain: Scorer)
    requires UniformWidth(data, |variants|) && |data| > 0 && b < |variants| && b !in used
    requires SplitOn(b, used, data, variants, outcomes, depth, prune, gain).Ok?
    ensures var t := SplitOn(b, used, data, variants, outcomes, depth, prune, gain).value;
            t.attr == Some(b) && t.used == used + {b} &&
            (t.outcome.Some? <==> exists v :: v in variants[b] && Subset(data, b, v) == []) &&
            (t.outcome.Some? ==> t.outcome.value == data[0].outcome) &&
            Keys(t.children) == variants[b] &&
            forall i :: 0 <= i < |variants[b]| ==>
              var s := Subset(data, b, variants[b][i]);
              (s == [] ==> t.children[i].1 == EmptyNode(used + {b})) &&
              (s != [] ==> Id3(used + {b}, s, variants, outcomes, depth + 1, prune, gain) == Ok(t.children[i].1))
  {
    var cs := Children(variants[b], b, used, data, variants, outcomes, depth, prune, gain).value;
    ChildrenShape(variants[b], b, used, data, variants, outcomes, depth, prune, gain);
    assert Keys(cs) == variants[b];
  }

  /** The split node of src/algorithm.rs:81-105 as `Id3` returns it, with the
      shape `SplitOnShape` describes. */
  lemma SplitShape(used: set<nat>, data: seq<Record>, variants: seq<seq<string>>,
                   outcomes: seq<string>, depth: nat, prune: Option<nat>, gain: Scorer)
    requires UniformWidth(data, |variants|)
    requires Id3(used, data, variants, outcomes, depth, prune, gain).Ok?
    requires Id3(used, data, variants, outcomes, depth, prune, gain).value.attr.Some?
    ensures var t := Id3(used, data, variants, outcomes, depth, prune, gain).value;
            var b := t.attr.value;
            |data| > 0 && |used| != |variants| && prune != Some(depth) &&
            b < |variants| && b !in used && t.used == used + {b} &&
            (t.outcome.Some? <==> exists v :: v in variants[b] && Subset(data, b, v) == []) &&
            (t.outcome.Some? ==> t.outcome.value == data[0].outcome) &&
            Keys(t.children) == variants[b] &&
            forall i :: 0 <= i < |variants[b]| ==>
              var s := Subset(data, b, variants[b][i]);
              (s == [] ==> t.children[i].1 == EmptyNode(used + {b})) &&
              (s != [] ==> Id3(used + {b}, s, variants, outcomes, depth + 1, prune, gain) == Ok(t.children[i].1))
  {
    var b := Id3(used, data, variants, outcomes, depth, prune, gain).value.attr.value;
    SplitIsSplitOn(used, data, variants, outcomes, depth, prune, gain);
    SplitOnShape(b, used, data, variants, outcomes, depth, prune, gain);
  }

  /** Child `i` of a split node: an empty node when no record carries the
      `i`-th variant of the split attribute, otherwise the tree `Id3` builds
      one level down from the records that do. */
  lemma SplitChild(used: set<nat>, data: seq<Record>, variants: seq<seq<string>>,
                   outcomes: seq<string>, depth: nat, prune: Option<nat>, gain: Scorer, i: nat)
    requires UniformWidth(data, |variants|)
    requires Id3(used, data, variants, outcomes, depth, prune, gain).Ok?
    requires Id3(used, data, variants, outcomes, depth, prune, gain).value.attr.Some?
    requires i < |Id3(used, data, variants, outcomes, depth, prune, gain).value.children|
    ensures var t := Id3(used, data, variants, outcomes, depth, prune, gain).value;
            var b := t.attr.value;
            |data| > 0 && b < |variants| && b !in used && i < |variants[b]| &&
            var s := Subset(data, b, variants[b][i]);
            (s == [] ==> t.children[i].1 == EmptyNode(used + {b})) &&
            (s != [] ==> Id3(used + {b}, s, variants, outcomes, depth + 1, prune, gain) == Ok(t.children[i].1))
  {
    SplitShape(used, data, variants, outcomes, depth, prune, gain);
  }

  /** Past both leaf rules, on non-empty data with known labels, `id3`
      splits, and on the unused attribute of highest information gain, the
      last such on a tie (src/algorithm.rs:65-71). */
  lemma SplitsOnBestGain(used: set<nat>, data: seq<Record>, variants: seq<seq<string>>,
                         outcomes: seq<string>, depth: nat, prune: Option<nat>, term: nat -> real)
    requires UniformWidth(data, |variants|) && |data| > 0 && OutcomesKnown(data, outcomes)
    requires UsedInRange(used, |variants|) && |used| != |variants| && prune != Some(depth)
    ensures Id3(used, data, variants, outcomes, depth, prune, InformationGainOf(variants, outcomes, term)).Ok?
    ensures Id3(used, data, variants, outcomes, depth, prune, InformationGainOf(variants, outcomes, term)).value.attr.Some?
    ensures var b := Id3(used, data, variants, outcomes, depth, prune, InformationGainOf(variants, outcomes, term)).value.attr.value;
            b < |variants| && b !in used &&
            (forall j :: 0 <= j < |variants| && j !in used ==>
               InformationGain(data, variants, outcomes, j, term)
                 <= InformationGain(data, variants, outcomes, b, term)) &&
            (forall j :: b < j < |variants| && j !in used ==>
               InformationGain(data, variants, outcomes, j, term)
                 < InformationGain(data, variants, outcomes, b, term))
  {
    var gain := InformationGainOf(variants, outcomes, term);
    UnusedExists(used, |variants|);
    var best := BestAttr(data, variants, used, gain).value;
    assert Id3(used, data, variants, outcomes, depth, prune, gain) ==
           SplitOn(best, used, data, variants, outcomes, depth, prune, gain);
    SplitIsSplitOn(used, data, variants, outcomes, depth, prune, gain);
    BestAttrHasBestGain(data, variants, used, gain);
    var b := Id3(used, data, variants, outcomes, depth, prune, gain).value.attr.value;
    forall j | 0 <= j < |variants|
      ensures gain(data, j) == InformationGain(data, variants, outcomes, j, term)
    {
      assert forall r :: r in data ==> j < |r.attrs|;
    }
  }

  /** A node `Id3` builds without a split attribute has no children, and
      on non-empty data whose used attributes lie in the universe it carries
      an outcome. */
  lemma LeafShape(used: set<nat>, data: seq<Record>, variants: seq<seq<string>>,
                  outcomes: seq<string>, depth: nat, prune: Option<nat>, gain: Scorer)
    requires UniformWidth(data, |variants|)
    requires Id3(used, data, variants, outcomes, depth, prune, gain).Ok?
    requires Id3(used, data, variants, outcomes, depth, prune, gain).value.attr.None?
    ensures var t := Id3(used, data, variants, outcomes, depth, prune, gain).value;
            t.children == [] &&
            (|data| > 0 && UsedInRange(used, |variants|) ==> t.outcome.Some?) &&
            (|data| > 0 && t.outcome.Some? ==> Count(data, t.outcome.value) > 0)
  {
    var t := Id3(used, data, variants, outcomes, depth, prune, gain).value;
    if |used| == |variants| {
      if |data| > 0 {
        assert data[0] in data;
      }
    } else if prune == Some(depth) {
      if |data| > 0 {
        CommonOutcomeIsMajority(data, outcomes);
        assert data[0] in data;
        assert Count(data, data[0].outcome) > 0;
      }
    } else if UsedInRange(used, |variants|) {
      UnusedExists(used, |variants|);
    }
  }

  /** On non-empty data whose labels are all in the universe, `Id3` succeeds
      and every node a row of the universe can reach answers it. */
  lemma {:induction false} Id3Answers(used: set<nat>, data: seq<Record>, variants: seq<seq<string>>,
                                      outcomes: seq<string>, depth: nat, prune: Option<nat>,
                                      gain: Scorer)
    requires UniformWidth(data, |variants|) && UsedInRange(used, |variants|)
    requires |data| > 0 && OutcomesKnown(data, outcomes)
    ensures Id3(used, data, variants, outcomes, depth, prune, gain).Ok?
    ensures Answers(Id3(used, data, variants, outcomes, depth, prune, gain).value, variants)
    decreases Unused(used, |variants|), 2
  {
    var t := Id3(used, data, variants, outcomes, depth, prune, gain).value;
    if t.attr.None? {
      LeafShape(used, data, variants, outcomes, depth, prune, gain);
    } else if t.outcome.None? {
      SplitKeys(used, data, variants, outcomes, depth, prune, gain);
      ChildrenAnswer(used, data, variants, outcomes, depth, prune, gain);
    }
  }

  /** The children of a split node are keyed by the variants of its attribute. */
  lemma SplitKeys(used: set<nat>, data: seq<Record>, variants: seq<seq<string>>,
                  outcomes: seq<string>, depth: nat, prune: Option<nat>, gain: Scorer)
    requires UniformWidth(data, |variants|)
    requires Id3(used, data, variants, outcomes, depth, prune, gain).Ok?
    requires Id3(used, data, variants, outcomes, depth, prune, gain).value.attr.Some?
    ensures var t := Id3(used, data, variants, outcomes, depth, prune, gain).value;
            t.attr.value < |variants| && Keys(t.children) == variants[t.attr.value]
  {
    SplitShape(used, data, variants, outcomes, depth, prune, gain);
  }

  lemma {:induction false} ChildrenAnswer(used: set<nat>, data: seq<Record>, variants: seq<seq<string>>,
                                          outcomes: seq<string>, depth: nat, prune: Option<nat>,
                                          gain: Scorer)
    requires UniformWidth(data, |variants|) && UsedInRange(used, |variants|)
    requires OutcomesKnown(data, outcomes)
    requires Id3(used, data, variants, outcomes, depth, prune, gain).Ok?
    requires Id3(used, data, variants, outcomes, depth, prune, gain).value.attr.Some?
    requires Id3(used, data, variants, outcomes, depth, prune, gain).value.outcome.None?
    ensures var t := Id3(used, data, variants, outcomes, depth, prune, gain).value;
            forall i :: 0 <= i < |t.children| ==> Answers(t.children[i].1, variants)
    decreases Unused(used, |variants|), 1
  {
    var t := Id3(used, data, variants, outcomes, depth, prune, gain).value;
    var b := t.attr.value;
    forall i | 0 <= i < |t.children|
      ensures Answers(t.children[i].1, variants)
    {
      SplitChild(used, data, variants, outcomes, depth, prune, gain, i);
      NotStarved(used, data, variants, outcomes, depth, prune, gain, i);
      var s := Subset(data, b, variants[b][i]);
      SubsetKeeps(data, b, variants[b][i], |variants|, outcomes);
      SubtreeAnswers(used, b, s, variants, outcomes, depth + 1, prune, gain);
    }
  }

  /** A split node without an outcome has records behind every variant. */
  lemma NotStarved(used: set<nat>, data: seq<Record>, variants: seq<seq<string>>,
                   outcomes: seq<string>, depth: nat, prune: Option<nat>, gain: Scorer, i: nat)
    requires UniformWidth(data, |variants|)
    requires Id3(used, data, variants, outcomes, depth, prune, gain).Ok?
    requires Id3(used, data, variants, outcomes, depth, prune, gain).value.attr.Some?
    requires Id3(used, data, variants, outcomes, depth, prune, gain).value.outcome.None?
    requires var t := Id3(used, data, variants, outcomes, depth, prune, gain).value;
             t.attr.value < |variants| && i < |variants[t.attr.value]|
    ensures var b := Id3(used, data, variants, outcomes, depth, prune, gain).value.attr.value;
            Subset(data, b, variants[b][i]) != []
  {
    SplitShape(used, data, variants, outcomes, depth, prune, gain);
    var b := Id3(used, data, variants, outcomes, depth, prune, gain).value.attr.value;
    assert variants[b][i] in variants[b];
  }

  lemma {:induction false} SubtreeAnswers(used: set<nat>, b: nat, s: seq<Record>, variants: seq<seq<string>>,
                                          outcomes: seq<string>, depth: nat, prune: Option<nat>,
                                          gain: Scorer)
    requires UniformWidth(s, |variants|) && |s| > 0 && OutcomesKnown(s, outcomes)
    requires UsedInRange(used, |variants|) && b < |variants| && b !in used
    ensures Id3(used + {b}, s, variants, outcomes, depth, prune, gain).Ok?
    ensures Answers(Id3(used + {b}, s, variants, outcomes, depth, prune, gain).value, variants)
    decreases Unused(used, |variants|), 0
  {
    UnusedShrinks(used, b, |variants|);
    Id3Answers(used + {b}, s, variants, outcomes, depth, prune, gain);
  }

  /** A tree built from non-empty data with known labels never fails `eval`
      on a row whose values lie in the variant universe: no missing child,
      no node without attribute and outcome. */
  lemma Id3NeverFailsEval(data: seq<Record>, variants: seq<seq<string>>, outcomes: seq<string>,
                          prune: Option<nat>, gain: Scorer, attrs: seq<string>)
    requires UniformWidth(data, |variants|)
    requires |data| > 0 && OutcomesKnown(data, outcomes)
    requires InUniverse(attrs, variants)
    ensures Id3({}, data, variants, outcomes, 0, prune, gain).Ok?
    ensures Eval(Id3({}, data, variants, outcomes, 0, prune, gain).value, attrs).Ok?
  {
    Id3Answers({}, data, variants, outcomes, 0, prune, gain);
    AnswersEval(Id3({}, data, variants, outcomes, 0, prune, gain).value, variants, attrs);
  }

  /** Every label stored in a tree built from non-empty data is the label of
      one of its records: majority leaves, fallback outcomes and leaves of
      exhausted attributes all come from the data. */
  lemma {:induction false} Id3Labels(used: set<nat>, data: seq<Record>, variants: seq<seq<string>>,
                                     outcomes: seq<string>, depth: nat, prune: Option<nat>,
                                     gain: Scorer)
    requires UniformWidth(data, |variants|) && |data| > 0
    requires Id3(used, data, variants, outcomes, depth, prune, gain).Ok?
    ensures Labels(Id3(used, data, variants, outcomes, depth, prune, gain).value) <= OutcomeSet(data)
    decreases Unused(used, |variants|), 1
  {
    var t := Id3(used, data, variants, outcomes, depth, prune, gain).value;
    if t.attr.None? {
      LeafShape(used, data, variants, outcomes, depth, prune, gain);
      if t.outcome.Some? {
        CountedIsLabel(data, t.outcome.value);
      }
    } else {
      var b := t.attr.value;
      SplitFallback(used, data, variants, outcomes, depth, prune, gain);
      assert data[0] in data;
      forall i | 0 <= i < |t.children|
        ensures Labels(t.children[i].1) <= OutcomeSet(data)
      {
        SplitChild(used, data, variants, outcomes, depth, prune, gain, i);
        var s := Subset(data, b, variants[b][i]);
        SubsetKeeps(data, b, variants[b][i], |variants|, outcomes);
        if s != [] {
          SubtreeLabels(used, b, s, variants, outcomes, depth + 1, prune, gain);
          assert OutcomeSet(s) <= OutcomeSet(data);
        }
      }
    }
    LabelsWithin(t, OutcomeSet(data));
  }

  lemma CountedIsLabel(data: seq<Record>, o: string)
    requires Count(data, o) > 0
    ensures o in OutcomeSet(data)
  {
    var r :| r in data && r.outcome == o;
  }

  /** The outcome of a split node, when it has one, is the first record's label. */
  lemma SplitFallback(used: set<nat>, data: seq<Record>, variants: seq<seq<string>>,
                      outcomes: seq<string>, depth: nat, prune: Option<nat>, gain: Scorer)
    requires UniformWidth(data, |variants|)
    requires Id3(used, data, variants, outcomes, depth, prune, gain).Ok?
    requires Id3(used, data, variants, outcomes, depth, prune, gain).value.attr.Some?
    ensures var t := Id3(used, data, variants, outcomes, depth, prune, gain).value;
            |data| > 0 && (t.outcome.Some? ==> t.outcome.value == data[0].outcome)
  {
    SplitShape(used, data, variants, outcomes, depth, prune, gain);
  }

  lemma {:induction false} SubtreeLabels(used: set<nat>, b: nat, s: seq<Record>, variants: seq<seq<string>>,
                                         outcomes: seq<string>, depth: nat, prune: Option<nat>,
                                         gain: Scorer)
    requires UniformWidth(s, |variants|) && |s| > 0 && b < |variants| && b !in used
    ensures Id3(used + {b}, s, variants, outcomes, depth, prune, gain).Ok? ==>
            Labels(Id3(used + {b}, s, variants, outcomes, depth, prune, gain).value) <= OutcomeSet(s)
    decreases Unused(used, |variants|), 0
  {
    if Id3(used + {b}, s, variants, outcomes, depth, prune, gain).Ok? {
      UnusedShrinks(used, b, |variants|);
      Id3Labels(used + {b}, s, variants, outcomes, depth, prune, gain);
    }
  }

  /** A tree built from data that all carries label `o` answers `o` to every
      row it answers at all, though it may still split. */
  lemma PureDataAnswersItsLabel(data: seq<Record>, variants: seq<seq<string>>, outcomes: seq<string>,
                                prune: Option<nat>, gain: Scorer, o: string, attrs: seq<string>)
    requires UniformWidth(data, |variants|) && |data| > 0
    requires forall r :: r in data ==> r.outcome == o
    requires Id3({}, data, variants, outcomes, 0, prune, gain).Ok?
    ensures Eval(Id3({}, data, variants, outcomes, 0, prune, gain).value, attrs).Ok? ==>
            Eval(Id3({}, data, variants, outcomes, 0, prune, gain).value, attrs) == Ok(o)
  {
    Id3Labels({}, data, variants, outcomes, 0, prune, gain);
  }

  /** Whether a depth bound `h` is guaranteed: by the prune depth, when the
      node sits at or above it, or by the attributes still unused. */
  predicate DepthBudget(used: set<nat>, n: nat, depth: nat, prune: Option<nat>, h: nat) {
    (prune.Some? && depth <= prune.value && prune.value <= depth + h) ||
    (UsedInRange(used, n) && n <= |used| + h)
  }

  /** A split at a node within budget `h` leaves budget `h - 1` below it. */
  lemma BudgetStep(used: set<nat>, n: nat, depth: nat, prune: Option<nat>, h: nat, b: nat)
    requires DepthBudget(used, n, depth, prune, h)
    requires b < n && b !in used && |used| != n && prune != Some(depth)
    ensures h > 0 && DepthBudget(used + {b}, n, depth + 1, prune, h - 1)
  {
    if prune.Some? && depth <= prune.value <= depth + h {
      assert prune.value != depth;
    } else {
      UnusedExists(used, n);
    }
  }

  lemma {:induction false} Id3Depth(used: set<nat>, data: seq<Record>, variants: seq<seq<string>>,
                                    outcomes: seq<string>, depth: nat, prune: Option<nat>,
                                    gain: Scorer, h: nat)
    requires UniformWidth(data, |variants|)
    requires DepthBudget(used, |variants|, depth, prune, h)
    requires Id3(used, data, variants, outcomes, depth, prune, gain).Ok?
    ensures WithinDepth(Id3(used, data, variants, outcomes, depth, prune, gain).value, h)
    decreases Unused(used, |variants|), 2, 0
  {
    var t := Id3(used, data, variants, outcomes, depth, prune, gain).value;
    if t.attr.None? {
      LeafShape(used, data, variants, outcomes, depth, prune, gain);
    } else {
      var b := t.attr.value;
      SplitIsSplitOn(used, data, variants, outcomes, depth, prune, gain);
      BudgetStep(used, |variants|, depth, prune, h, b);
      ChildrenDepth(variants[b], b, used, data, variants, outcomes, depth, prune, gain, h - 1);
      assert t.children == Children(variants[b], b, used, data, variants, outcomes, depth, prune, gain).value;
    }
  }

  /** Every child the loop over the variants builds stays within budget. */
  lemma {:induction false} ChildrenDepth(keys: seq<string>, b: nat, used: set<nat>, data: seq<Record>,
                                         variants: seq<seq<string>>, outcomes: seq<string>, depth: nat,
                                         prune: Option<nat>, gain: Scorer, h: nat)
    requires UniformWidth(data, |variants|) && b < |variants| && b !in used
    requires DepthBudget(used + {b}, |variants|, depth + 1, prune, h)
    requires Children(keys, b, used, data, variants, outcomes, depth, prune, gain).Ok?
    ensures var cs := Children(keys, b, used, data, variants, outcomes, depth, prune, gain).value;
            forall i :: 0 <= i < |cs| ==> WithinDepth(cs[i].1, h)
    decreases Unused(used, |variants|), 1, |keys|
  {
    if keys != [] {
      ChildDepth(keys[0], b, used, data, variants, outcomes, depth, prune, gain, h);
      ChildrenDepth(keys[1..], b, used, data, variants, outcomes, depth, prune, gain, h);
    }
  }

  lemma {:induction false} ChildDepth(key: string, b: nat, used: set<nat>, data: seq<Record>,
                                      variants: seq<seq<string>>, outcomes: seq<string>, depth: nat,
                                      prune: Option<nat>, gain: Scorer, h: nat)
    requires UniformWidth(data, |variants|) && b < |variants| && b !in used
    requires DepthBudget(used + {b}, |variants|, depth + 1, prune, h)
    requires Child(key, b, used, data, variants, outcomes, depth, prune, gain).Ok?
    ensures WithinDepth(Child(key, b, used, data, variants, outcomes, depth, prune, gain).value, h)
    decreases Unused(used, |variants|), 0, 0
  {
    var s := Subset(data, b, key);
    if s != [] {
      UnusedShrinks(used, b, |variants|);
      SubsetKeeps(data, b, key, |variants|, outcomes);
      Id3Depth(used + {b}, s, variants, outcomes, depth + 1, prune, gain, h);
    }
  }

  /** With `prune = Some(p)` and a start at depth `d <= p`, no node is built
      below depth `p`: the tree is at most `p - d` levels deep. */
  lemma PruneBoundsDepth(used: set<nat>, data: seq<Record>, variants: seq<seq<string>>,
                         outcomes: seq<string>, depth: nat, p: nat, gain: Scorer, h: nat)
    requires UniformWidth(data, |variants|) && depth <= p <= depth + h
    requires Id3(used, data, variants, outcomes, depth, Some(p), gain).Ok?
    ensures WithinDepth(Id3(used, data, variants, outcomes, depth, Some(p), gain).value, h)
  {
    assert DepthBudget(used, |variants|, depth, Some(p), h);
    Id3Depth(used, data, variants, outcomes, depth, Some(p), gain, h);
  }

  /** Each level of the tree consumes one attribute, so a tree is at most as
      deep as the number of attributes still unused at its root. */
  lemma AttributesBoundDepth(used: set<nat>, data: seq<Record>, variants: seq<seq<string>>,
                             outcomes: seq<string>, depth: nat, prune: Option<nat>, gain: Scorer,
                             h: nat)
    requires UniformWidth(data, |variants|) && UsedInRange(used, |variants|)
    requires |variants| <= |used| + h
    requires Id3(used, data, variants, outcomes, depth, prune, gain).Ok?
    ensures WithinDepth(Id3(used, data, variants, outcomes, depth, prune, gain).value, h)
  {
    assert DepthBudget(used, |variants|, depth, prune, h);
    Id3Depth(used, data, variants, outcomes, depth, prune, gain, h);
  }

  /** A split that leaves some variant without records gives the node the
      first record's label, which `eval` returns before looking at any
      child: every row gets that label and the split is never consulted. */
  lemma StarvedSplitAnswersFirstLabel(used: set<nat>, data: seq<Record>, variants: seq<seq<string>>,
                                      outcomes: seq<string>, depth: nat, prune: Option<nat>,
                                      gain: Scorer, attrs: seq<string>)
    requires UniformWidth(data, |variants|)
    requires Id3(used, data, variants, outcomes, depth, prune, gain).Ok?
    requires var t := Id3(used, data, variants, outcomes, depth, prune, gain).value;
             t.attr.Some? && t.attr.value < |variants| &&
             exists v :: v in variants[t.attr.value] && Subset(data, t.attr.value, v) == []
    ensures |data| > 0
    ensures Eval(Id3(used, data, variants, outcomes, depth, prune, gain).value, attrs) == Ok(data[0].outcome)
  {
    SplitShape(used, data, variants, outcomes, depth, prune, gain);
  }

  /** At a split node without a fallback outcome, a row whose value at the
      split attribute is not among that attribute's variants is reported as
      an error, never given a guessed label. */
  lemma UnseenValueIsReported(used: set<nat>, data: seq<Record>, variants: seq<seq<string>>,
                              outcomes: seq<string>, depth: nat, prune: Option<nat>,
                              gain: Scorer, attrs: seq<string>, expected: string)
    requires UniformWidth(data, |variants|)
    requires Id3(used, data, variants, outcomes, depth, prune, gain).Ok?
    requires var t := Id3(used, data, variants, outcomes, depth, prune, gain).value;
             t.outcome.None? && t.attr.Some? && t.attr.value < |attrs| && t.attr.value < |variants| &&
             attrs[t.attr.value] !in variants[t.attr.value]
    ensures var t := Id3(used, data, variants, outcomes, depth, prune, gain).value;
            Eval(t, attrs) == Err(NoMatchingVariant(attrs[t.attr.value])) &&
            Test(t, attrs, expected) == Err(NoMatchingVariant(attrs[t.attr.value]))
  {
    SplitShape(used, data, variants, outcomes, depth, prune, gain);
  }

  /** The fallback outcome of a starved split hides the split even from the
      training rows: from two consistent records on one attribute whose
      universe also holds an unseen value, the tree answers the second
      record with the first record's label. */
  lemma StarvedSplitMisclassifiesTrainingRow(gain: Scorer)
    ensures var data := [Record(["x"], "yes"), Record(["z"], "no")];
            var t := Id3({}, data, [["x", "y", "z"]], ["yes", "no"], 0, None, gain);
            t.Ok? && t.value.attr == Some(0) &&
            Eval(t.value, data[1].attrs) == Ok("yes") && data[1].outcome == "no"
  {
    var data := [Record(["x"], "yes"), Record(["z"], "no")];
    var variants := [["x", "y", "z"]];
    StarvedExampleSplits(gain);
    assert "y" in variants[0];
    StarvedSplitAnswersFirstLabel({}, data, variants, ["yes", "no"], 0, None, gain, data[1].attrs);
  }

  lemma StarvedExampleSplits(gain: Scorer)
    ensures var data := [Record(["x"], "yes"), Record(["z"], "no")];
            var t := Id3({}, data, [["x", "y", "z"]], ["yes", "no"], 0, None, gain);
            UniformWidth(data, 1) && t.Ok? && t.value.attr == Some(0) && Subset(data, 0, "y") == []
  {
    var data := [Record(["x"], "yes"), Record(["z"], "no")];
    var variants := [["x", "y", "z"]];
    assert UniformWidth(data, |variants|);
    assert OutcomesKnown(data, ["yes", "no"]);
    assert MaxByLast(Gains(data, 1, gain)[..0], {}) == None;
    assert BestAttr(data, variants, {}, gain) == Some(0);
    assert Subset(data[1..], 0, "y") == [];
  }
}
