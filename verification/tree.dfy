/** The decision tree and its two queries, `Node::eval` and `Node::test`
    (src/algorithm.rs:109-154). */
module Tree {
  import opened Wrappers
  import opened Dataset

  /** A tree node: the attribute it splits on, one child per variant of that
      attribute keyed by the variant, the attributes used on the path from the
      root (construction bookkeeping only), and the outcome label. A node built
      from a starved split carries both `attr` and `outcome`. */
  datatype Node = Node(attr: Option<nat>, children: seq<(string, Node)>,
                       used: set<nat>, outcome: Option<string>)

  /** `Node::default()` with its used-attribute set filled in. */
  function EmptyNode(used: set<nat>): Node {
    Node(None, [], used, None)
  }

  /** Why a query aborts: the split attribute is past the end of the row
      (the index at src/algorithm.rs:123 and 141), no child carries the row's
      value (the `expect` at 127 and 145), or `eval` reached a node with
      neither attribute nor outcome (the `panic!` at 152). */
  datatype QueryError =
    | AttrOutOfRange(attr: nat)
    | NoMatchingVariant(value: string)
    | NoOutcomeNoAttribute

  /** The child keys, in child order. */
  function Keys(cs: seq<(string, Node)>): seq<string> {
    seq(|cs|, i requires 0 <= i < |cs| => cs[i].0)
  }

  /** Every outcome label stored anywhere in the tree. */
  function Labels(n: Node): set<string>
    decreases n
  {
    (if n.outcome.Some? then {n.outcome.value} else {})
      + (set i, o | 0 <= i < |n.children| && o in Labels(n.children[i].1) :: o)
  }

  /** A bound on the labels of a node follows from bounds on its own outcome
      and on the labels of each child. */
  lemma LabelsWithin(n: Node, bound: set<string>)
    requires n.outcome.Some? ==> n.outcome.value in bound
    requires forall i :: 0 <= i < |n.children| ==> Labels(n.children[i].1) <= bound
    ensures Labels(n) <= bound
  {
  }

  /** `Node::eval`: a present outcome answers at once; otherwise the walk
      follows the first child whose key is the row's value at `attr`. */
  function Eval(n: Node, attrs: seq<string>): (r: Result<string, QueryError>)
    ensures r.Ok? ==> r.value in Labels(n)
    decreases n
  {
    match n.outcome
    case Some(o) => Ok(o)
    case None =>
      match n.attr
      case None => Err(NoOutcomeNoAttribute)
      case Some(a) =>
        if a >= |attrs| then Err(AttrOutOfRange(a))
        else
          var ks := Keys(n.children);
          if attrs[a] !in ks then Err(NoMatchingVariant(attrs[a]))
          else
            var i := IndexOf(ks, attrs[a]);
            Eval(n.children[i].1, attrs)
  }

  /** `Node::test`: the walk of `Eval`, comparing the outcome it reaches with
      `expected`; a node with neither attribute nor outcome answers `false`. */
  function Test(n: Node, attrs: seq<string>, expected: string): Result<bool, QueryError>
    decreases n
  {
    match n.outcome
    case Some(o) => Ok(o == expected)
    case None =>
      match n.attr
      case None => Ok(false)
      case Some(a) =>
        if a >= |attrs| then Err(AttrOutOfRange(a))
        else
          var ks := Keys(n.children);
          if attrs[a] !in ks then Err(NoMatchingVariant(attrs[a]))
          else
            var i := IndexOf(ks, attrs[a]);
            Test(n.children[i].1, attrs, expected)
  }

  /** The tree as the JSON file stores it: `used_attrs` is skipped by serde
      and comes back empty. */
  function WithoutUsed(n: Node): Node
    decreases n
  {
    Node(n.attr,
         seq(|n.children|, i requires 0 <= i < |n.children| =>
               (n.children[i].0, WithoutUsed(n.children[i].1))),
         {}, n.outcome)
  }

  /** Every node `Eval` can reach on a row of the universe either has an
      outcome, or splits on an attribute of the universe and has a child for
      each of its variants. */
  predicate Answers(t: Node, variants: seq<seq<string>>)
    decreases t
  {
    t.outcome.Some? ||
    (t.attr.Some? && t.attr.value < |variants| &&
     (forall v :: v in variants[t.attr.value] ==> v in Keys(t.children)) &&
     forall i :: 0 <= i < |t.children| ==> Answers(t.children[i].1, variants))
  }

  /** No node lies more than `h` levels below `t`. */
  predicate WithinDepth(t: Node, h: nat)
    decreases t
  {
    forall i :: 0 <= i < |t.children| ==> h > 0 && WithinDepth(t.children[i].1, h - 1)
  }

  /** `test` is `eval` followed by a comparison: it agrees with `eval`
      wherever `eval` answers, answers `false` where `eval` finds a node with
      neither attribute nor outcome, and fails with `eval`'s error otherwise. */
  lemma {:induction false} TestAgreesWithEval(n: Node, attrs: seq<string>, expected: string)
    ensures Eval(n, attrs).Ok? ==> Test(n, attrs, expected) == Ok(Eval(n, attrs).value == expected)
    ensures Eval(n, attrs) == Err(NoOutcomeNoAttribute) ==> Test(n, attrs, expected) == Ok(false)
    ensures Eval(n, attrs).Err? && Eval(n, attrs).error != NoOutcomeNoAttribute
            ==> Test(n, attrs, expected) == Err(Eval(n, attrs).error)
    decreases n
  {
    if n.outcome.None? && n.attr.Some? {
      var a := n.attr.value;
      if a < |attrs| && attrs[a] in Keys(n.children) {
        var i := IndexOf(Keys(n.children), attrs[a]);
        TestAgreesWithEval(n.children[i].1, attrs, expected);
      }
    }
  }

  /** Queries never read `used_attrs`: the tree reloaded from its JSON form
      answers every `eval` and `test` exactly as the tree that was saved. */
  lemma {:induction false} QueriesIgnoreUsed(n: Node, attrs: seq<string>, expected: string)
    ensures Eval(WithoutUsed(n), attrs) == Eval(n, attrs)
    ensures Test(WithoutUsed(n), attrs, expected) == Test(n, attrs, expected)
    decreases n
  {
    var m := WithoutUsed(n);
    assert Keys(m.children) == Keys(n.children);
    if n.outcome.None? && n.attr.Some? {
      var a := n.attr.value;
      if a < |attrs| && attrs[a] in Keys(n.children) {
        var i := IndexOf(Keys(n.children), attrs[a]);
        QueriesIgnoreUsed(n.children[i].1, attrs, expected);
      }
    }
  }

  /** On a tree that `Answers` for the universe, `eval` never fails on a row
      whose values lie in the universe. */
  lemma {:induction false} AnswersEval(t: Node, variants: seq<seq<string>>, attrs: seq<string>)
    requires Answers(t, variants)
    requires InUniverse(attrs, variants)
    ensures Eval(t, attrs).Ok?
    decreases t
  {
    if t.outcome.None? {
      var a := t.attr.value;
      assert attrs[a] in variants[a];
      var i := IndexOf(Keys(t.children), attrs[a]);
      AnswersEval(t.children[i].1, variants, attrs);
    }
  }
}
