/** The training run of src/main.rs end to end: parsed records, their
    universes, a sample of training rows, the tree built from them, and the
    queries made with it. */
module Pipeline {
  import opened Wrappers
  import opened Dataset
  import opened Tree
  import opened Induction
  import opened Id3Properties
  import opened Loader

  /** Training on any non-empty sample of a well-formed dataset succeeds,
      and the tree then classifies every record of the dataset, in
      particular every held-out one, with a label seen in the sample; the
      success count of src/main.rs:178-184 and 207-213 is therefore a count of
      agreements, never interrupted by a panic. */
  lemma TrainedTreeClassifiesEveryRow(data: seq<Record>, u: Universe, picks: seq<nat>,
                                      prune: Option<nat>, term: nat -> real)
    requires Describes(data, u) && UniformWidth(data, |u.variants|)
    requires picks != [] && forall k :: 0 <= k < |picks| ==> picks[k] < |data|
    ensures Id3({}, TrainingData(data, picks), u.variants, u.outcomes, 0, prune, InformationGainOf(u.variants, u.outcomes, term)).Ok?
    ensures forall k :: 0 <= k < |data| ==>
              var t := Id3({}, TrainingData(data, picks), u.variants, u.outcomes, 0, prune, InformationGainOf(u.variants, u.outcomes, term)).value;
              Eval(t, data[k].attrs).Ok? &&
              Eval(t, data[k].attrs).value in OutcomeSet(TrainingData(data, picks)) &&
              Test(t, data[k].attrs, data[k].outcome) == Ok(Eval(t, data[k].attrs).value == data[k].outcome)
  {
    var train := TrainingData(data, picks);
    UniverseCoversData(data, u);
    assert UniformWidth(train, |u.variants|);
    assert OutcomesKnown(train, u.outcomes);
    var t := Id3({}, train, u.variants, u.outcomes, 0, prune, InformationGainOf(u.variants, u.outcomes, term));
    Id3Answers({}, train, u.variants, u.outcomes, 0, prune, InformationGainOf(u.variants, u.outcomes, term));
    Id3Labels({}, train, u.variants, u.outcomes, 0, prune, InformationGainOf(u.variants, u.outcomes, term));
    forall k | 0 <= k < |data|
      ensures Eval(t.value, data[k].attrs).Ok? && Eval(t.value, data[k].attrs).value in OutcomeSet(train)
      ensures Test(t.value, data[k].attrs, data[k].outcome) == Ok(Eval(t.value, data[k].attrs).value == data[k].outcome)
    {
      AnswersEval(t.value, u.variants, data[k].attrs);
      TestAgreesWithEval(t.value, data[k].attrs, data[k].outcome);
    }
  }
}
