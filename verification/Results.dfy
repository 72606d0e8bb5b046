/** Canonical answers and their validators. */
module Results {
  import opened Wrappers
  import opened Text
  import opened Json
  import opened Questions
  import opened Registry
  import opened Dicts

  const SUM_TOLERANCE: real := 0.00001

  datatype AbstainReason = InsufficientEvidence | ProviderRefusal | ContentFilter

  datatype Answer =
    | NoulAnswer(noul: Option<real>, value: Option<bool>, confidence: Option<real>)
    | ChoiceAnswer(choice: string, confidence: Option<real>, probabilities: Option<Dict<real>>)
    | ScoreAnswer(score: real, confidence: Option<real>, legend: Dict<Json>, probabilities: Option<Dict<real>>)
    | AbstainAnswer(
        reason: AbstainReason, source: QuestionType, confidence: Option<real>, probabilities: Option<Dict<real>>,
        explanation: Option<Dict<Json>>)

  predicate Probability(p: real) {
    0.0 <= p <= 1.0
  }

  predicate MaybeProbability(p: Option<real>) {
    p.Some? ==> Probability(p.value)
  }

  function Sum(s: seq<real>): real {
    if s == [] then 0.0 else s[0] + Sum(s[1..])
  }

  predicate Keyed<T>(d: Dict<T>) {
    d != [] && Distinct(Keys(d)) && forall k | k in Keys(d) :: !Blank(k)
  }

  /** A dict of probabilities that sums to one within the tolerance. */
  predicate Distribution(d: Dict<real>) {
    && Keyed(d)
    && (forall p | p in Values(d) :: Probability(p))
    && -SUM_TOLERANCE <= Sum(Values(d)) - 1.0 <= SUM_TOLERANCE
  }

  predicate Legend(d: Dict<Json>) {
    Keyed(d) && Admissible(Json.Dict(Keys(d), Values(d)))
  }

  predicate SameKeys<S, T>(a: Dict<S>, b: Dict<T>) {
    (forall k | k in Keys(a) :: k in Keys(b)) && forall k | k in Keys(b) :: k in Keys(a)
  }

  /** What the answer models accept; constructing anything else raises a ValidationError. */
  predicate ValidAnswer(a: Answer) {
    match a
    case NoulAnswer(noul, value, confidence) =>
      && MaybeProbability(noul) && MaybeProbability(confidence)
      && (if noul.Some? then value.None? && confidence.None? else value.Some?)
    case ChoiceAnswer(choice, confidence, probabilities) =>
      && !Blank(choice) && MaybeProbability(confidence)
      && (probabilities.Some? ==>
            confidence.Some? && choice in Keys(probabilities.value) && Distribution(probabilities.value))
    case ScoreAnswer(_, confidence, legend, probabilities) =>
      && MaybeProbability(confidence) && Legend(legend)
      && (probabilities.Some? ==>
            confidence.Some? && SameKeys(legend, probabilities.value) && Distribution(probabilities.value))
    case AbstainAnswer(_, _, confidence, probabilities, explanation) =>
      && MaybeProbability(confidence) && (explanation.Some? ==> Legend(explanation.value))
      && (if confidence.Some? && probabilities.Some? then
            && Get(probabilities.value, ABSTAIN_ANSWER_ID) == confidence
            && Distribution(probabilities.value)
            && (explanation.Some? ==> SameKeys(explanation.value, probabilities.value))
          else confidence.None? && probabilities.None? && explanation.None?)
  }
}
