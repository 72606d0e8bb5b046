/** What the RLCD backend answers, end to end. */
module RlcdAnswers {
  import opened Wrappers
  import opened Text
  import opened Json
  import opened Questions
  import opened Validation
  import opened Registry
  import opened Prompt
  import opened Dicts
  import opened Results
  import opened Calibration
  import opened Rlcd

  // ---- Candidate ids ----------------------------------------------------------------------

  predicate GoodIds(ids: seq<string>) {
    && ids != [] && Distinct(ids) && ids[|ids| - 1] == ABSTAIN_ANSWER_ID
    && forall id | id in ids :: !Blank(id)
  }

  lemma DecimalId(n: nat)
    ensures !Blank(Decimal(n)) && Decimal(n) != ABSTAIN_ANSWER_ID
  {
    DecimalDigits(n);
    DecimalDenotes(n);
    var d := Decimal(n);
    assert d[0] in d && ABSTAIN_ANSWER_ID[0] == '_';
    assert !IsSpace(d[0]);
  }

  lemma AbstainIdUsable()
    ensures !Blank(ABSTAIN_ANSWER_ID)
  {
    assert ABSTAIN_ANSWER_ID[0] == '_' && !IsSpace('_');
  }

  lemma NoulIdsGood()
    ensures GoodIds(["true", "false", ABSTAIN_ANSWER_ID])
  {
    AbstainIdUsable();
    assert ABSTAIN_ANSWER_ID[0] == '_' && "true"[0] == 't' && "false"[0] == 'f';
  }

  lemma ChoiceIdsGood(keys: seq<string>)
    requires Distinct(keys) && forall k | k in keys :: !Blank(k) && k != ABSTAIN_ANSWER_ID
    ensures GoodIds(keys + [ABSTAIN_ANSWER_ID])
  {
    AbstainIdUsable();
    var ids := keys + [ABSTAIN_ANSWER_ID];
    forall i, j | 0 <= i < j < |ids|
      ensures ids[i] != ids[j]
    {
      assert ids[i] == keys[i] && keys[i] in keys;
    }
  }

  function Decimals(n: nat): (ids: seq<string>)
    ensures |ids| == n && forall i :: 0 <= i < n ==> ids[i] == Decimal(i)
  {
    seq(n, i requires i >= 0 => Decimal(i))
  }

  lemma ScoreIdsGood(n: nat)
    ensures GoodIds(Decimals(n) + [ABSTAIN_ANSWER_ID])
  {
    var keys := Decimals(n);
    forall k | k in keys
      ensures !Blank(k) && k != ABSTAIN_ANSWER_ID
    {
      var i :| 0 <= i < n && keys[i] == k;
      DecimalId(i);
    }
    forall i, j | 0 <= i < j < n
      ensures keys[i] != keys[j]
    {
      if Decimal(i) == Decimal(j) { DecimalInjective(i, j); }
    }
    ChoiceIdsGood(keys);
  }

  lemma IdsOfCandidates(q: Question, render: Rendering)
    requires ValidQuestion(q)
    ensures
      Ids(CandidateList(q, render)) ==
      match q
      case Noul(_, _) => ["true", "false", ABSTAIN_ANSWER_ID]
      case Choice(_, keys, _) => keys + [ABSTAIN_ANSWER_ID]
      case Score(_, levels) => Decimals(|levels|) + [ABSTAIN_ANSWER_ID]
  {
  }

  /** Candidate ids are distinct, usable, and end with the abstention's. */
  lemma IdsGood(q: Question, render: Rendering)
    requires ValidQuestion(q) && (q.Choice? ==> forall k | k in q.keys :: k !in RLCD.reservedIds)
    ensures GoodIds(Ids(CandidateList(q, render)))
    ensures |Ids(CandidateList(q, render))| == TotalCandidates(q, RLCD)
  {
    IdsOfCandidates(q, render);
    match q {
      case Noul(_, _) => NoulIdsGood();
      case Choice(_, keys, _) => ChoiceIdsGood(keys);
      case Score(_, levels) => ScoreIdsGood(|levels|);
    }
  }

  // ---- Dicts over distinct keys -----------------------------------------------------------

  lemma ZipColumns<T>(keys: seq<string>, values: seq<T>)
    requires |keys| == |values|
    ensures Keys(Zip(keys, values)) == keys && Values(Zip(keys, values)) == values
  {
  }

  lemma ZipIsDict<T>(keys: seq<string>, values: seq<T>)
    requires |keys| == |values| && Distinct(keys)
    ensures DictOf(Zip(keys, values)) == Zip(keys, values)
    ensures Keys(Zip(keys, values)) == keys && Values(Zip(keys, values)) == values
  {
    ZipColumns(keys, values);
    PutAllEmpty(Zip(keys, values));
  }

  lemma ZipDistribution(keys: seq<string>, probs: seq<real>)
    requires keys != [] && |keys| == |probs| && Distinct(keys) && (forall k | k in keys :: !Blank(k))
    requires Sum(probs) == 1.0 && forall i :: 0 <= i < |probs| ==> Probability(probs[i])
    ensures Distribution(DictOf(Zip(keys, probs)))
  {
    ZipIsDict(keys, probs);
  }

  /** The criteria as the JSON value they were admitted as. */
  function CriteriaJson(q: Question): Json
    requires !q.Noul?
  {
    if q.Choice? then Json.Dict(q.keys, q.values) else List(q.levels)
  }

  function CriteriaItems(q: Question): seq<Json>
    requires !q.Noul?
  {
    if q.Choice? then q.values else q.levels
  }

  /** Criteria that use up the node limit, so that an abstention's legend would pass it. */
  predicate Overfull(q: Question) {
    !q.Noul? && Nodes(CriteriaJson(q)) == MAX_JSON_NODES
  }

  lemma LegendIsZip(q: Question, render: Rendering)
    requires ValidQuestion(q) && !q.Noul?
    ensures
      var ids := Ids(CandidateList(q, render));
      var last := |ids| - 1;
      && |CriteriaItems(q)| == last
      && LegendPairs(q) == Zip(ids[..last], CriteriaItems(q))
      && LegendPairs(q) + [(ABSTAIN_ANSWER_ID, Str(ABSTENTION_DESCRIPTION))] ==
         Zip(ids, CriteriaItems(q) + [Str(ABSTENTION_DESCRIPTION)])
  {
  }

  lemma CriteriaSize(q: Question)
    requires ValidQuestion(q) && !q.Noul?
    ensures 1 + NodesAll(CriteriaItems(q)) == Nodes(CriteriaJson(q)) <= MAX_JSON_NODES
    ensures 1 <= HeightAll(CriteriaItems(q)) <= MAX_JSON_DEPTH
  {
    HeightOfChild(CriteriaItems(q), 0);
  }

  /** The legend of an abstention is admissible unless the criteria are overfull: it has one node more. */
  lemma AbstentionLegend(q: Question, render: Rendering)
    requires ValidQuestion(q) && !q.Noul? && GoodIds(Ids(CandidateList(q, render)))
    ensures
      var ids := Ids(CandidateList(q, render));
      var legend := DictOf(LegendPairs(q) + [(ABSTAIN_ANSWER_ID, Str(ABSTENTION_DESCRIPTION))]);
      Keys(legend) == ids && (Legend(legend) <==> !Overfull(q))
  {
    var ids, extra := Ids(CandidateList(q, render)), Str(ABSTENTION_DESCRIPTION);
    var items := CriteriaItems(q);
    LegendIsZip(q, render);
    ZipIsDict(ids, items + [extra]);
    CriteriaSize(q);
    NodesAppend(items, [extra]);
    HeightAppend(items, [extra]);
    assert NodesAll([extra]) == 1 + NodesAll([]) && HeightAll([extra]) == 1;
  }

  lemma ScoreLegend(q: Question, render: Rendering)
    requires ValidQuestion(q) && !q.Noul? && GoodIds(Ids(CandidateList(q, render)))
    ensures
      var ids := Ids(CandidateList(q, render));
      var legend := DictOf(LegendPairs(q));
      Keys(legend) == ids[..|ids| - 1] && Legend(legend)
  {
    var ids := Ids(CandidateList(q, render));
    LegendIsZip(q, render);
    ZipIsDict(ids[..|ids| - 1], CriteriaItems(q));
    CriteriaSize(q);
  }

  // ---- One answer ---------------------------------------------------------------------------

  /** Conditional probabilities: proportional to the given ones, and a distribution. */
  ghost predicate Conditional(mass: seq<real>, probs: seq<real>) {
    && |mass| == |probs| && Sum(probs) > 0.0 && mass == Divided(probs, Sum(probs))
    && Sum(mass) == 1.0 && forall i :: 0 <= i < |mass| ==> Probability(mass[i])
  }

  /** What the answer says, given the calibrated probabilities and the winner. */
  ghost predicate Describes(q: Question, ids: seq<string>, probs: seq<real>, winner: nat, m: Mapped)
    requires ids != [] && |ids| == |probs| && winner < |probs|
  {
    var last := |ids| - 1;
    && m.full == Zip(ids, probs)
    && if winner == last then
         && m.answer.AbstainAnswer? && m.answer.reason == InsufficientEvidence && m.answer.source == TypeOf(q)
         && m.expected.None?
         && m.answer.confidence == Some(probs[last]) && m.answer.probabilities == Some(m.full)
         && (m.answer.explanation.Some? <==> !q.Noul?)
         && (!q.Noul? ==>
              m.answer.explanation ==
              Some(LegendPairs(q) + [(ABSTAIN_ANSWER_ID, Str(ABSTENTION_DESCRIPTION))]))
       else
         exists mass :: Conditional(mass, probs[..last]) && Given(q, ids[..last], mass, winner, m)
  }

  /** A substantive answer over its conditional probabilities, greatest at the winner. */
  ghost predicate Given(q: Question, ids: seq<string>, mass: seq<real>, winner: nat, m: Mapped)
    requires |ids| == |mass|
  {
    && winner < |mass| && (forall i :: 0 <= i < |mass| ==> mass[i] <= mass[winner])
    && match q
       case Noul(_, _) => m.answer == NoulAnswer(Some(mass[0]), None, None) && m.expected.None?
       case Choice(_, _, _) =>
         m.answer == ChoiceAnswer(ids[winner], Some(mass[winner]), Some(Zip(ids, mass))) && m.expected.None?
       case Score(_, _) =>
         && m.answer == ScoreAnswer(winner as real, Some(mass[winner]), LegendPairs(q), Some(Zip(ids, mass)))
         && m.expected == Some(Expectation(mass)) && 0.0 <= Expectation(mass) <= (|mass| - 1) as real
  }

  lemma Product(n: real, x: real)
    requires n >= 0.0 && x >= 0.0
    ensures n * x >= 0.0
  {
  }

  lemma WeightedStep(n: real, sum: real, x: real, e: real)
    requires e <= (n - 1.0) * sum && sum >= 0.0
    ensures e + n * x <= n * (sum + x)
  {
    assert (n - 1.0) * sum == n * sum - sum;
    assert n * (sum + x) == n * sum + n * x;
  }

  lemma {:induction false} ExpectationNonNegative(mass: seq<real>)
    requires forall i :: 0 <= i < |mass| ==> mass[i] >= 0.0
    ensures 0.0 <= Expectation(mass)
  {
    if mass != [] {
      ExpectationNonNegative(mass[..|mass| - 1]);
      Product((|mass| - 1) as real, mass[|mass| - 1]);
    }
  }

  lemma {:induction false} ExpectationBound(mass: seq<real>)
    requires mass != [] && forall i :: 0 <= i < |mass| ==> mass[i] >= 0.0
    ensures Expectation(mass) <= (|mass| - 1) as real * Sum(mass)
  {
    var init, x := mass[..|mass| - 1], mass[|mass| - 1];
    if init != [] {
      ExpectationBound(init);
      assert mass == init + [x] && Sum([x]) == x + Sum([]);
      SumAppend(init, [x]);
      SumNonNegative(init);
      WeightedStep((|mass| - 1) as real, Sum(init), x, Expectation(init));
    }
  }

  lemma ExpectationWithin(mass: seq<real>)
    requires mass != [] && Sum(mass) == 1.0 && forall i :: 0 <= i < |mass| ==> mass[i] >= 0.0
    ensures 0.0 <= Expectation(mass) <= (|mass| - 1) as real
  {
    ExpectationNonNegative(mass);
    ExpectationBound(mass);
  }

  /** With a distribution that gives abstention this confidence, only the legend can be refused. */
  lemma AbstainValid(source: QuestionType, p: real, full: Dict<real>, legend: Option<Dict<Json>>, fits: bool)
    requires Distribution(full) && Get(full, ABSTAIN_ANSWER_ID) == Some(p) && Probability(p)
    requires if legend.None? then fits else Keys(legend.value) == Keys(full) && (Legend(legend.value) <==> fits)
    ensures ValidAnswer(AbstainAnswer(InsufficientEvidence, source, Some(p), Some(full), legend)) <==> fits
  {
  }

  /** An abstention is accepted by the answer model exactly when its legend is, if it has one. */
  lemma AbstainExact(q: Question, ids: seq<string>, probs: seq<real>, fits: bool)
    requires GoodIds(ids) && |probs| == |ids| && Sum(probs) == 1.0
    requires forall i :: 0 <= i < |probs| ==> Probability(probs[i])
    requires
      if q.Noul? then fits
      else
        var legend := DictOf(LegendPairs(q) + [(ABSTAIN_ANSWER_ID, Str(ABSTENTION_DESCRIPTION))]);
        Keys(legend) == ids && (Legend(legend) <==> fits)
    ensures ValidAnswer(AbstainOf(q, ids, probs)) <==> fits
  {
    var legend :=
      if q.Noul? then None else Some(DictOf(LegendPairs(q) + [(ABSTAIN_ANSWER_ID, Str(ABSTENTION_DESCRIPTION))]));
    FullDistribution(ids, probs);
    AbstainValid(TypeOf(q), probs[|ids| - 1], DictOf(Zip(ids, probs)), legend, fits);
  }

  /** The distribution over all the ids, the abstention's last. */
  lemma FullDistribution(ids: seq<string>, probs: seq<real>)
    requires GoodIds(ids) && |probs| == |ids| && Sum(probs) == 1.0
    requires forall i :: 0 <= i < |probs| ==> Probability(probs[i])
    ensures
      var full := DictOf(Zip(ids, probs));
      Keys(full) == ids && Distribution(full) && Get(full, ABSTAIN_ANSWER_ID) == Some(probs[|ids| - 1])
  {
    ZipIsDict(ids, probs);
    ZipDistribution(ids, probs);
    GetLast(ids, probs);
  }

  lemma GetLast<T>(keys: seq<string>, values: seq<T>)
    requires keys != [] && |keys| == |values| && Distinct(keys)
    ensures Get(DictOf(Zip(keys, values)), keys[|keys| - 1]) == Some(values[|keys| - 1])
  {
    ZipIsDict(keys, values);
    GetAt(Zip(keys, values), |keys| - 1);
  }

  lemma AbstainDescribes(q: Question, render: Rendering, probs: seq<real>)
    requires ValidQuestion(q) && GoodIds(Ids(CandidateList(q, render))) && |probs| == |CandidateList(q, render)|
    ensures
      var ids := Ids(CandidateList(q, render));
      Describes(q, ids, probs, |ids| - 1, Mapped(AbstainOf(q, ids, probs), DictOf(Zip(ids, probs)), None))
  {
    var ids := Ids(CandidateList(q, render));
    ZipIsDict(ids, probs);
    if !q.Noul? {
      LegendIsZip(q, render);
      ZipIsDict(ids, CriteriaItems(q) + [Str(ABSTENTION_DESCRIPTION)]);
    }
  }

  /** The conditional distribution over the substantive ids. */
  lemma SubstantiveMass(ids: seq<string>, probs: seq<real>, winner: nat) returns (mass: seq<real>)
    requires GoodIds(ids) && |probs| == |ids| && winner < |probs| - 1
    requires forall i :: 0 <= i < |probs| ==> Probability(probs[i]) && probs[i] <= probs[winner]
    requires probs[winner] > 0.0
    ensures
      var sub, given := ids[..|ids| - 1], probs[..|ids| - 1];
      && ConditionalMass(given) == Success(mass) && Conditional(mass, given)
      && (forall i :: 0 <= i < |mass| ==> mass[i] <= mass[winner])
      && DictOf(Zip(sub, mass)) == Zip(sub, mass) && Keys(Zip(sub, mass)) == sub && Distribution(Zip(sub, mass))
      && sub[winner] in sub && !Blank(sub[winner])
  {
    var sub, given := ids[..|ids| - 1], probs[..|ids| - 1];
    ConditioningSound(given, winner);
    mass := ConditionalMass(given).value;
    assert forall k | k in sub :: k in ids;
    ZipIsDict(sub, mass);
    ZipDistribution(sub, mass);
    assert sub[winner] in sub;
  }

  /** Usable ids, and for a score the legend over them. */
  ghost predicate SubstantiveIds(q: Question, ids: seq<string>) {
    && Distinct(ids) && (forall k | k in ids :: !Blank(k))
    && (q.Score? ==> var legend := DictOf(LegendPairs(q));
          legend == LegendPairs(q) && Keys(legend) == ids && Legend(legend))
  }

  lemma SubstantiveIdsOf(q: Question, render: Rendering)
    requires ValidQuestion(q) && GoodIds(Ids(CandidateList(q, render)))
    ensures var ids := Ids(CandidateList(q, render)); SubstantiveIds(q, ids[..|ids| - 1])
  {
    var ids := Ids(CandidateList(q, render));
    var sub := ids[..|ids| - 1];
    assert forall k | k in sub :: k in ids;
    if q.Score? {
      ScoreLegend(q, render);
      LegendIsZip(q, render);
      ZipIsDict(sub, CriteriaItems(q));
    }
  }

  /** A substantive answer is always accepted by the answer models. */
  lemma SubstantiveValid(q: Question, ids: seq<string>, mass: seq<real>, winner: nat)
    requires SubstantiveIds(q, ids) && |mass| == |ids| > winner
    requires Sum(mass) == 1.0 && forall i :: 0 <= i < |mass| ==> Probability(mass[i])
    ensures ValidAnswer(SubstantiveOf(q, ids, mass, winner))
  {
    ZipIsDict(ids, mass);
    ZipDistribution(ids, mass);
    assert ids[winner] in ids;
  }

  lemma SubstantiveGiven(q: Question, ids: seq<string>, mass: seq<real>, winner: nat, full: Dict<real>)
    requires SubstantiveIds(q, ids) && |mass| == |ids| > winner
    requires Sum(mass) == 1.0 && forall i :: 0 <= i < |mass| ==> 0.0 <= mass[i] <= mass[winner]
    ensures Given(q, ids, mass, winner,
                  Mapped(SubstantiveOf(q, ids, mass, winner), full, if q.Score? then Some(Expectation(mass)) else None))
  {
    ZipIsDict(ids, mass);
    ExpectationWithin(mass);
  }

  /** The winner is the abstention. */
  lemma MapAbstention(q: Question, ids: seq<string>, probs: seq<real>)
    requires ids != [] && |ids| == |probs|
    ensures
      var a := AbstainOf(q, ids, probs);
      MapAnswer(q, ids, probs, |ids| - 1) ==
      if ValidAnswer(a) then Success(Mapped(a, DictOf(Zip(ids, probs)), None)) else Failure(InvalidAnswer)
  {
  }

  lemma AbstentionExact(q: Question, render: Rendering, logits: seq<real>, probs: seq<real>)
    requires ValidQuestion(q) && GoodIds(Ids(CandidateList(q, render)))
    requires Calibrated(logits, |CandidateList(q, render)|, probs, |CandidateList(q, render)| - 1)
    ensures
      var ids := Ids(CandidateList(q, render));
      var r := MapAnswer(q, ids, probs, |ids| - 1);
      if Overfull(q) then r == Failure(InvalidAnswer)
      else r.Success? && ValidAnswer(r.value.answer) && Describes(q, ids, probs, |ids| - 1, r.value)
  {
    var ids := Ids(CandidateList(q, render));
    if !q.Noul? { AbstentionLegend(q, render); }
    AbstainExact(q, ids, probs, !Overfull(q));
    AbstainDescribes(q, render, probs);
    MapAbstention(q, ids, probs);
  }

  /** The winner is a substantive candidate. */
  lemma SubstantiveExact(q: Question, ids: seq<string>, probs: seq<real>, winner: nat)
    requires GoodIds(ids) && |probs| == |ids| && winner < |ids| - 1 && SubstantiveIds(q, ids[..|ids| - 1])
    requires forall i :: 0 <= i < |probs| ==> Probability(probs[i]) && probs[i] <= probs[winner]
    requires probs[winner] > 0.0
    ensures
      var r := MapAnswer(q, ids, probs, winner);
      r.Success? && ValidAnswer(r.value.answer) && Describes(q, ids, probs, winner, r.value)
  {
    var mass := SubstantiveMass(ids, probs, winner);
    SubstantiveValid(q, ids[..|ids| - 1], mass, winner);
    SubstantiveGiven(q, ids[..|ids| - 1], mass, winner, DictOf(Zip(ids, probs)));
    ZipIsDict(ids, probs);
  }

  /**
   One question over real arithmetic: mapping fails only for an abstention over overfull
   criteria; otherwise the answer is valid and says what the distribution says.
   */
  lemma MapExact(q: Question, render: Rendering, logits: seq<real>, probs: seq<real>, winner: nat)
    requires ValidQuestion(q) && GoodIds(Ids(CandidateList(q, render)))
    requires Calibrated(logits, |CandidateList(q, render)|, probs, winner)
    ensures
      var ids := Ids(CandidateList(q, render));
      var r := MapAnswer(q, ids, probs, winner);
      if winner == |ids| - 1 && Overfull(q) then r == Failure(InvalidAnswer)
      else r.Success? && ValidAnswer(r.value.answer) && Describes(q, ids, probs, winner, r.value)
  {
    if winner == |CandidateList(q, render)| - 1 {
      AbstentionExact(q, render, logits, probs);
    } else {
      SubstantiveIdsOf(q, render);
      SubstantiveExact(q, Ids(CandidateList(q, render)), probs, winner);
    }
  }

  // ---- One question, from logits to answer -------------------------------------------------------

  /** A positive temperature for every supported candidate total. */
  predicate Calibrates(c: Calibrator) {
    forall k | k in RLCD_TOTALS :: k in c.perK && c.perK[k] > 0.0
  }

  /** Of the first k logits the last is strictly above all the others. */
  predicate Abstains(row: seq<real>, k: nat)
    requires 1 <= k <= |row|
  {
    forall i :: 0 <= i < k - 1 ==> row[i] < row[k - 1]
  }

  function Total(q: Question): (k: nat)
    ensures k >= 1
  {
    if q.Noul? then 3 else 1 + if q.Choice? then |q.keys| else |q.levels|
  }

  /** The answer is valid, and is the one that the calibrated distribution of these logits gives. */
  ghost predicate Correct(q: Question, render: Rendering, row: seq<real>, scale: Scale, m: Mapped) {
    && ValidAnswer(m.answer)
    && exists probs, winner: nat ::
         && Calibrated(row, |CandidateList(q, render)|, probs, winner)
         && Softmax(row, |CandidateList(q, render)|, probs, scale)
         && Describes(q, Ids(CandidateList(q, render)), probs, winner, m)
  }

  /** What evaluation cannot answer: an abstention over criteria that use up the node limit. */
  predicate Refused(q: Question, row: seq<real>)
    requires Total(q) <= |row|
  {
    Abstains(row, Total(q)) && Overfull(q)
  }

  ghost predicate Ready(q: Question, state: Json, render: Rendering, row: seq<real>) {
    ValidQuestion(q) && AcceptableQuestion(q, state, RLCD, render) && |row| == LOGIT_WIDTH
  }

  lemma TotalsFit(q: Question, state: Json, render: Rendering)
    requires ValidQuestion(q) && AcceptableQuestion(q, state, RLCD, render)
    ensures GoodIds(Ids(CandidateList(q, render))) && |CandidateList(q, render)| == Total(q)
    ensures Total(q) in RLCD_TOTALS && 2 <= Total(q) <= LOGIT_WIDTH
  {
    IdsGood(q, render);
  }

  /**
   For a validated question and finite logits, evaluation fails exactly when it is refused;
   otherwise the answer is correct, and it abstains exactly when the last used logit is
   strictly above all the others.
   */
  lemma OneExact(q: Question, state: Json, render: Rendering, row: seq<real>, c: Calibrator, exp: real -> real)
    requires Ready(q, state, render, row) && Calibrates(c) && ExpLike(exp)
    ensures Total(q) <= |row|
    ensures
      var r := EvaluateOne(q, render, row, c, exp);
      if Refused(q, row) then r == Failure(InvalidAnswer)
      else
        && r.Success? && Correct(q, render, row, Scale(c, exp), r.value) && |r.value.full| == Total(q)
        && (r.value.answer.AbstainAnswer? <==> Abstains(row, Total(q)))
  {
    RowCalibrated(q, state, render, row, c, exp);
    var (probs, winner) := CalibratedDistribution(row, c, Total(q), exp).value;
    MapCorrect(q, render, row, Scale(c, exp), probs, winner);
  }

  lemma RowCalibrated(q: Question, state: Json, render: Rendering, row: seq<real>, c: Calibrator, exp: real -> real)
    requires Ready(q, state, render, row) && Calibrates(c) && ExpLike(exp)
    ensures GoodIds(Ids(CandidateList(q, render))) && |CandidateList(q, render)| == Total(q) <= |row|
    ensures
      var r := CalibratedDistribution(row, c, Total(q), exp);
      && r.Success? && Calibrated(row, Total(q), r.value.0, r.value.1)
      && Softmax(row, Total(q), r.value.0, Scale(c, exp))
      && (r.value.1 == Total(q) - 1 <==> Abstains(row, Total(q)))
  {
    TotalsFit(q, state, render);
    CalibratedRow(row, c, Total(q), exp);
  }

  lemma CalibratedRow(row: seq<real>, c: Calibrator, k: nat, exp: real -> real)
    requires ExpLike(exp) && 1 <= k <= |row| && k in c.perK && c.perK[k] > 0.0
    ensures
      var r := CalibratedDistribution(row, c, k, exp);
      && r.Success? && Calibrated(row, k, r.value.0, r.value.1) && Softmax(row, k, r.value.0, Scale(c, exp))
      && (r.value.1 == k - 1 <==> Abstains(row, k))
  {
    CalibrationSound(row, c, k, exp);
    CalibrationIsSoftmax(row, c, k, exp);
    LastWins(row, k);
  }

  lemma MapCorrect(
    q: Question, render: Rendering, row: seq<real>, scale: Scale, probs: seq<real>, winner: nat)
    requires ValidQuestion(q) && GoodIds(Ids(CandidateList(q, render)))
    requires Calibrated(row, |CandidateList(q, render)|, probs, winner)
    requires Softmax(row, |CandidateList(q, render)|, probs, scale)
    ensures
      var ids := Ids(CandidateList(q, render));
      var r := MapAnswer(q, ids, probs, winner);
      if winner == |ids| - 1 && Overfull(q) then r == Failure(InvalidAnswer)
      else
        && r.Success? && Correct(q, render, row, scale, r.value) && |r.value.full| == |ids|
        && (r.value.answer.AbstainAnswer? <==> winner == |ids| - 1)
  {
    MapExact(q, render, row, probs, winner);
    CorrectIf(q, render, row, scale, probs, winner);
  }

  lemma CorrectIf(
    q: Question, render: Rendering, row: seq<real>, scale: Scale, probs: seq<real>, winner: nat)
    requires GoodIds(Ids(CandidateList(q, render))) && Calibrated(row, |CandidateList(q, render)|, probs, winner)
    requires Softmax(row, |CandidateList(q, render)|, probs, scale)
    ensures
      var ids := Ids(CandidateList(q, render));
      var r := MapAnswer(q, ids, probs, winner);
      r.Success? && ValidAnswer(r.value.answer) && Describes(q, ids, probs, winner, r.value) ==>
        && Correct(q, render, row, scale, r.value) && |r.value.full| == |ids|
        && (r.value.answer.AbstainAnswer? <==> winner == |ids| - 1)
  {
  }

  // ---- The provider metadata always fits ------------------------------------------------------------

  predicate Small(j: Json) {
    Nodes(j) <= 33 && Height(j) <= 3
  }

  lemma {:induction false} FloatNodes(d: Dict<real>, n: nat)
    requires n <= |d|
    ensures
      var items := seq(|d| - n, i requires 0 <= i < |d| - n => Float(d[n + i].1));
      NodesAll(items) == |d| - n && HeightAll(items) <= 1
    decreases |d| - n
  {
    if n < |d| {
      FloatNodes(d, n + 1);
      var items := seq(|d| - n, i requires 0 <= i < |d| - n => Float(d[n + i].1));
      assert items[1..] == seq(|d| - (n + 1), i requires 0 <= i < |d| - (n + 1) => Float(d[n + 1 + i].1));
    }
  }

  lemma FloatsSmall(d: Dict<real>)
    ensures Nodes(Floats(d)) == 1 + |d| && Height(Floats(d)) <= 1
  {
    FloatNodes(d, 0);
    assert seq(|d|, i requires 0 <= i < |d| => Float(d[i].1)) ==
           seq(|d| - 0, i requires 0 <= i < |d| - 0 => Float(d[0 + i].1));
  }

  lemma PayloadSmall(m: Mapped, c: Calibrator)
    requires |m.full| <= LOGIT_WIDTH
    ensures Small(Payload(m, c))
  {
    FloatsSmall(m.full);
    var texts := [Str(REVISION), Str(c.scope), Str("per_k:" + Decimal(|m.full|)),
                  Str("conditional_on_sufficient_evidence")];
    FlatNodes(texts);
    var extra := if m.expected.None? then [] else [Float(m.expected.value)];
    FlatNodes(extra);
    var inner := Payload(m, c).items[0];
    assert inner.items == texts + ([Floats(m.full)] + extra);
    NodesAppend(texts, [Floats(m.full)] + extra);
    HeightAppend(texts, [Floats(m.full)] + extra);
    NodesAppend([Floats(m.full)], extra);
    HeightAppend([Floats(m.full)], extra);
    Single(Floats(m.full));
    Single(inner);
    assert Payload(m, c).items == [inner];
  }

  lemma Single(j: Json)
    ensures NodesAll([j]) == Nodes(j) && HeightAll([j]) == 1 + Height(j)
  {
    assert [j][1..] == [];
  }

  lemma {:induction false} FlatNodes(items: seq<Json>)
    requires forall j | j in items :: j.Str? || j.Float?
    ensures NodesAll(items) == |items| && HeightAll(items) <= 1
  {
    if items != [] {
      assert items[0] in items && forall j | j in items[1..] :: j in items;
      FlatNodes(items[1..]);
    }
  }

  lemma {:induction false} SmallAll(items: seq<Json>)
    requires forall j | j in items :: Small(j)
    ensures NodesAll(items) <= 33 * |items| && HeightAll(items) <= 4
  {
    if items != [] {
      assert items[0] in items && forall j | j in items[1..] :: j in items;
      SmallAll(items[1..]);
    }
  }

  /** 256 questions of 25 candidates stay below the node limit. */
  lemma MetadataFits(metadata: Dict<Json>)
    requires |metadata| <= MAX_QUESTIONS && forall j | j in Values(metadata) :: Small(j)
    ensures Admissible(Json.Dict(Keys(metadata), Values(metadata)))
  {
    SmallAll(Values(metadata));
  }

  // ---- A whole request -----------------------------------------------------------------------------

  ghost predicate AllReady(qs: seq<(string, Question)>, state: Json, render: Rendering, rows: seq<seq<real>>) {
    |qs| == |rows| && forall i :: 0 <= i < |qs| ==> Ready(qs[i].1, state, render, rows[i])
  }

  /** Some question is refused. */
  ghost predicate SomeRefused(qs: seq<(string, Question)>, rows: seq<seq<real>>) {
    exists i :: 0 <= i < |qs| && i < |rows| && Total(qs[i].1) <= |rows[i]| && Refused(qs[i].1, rows[i])
  }

  /** The answer to this question, correct for its logits. */
  ghost predicate Answered(q: Question, render: Rendering, row: seq<real>, scale: Scale, a: Answer) {
    && (exists m: Mapped :: m.answer == a && Correct(q, render, row, scale, m))
    && Total(q) <= |row| && (a.AbstainAnswer? <==> Abstains(row, Total(q)))
  }

  /** One answer for each question, under its id and in its place. */
  ghost predicate AllAnswered(
    qs: seq<(string, Question)>, render: Rendering, rows: seq<seq<real>>, scale: Scale, answers: Dict<Answer>)
    requires |qs| == |rows|
    decreases |qs|
  {
    if qs == [] then answers == []
    else
      && answers != [] && answers[0].0 == qs[0].0 && Answered(qs[0].1, render, rows[0], scale, answers[0].1)
      && AllAnswered(qs[1..], render, rows[1..], scale, answers[1..])
  }

  predicate Fresh(r: DecisionResult, qs: seq<(string, Question)>) {
    && Keys(r.metadata) == Keys(r.answers) && Distinct(Keys(r.answers) + QuestionIds(qs))
    && |r.answers| + |qs| <= MAX_QUESTIONS && forall j | j in Values(r.metadata) :: Small(j)
  }

  /** The result with one row's answer and metadata put in. */
  function With(r: DecisionResult, id: string, m: Mapped, c: Calibrator): DecisionResult {
    DecisionResult(Put(r.answers, id, m.answer), Put(r.metadata, id, Payload(m, c)))
  }

  lemma FreshStep(r: DecisionResult, qs: seq<(string, Question)>, m: Mapped, c: Calibrator)
    requires qs != [] && Fresh(r, qs) && Small(Payload(m, c))
    ensures
      var r' := With(r, qs[0].0, m, c);
      && r'.answers == r.answers + [(qs[0].0, m.answer)]
      && r'.metadata == r.metadata + [(qs[0].0, Payload(m, c))] && Fresh(r', qs[1..])
  {
    PutFresh(r, qs, m.answer, Payload(m, c));
  }

  lemma PutFresh(r: DecisionResult, qs: seq<(string, Question)>, a: Answer, j: Json)
    requires qs != [] && Fresh(r, qs) && Small(j)
    ensures
      var r' := DecisionResult(Put(r.answers, qs[0].0, a), Put(r.metadata, qs[0].0, j));
      && r'.answers == r.answers + [(qs[0].0, a)] && r'.metadata == r.metadata + [(qs[0].0, j)]
      && Fresh(r', qs[1..])
  {
    var id := qs[0].0;
    var ids := Keys(r.answers) + QuestionIds(qs);
    assert |r.metadata| == |Keys(r.metadata)| == |r.answers|;
    forall i | 0 <= i < |r.answers|
      ensures r.answers[i].0 != id && r.metadata[i].0 != id
    {
      assert ids[i] == Keys(r.answers)[i] == Keys(r.metadata)[i] && ids[|r.answers|] == id;
    }
    PutNew(r.answers, id, a);
    PutNew(r.metadata, id, j);
    var r' := DecisionResult(Put(r.answers, id, a), Put(r.metadata, id, j));
    assert Keys(r'.answers) + QuestionIds(qs[1..]) == ids;
    assert Values(r'.metadata) == Values(r.metadata) + [j];
    assert Keys(r'.metadata) == Keys(r.metadata) + [id] && Keys(r'.answers) == Keys(r.answers) + [id];
  }

  lemma RowAnswered(q: Question, state: Json, render: Rendering, row: seq<real>, c: Calibrator, exp: real -> real)
    requires Ready(q, state, render, row) && Calibrates(c) && ExpLike(exp)
    ensures Total(q) <= |row|
    ensures
      var r := EvaluateOne(q, render, row, c, exp);
      RowOutcome(q, render, row, Scale(c, exp), r) && (r.Success? ==> Small(Payload(r.value, c)))
  {
    OneExact(q, state, render, row, c, exp);
    TotalsFit(q, state, render);
    if !Refused(q, row) { PayloadSmall(EvaluateOne(q, render, row, c, exp).value, c); }
  }

  /** How the rest of the row loop ends: refused, or with one answer added for each question. */
  ghost predicate RowsOutcome(
    qs: seq<(string, Question)>, render: Rendering, rows: seq<seq<real>>, scale: Scale, before: Dict<Answer>,
    result: Result<DecisionResult, EvalError>)
    requires |qs| == |rows|
  {
    if SomeRefused(qs, rows) then result == Failure(InvalidAnswer)
    else
      && result.Success? && before <= result.value.answers
      && AllAnswered(qs, render, rows, scale, result.value.answers[|before|..])
  }

  /** How one row ends. */
  ghost predicate RowOutcome(
    q: Question, render: Rendering, row: seq<real>, scale: Scale, one: Result<Mapped, EvalError>)
  {
    && Total(q) <= |row|
    && if Refused(q, row) then one == Failure(InvalidAnswer)
       else one.Success? && Answered(q, render, row, scale, one.value.answer)
  }

  lemma OutcomeStep(
    qs: seq<(string, Question)>, render: Rendering, rows: seq<seq<real>>, scale: Scale, before: Dict<Answer>,
    one: Result<Mapped, EvalError>, rest: Result<DecisionResult, EvalError>)
    requires qs != [] && |qs| == |rows| && RowOutcome(qs[0].1, render, rows[0], scale, one)
    requires one.Success? ==>
               RowsOutcome(qs[1..], render, rows[1..], scale, before + [(qs[0].0, one.value.answer)], rest)
    ensures RowsOutcome(qs, render, rows, scale, before, if one.Failure? then Failure(one.error) else rest)
  {
    if one.Success? {
      RefusedTail(qs, rows);
      if !SomeRefused(qs, rows) {
        AnswersGrow(qs, render, rows, scale, before, one.value.answer, rest.value.answers);
      }
    } else {
      assert SomeRefused(qs, rows);
    }
  }

  lemma MapRowsStep(
    qs: seq<(string, Question)>, render: Rendering, rows: seq<seq<real>>, c: Calibrator, exp: real -> real,
    r: DecisionResult)
    requires qs != [] && |qs| == |rows|
    ensures
      var one := EvaluateOne(qs[0].1, render, rows[0], c, exp);
      MapRows(qs, render, rows, c, exp, r) ==
      if one.Failure? then Failure(one.error)
      else MapRows(qs[1..], render, rows[1..], c, exp, With(r, qs[0].0, one.value, c))
  {
  }

  lemma MapRowsEnd(render: Rendering, c: Calibrator, exp: real -> real, r: DecisionResult)
    requires Fresh(r, [])
    ensures MapRows([], render, [], c, exp, r) == Success(r)
  {
    assert |r.metadata| == |Keys(r.metadata)| == |r.answers|;
    MetadataFits(r.metadata);
  }

  /** The loop over no more rows: nothing is refused and nothing is added. */
  lemma OutcomeEnd(render: Rendering, scale: Scale, r: DecisionResult)
    ensures RowsOutcome([], render, [], scale, r.answers, Success(r))
  {
  }

  lemma ReadyTail(qs: seq<(string, Question)>, state: Json, render: Rendering, rows: seq<seq<real>>)
    requires qs != [] && AllReady(qs, state, render, rows)
    ensures Ready(qs[0].1, state, render, rows[0]) && AllReady(qs[1..], state, render, rows[1..])
  {
  }

  lemma {:induction false} MapRowsExact(
    qs: seq<(string, Question)>, state: Json, render: Rendering, rows: seq<seq<real>>, c: Calibrator,
    exp: real -> real, r: DecisionResult)
    requires AllReady(qs, state, render, rows) && Calibrates(c) && ExpLike(exp) && Fresh(r, qs)
    ensures RowsOutcome(qs, render, rows, Scale(c, exp), r.answers, MapRows(qs, render, rows, c, exp, r))
    decreases |qs|
  {
    if qs == [] {
      MapRowsEnd(render, c, exp, r);
      OutcomeEnd(render, Scale(c, exp), r);
    } else {
      ReadyTail(qs, state, render, rows);
      RowAnswered(qs[0].1, state, render, rows[0], c, exp);
      var one := EvaluateOne(qs[0].1, render, rows[0], c, exp);
      var rest: Result<DecisionResult, EvalError> := Failure(InvalidAnswer);
      if one.Success? {
        var r' := With(r, qs[0].0, one.value, c);
        FreshStep(r, qs, one.value, c);
        MapRowsExact(qs[1..], state, render, rows[1..], c, exp, r');
        rest := MapRows(qs[1..], render, rows[1..], c, exp, r');
      }
      MapRowsStep(qs, render, rows, c, exp, r);
      OutcomeStep(qs, render, rows, Scale(c, exp), r.answers, one, rest);
    }
  }

  lemma AnswersGrow(
    qs: seq<(string, Question)>, render: Rendering, rows: seq<seq<real>>, scale: Scale, before: Dict<Answer>,
    a: Answer, after: Dict<Answer>)
    requires qs != [] && |qs| == |rows| && Answered(qs[0].1, render, rows[0], scale, a)
    requires before + [(qs[0].0, a)] <= after
    requires AllAnswered(qs[1..], render, rows[1..], scale, after[|before| + 1..])
    ensures before <= after && AllAnswered(qs, render, rows, scale, after[|before|..])
  {
    var added := after[|before|..];
    assert added[0] == (before + [(qs[0].0, a)])[|before|] && added[1..] == after[|before| + 1..];
  }

  lemma RefusedTail(qs: seq<(string, Question)>, rows: seq<seq<real>>)
    requires qs != [] && |qs| == |rows| && Total(qs[0].1) <= |rows[0]| && !Refused(qs[0].1, rows[0])
    ensures SomeRefused(qs, rows) <==> SomeRefused(qs[1..], rows[1..])
  {
    if SomeRefused(qs, rows) {
      var i :| 0 <= i < |qs| && Total(qs[i].1) <= |rows[i]| && Refused(qs[i].1, rows[i]);
      assert qs[1..][i - 1] == qs[i] && rows[1..][i - 1] == rows[i];
    }
    if SomeRefused(qs[1..], rows[1..]) {
      var i :| 0 <= i < |qs[1..]| && Total(qs[1..][i].1) <= |rows[1..][i]| && Refused(qs[1..][i].1, rows[1..][i]);
      assert qs[1..][i] == qs[i + 1] && rows[1..][i] == rows[i + 1];
    }
  }

  /** Finite output of the expected shape. */
  predicate Wellformed(output: seq<seq<Cell>>, batch: nat) {
    |output| == batch && forall row | row in output :: |row| == LOGIT_WIDTH && forall x | x in row :: x.Number?
  }

  lemma {:induction false} ParseRowExact(row: seq<Cell>)
    ensures ParseRow(row).Success? <==> forall x | x in row :: x.Number?
    ensures ParseRow(row).Success? ==>
              |ParseRow(row).value| == |row| && forall i :: 0 <= i < |row| ==> row[i] == Number(ParseRow(row).value[i])
  {
    if row != [] {
      ParseRowExact(row[..|row| - 1]);
      assert row == row[..|row| - 1] + [row[|row| - 1]];
    }
  }

  /** Output is accepted exactly when it has the expected shape and only finite numbers. */
  lemma {:induction false} ParseRowsExact(rows: seq<seq<Cell>>)
    ensures ParseRows(rows).Success? <==> Wellformed(rows, |rows|)
    ensures ParseRows(rows).Success? ==>
              |ParseRows(rows).value| == |rows| &&
              forall i :: 0 <= i < |rows| ==> ParseRow(rows[i]) == Success(ParseRows(rows).value[i]) &&
                                              |ParseRows(rows).value[i]| == LOGIT_WIDTH
  {
    if rows != [] {
      var init, last := rows[..|rows| - 1], rows[|rows| - 1];
      ParseRowsExact(init);
      ParseRowExact(last);
      assert rows == init + [last];
    }
  }

  /**
   End to end over real arithmetic: for every request that validation accepts, finite logits and
   positive per-K temperatures, evaluation succeeds if and only if no question both abstains and
   has criteria of exactly the maximum number of nodes; and then every question has its one
   answer, under its id, valid and correct for its logits.
   */
  lemma EvaluationExact(r: Request, render: Rendering, c: Calibrator, exp: real -> real, forward: Forward)
    requires ValidModel(r) && Acceptable(r, RLCD, render) && (r.model.Some? ==> r.model.value == REPO_ID)
    requires Calibrates(c) && ExpLike(exp)
    requires
      var output := forward(Prompts(r, render));
      output.Some? && Wellformed(output.value, |r.questions|)
    ensures
      var rows := ParseRows(forward(Prompts(r, render)).value);
      var result := Evaluated(r, render, c, exp, forward);
      && rows.Success? && |rows.value| == |r.questions|
      && (result.Success? <==> !SomeRefused(r.questions, rows.value))
      && (result.Failure? ==> result == Failure(InvalidAnswer))
      && (result.Success? ==> AllAnswered(r.questions, render, rows.value, Scale(c, exp), result.value.answers))
  {
    var output := forward(Prompts(r, render)).value;
    RowsReady(r, render, output);
    EvaluatedIsLoop(r, render, c, exp, forward);
    LoopExact(r.questions, r.state, render, ParseRows(output).value, c, exp);
  }

  lemma RowsReady(r: Request, render: Rendering, output: seq<seq<Cell>>)
    requires ValidModel(r) && Acceptable(r, RLCD, render) && Wellformed(output, |r.questions|)
    ensures ParseRows(output).Success? && AllReady(r.questions, r.state, render, ParseRows(output).value)
  {
    ParseRowsExact(output);
    forall i | 0 <= i < |r.questions|
      ensures Ready(r.questions[i].1, r.state, render, ParseRows(output).value[i])
    {
      assert r.questions[i] in r.questions;
    }
  }

  lemma EvaluatedIsLoop(r: Request, render: Rendering, c: Calibrator, exp: real -> real, forward: Forward)
    requires r.model.Some? ==> r.model.value == REPO_ID
    requires forward(Prompts(r, render)).Some?
    ensures
      var output := forward(Prompts(r, render)).value;
      |output| == |r.questions| && ParseRows(output).Success? && |ParseRows(output).value| == |output| ==>
        Evaluated(r, render, c, exp, forward)
        == MapRows(r.questions, render, ParseRows(output).value, c, exp, DecisionResult([], []))
  {
  }

  /** The row loop of `evaluate` over all questions. */
  lemma LoopExact(
    qs: seq<(string, Question)>, state: Json, render: Rendering, rows: seq<seq<real>>, c: Calibrator,
    exp: real -> real)
    requires AllReady(qs, state, render, rows) && Calibrates(c) && ExpLike(exp)
    requires |qs| <= MAX_QUESTIONS && Distinct(QuestionIds(qs))
    ensures
      var result := MapRows(qs, render, rows, c, exp, DecisionResult([], []));
      && (result.Success? <==> !SomeRefused(qs, rows))
      && (result.Failure? ==> result == Failure(InvalidAnswer))
      && (result.Success? ==> AllAnswered(qs, render, rows, Scale(c, exp), result.value.answers))
  {
    assert Keys<Answer>([]) + QuestionIds(qs) == QuestionIds(qs);
    MapRowsExact(qs, state, render, rows, c, exp, DecisionResult([], []));
    var result := MapRows(qs, render, rows, c, exp, DecisionResult([], []));
    if result.Success? { assert result.value.answers[0..] == result.value.answers; }
  }

  // ---- What a caller can know beforehand --------------------------------------------------------------

  /** Logits that make a question of k candidates abstain. */
  function AbstainingRow(k: nat): (row: seq<Cell>)
    ensures |row| == LOGIT_WIDTH
    ensures forall i :: 0 <= i < LOGIT_WIDTH ==> row[i] == Number(if i + 1 == k then 1.0 else 0.0)
  {
    seq(LOGIT_WIDTH, i => Number(if i + 1 == k then 1.0 else 0.0))
  }

  function AbstainingOutput(k: nat, batch: nat): (output: seq<seq<Cell>>)
    ensures |output| == batch && forall i :: 0 <= i < batch ==> output[i] == AbstainingRow(k)
  {
    seq(batch, _ => AbstainingRow(k))
  }

  lemma AbstainingWellformed(k: nat, batch: nat)
    ensures Wellformed(AbstainingOutput(k, batch), batch)
  {
    var output := AbstainingOutput(k, batch);
    forall row | row in output
      ensures |row| == LOGIT_WIDTH && forall x | x in row :: x.Number?
    {
      var i :| 0 <= i < batch && output[i] == row;
    }
  }

  lemma AbstainingAbstains(k: nat, batch: nat, i: nat)
    requires 1 <= k <= LOGIT_WIDTH && i < batch
    ensures
      var rows := ParseRows(AbstainingOutput(k, batch));
      && rows.Success? && |rows.value| == batch && |rows.value[i]| == LOGIT_WIDTH && Abstains(rows.value[i], k)
  {
    var output := AbstainingOutput(k, batch);
    AbstainingWellformed(k, batch);
    ParseRowsExact(output);
    ParseRowExact(output[i]);
    var row := ParseRows(output).value[i];
    assert forall j :: 0 <= j < LOGIT_WIDTH ==> AbstainingRow(k)[j] == Number(row[j]);
  }

  /** The runtime that gives this output, whatever the prompts. */
  function Gives(output: seq<seq<Cell>>): Forward {
    _ => Some(output)
  }

  predicate NoneOverfull(qs: seq<(string, Question)>) {
    forall q | q in qs :: !Overfull(q.1)
  }

  lemma RefusedIsOverfull(qs: seq<(string, Question)>, rows: seq<seq<real>>)
    requires SomeRefused(qs, rows)
    ensures !NoneOverfull(qs)
  {
    var i :| 0 <= i < |qs| && i < |rows| && Total(qs[i].1) <= |rows[i]| && Refused(qs[i].1, rows[i]);
    assert qs[i] in qs;
  }

  /** Some well-formed output makes an overfull question be refused. */
  lemma OverfullRefused(r: Request, render: Rendering, q: (string, Question)) returns (output: seq<seq<Cell>>)
    requires ValidModel(r) && Acceptable(r, RLCD, render) && q in r.questions && Overfull(q.1)
    ensures Wellformed(output, |r.questions|)
    ensures ParseRows(output).Success? && SomeRefused(r.questions, ParseRows(output).value)
  {
    var i: nat :| i < |r.questions| && r.questions[i] == q;
    TotalsFit(q.1, r.state, render);
    output := AbstainingOutput(Total(q.1), |r.questions|);
    AbstainingWellformed(Total(q.1), |r.questions|);
    AbstainingAbstains(Total(q.1), |r.questions|, i);
    assert Refused(r.questions[i].1, ParseRows(output).value[i]);
  }

  ghost predicate AlwaysSucceeds(r: Request, render: Rendering, c: Calibrator, exp: real -> real) {
    forall output | Wellformed(output, |r.questions|) :: Evaluated(r, render, c, exp, Gives(output)).Success?
  }

  lemma EvaluatedOn(r: Request, render: Rendering, c: Calibrator, exp: real -> real, output: seq<seq<Cell>>)
    requires ValidModel(r) && Acceptable(r, RLCD, render) && (r.model.Some? ==> r.model.value == REPO_ID)
    requires Calibrates(c) && ExpLike(exp) && Wellformed(output, |r.questions|)
    ensures ParseRows(output).Success? && |ParseRows(output).value| == |r.questions|
    ensures Evaluated(r, render, c, exp, Gives(output)) == Failure(InvalidAnswer) ||
            Evaluated(r, render, c, exp, Gives(output)).Success?
    ensures Evaluated(r, render, c, exp, Gives(output)).Success? <==>
            !SomeRefused(r.questions, ParseRows(output).value)
  {
    assert Gives(output)(Prompts(r, render)) == Some(output);
    EvaluationExact(r, render, c, exp, Gives(output));
  }

  /**
   The caller's form: a validated request is answered on every well-formed output if and only if
   none of its questions has criteria of exactly the maximum number of nodes.
   */
  lemma AlwaysAnswered(r: Request, render: Rendering, c: Calibrator, exp: real -> real)
    requires ValidModel(r) && Acceptable(r, RLCD, render) && (r.model.Some? ==> r.model.value == REPO_ID)
    requires Calibrates(c) && ExpLike(exp)
    ensures AlwaysSucceeds(r, render, c, exp) <==> NoneOverfull(r.questions)
  {
    if AlwaysSucceeds(r, render, c, exp) && !NoneOverfull(r.questions) {
      var q :| q in r.questions && Overfull(q.1);
      var output := OverfullRefused(r, render, q);
      EvaluatedOn(r, render, c, exp, output);
    }
    if NoneOverfull(r.questions) {
      forall output | Wellformed(output, |r.questions|)
        ensures Evaluated(r, render, c, exp, Gives(output)).Success?
      {
        EvaluatedOn(r, render, c, exp, output);
        if SomeRefused(r.questions, ParseRows(output).value) {
          RefusedIsOverfull(r.questions, ParseRows(output).value);
        }
      }
    }
  }
}
