/** What the RLCD backend asks and answers, said of the question itself: which label stands at which logit. */
module RlcdMeaning {
  import opened Wrappers
  import opened Text
  import opened Json
  import opened Questions
  import opened Validation
  import opened Registry
  import opened Prompt
  import opened Dicts
  import opened Results
  import opened Calibration
  import opened Rlcd
  import opened RlcdAnswers

  // ---- What a prompt asks ------------------------------------------------------------------

  /** The frames that the question calls for: its values in order, the abstention, then question and context. */
  predicate Asks(q: Question, state: Json, render: Rendering, frames: seq<Frame>) {
    var context := if state.Str? then state.s else render.dumps(state);
    match q
    case Noul(instructions, _) =>
      frames == [ Frame(false, "true: " + instructions), Frame(false, "false: not " + instructions),
                  Frame(false, "insufficient evidence"),
                  Frame(true, "Context:\n" + context + "\n\nEvaluate proposition: " + instructions) ]
    case Choice(instructions, keys, values) =>
      var n := |keys|;
      && |values| == n && |frames| == n + 2
      && (forall i :: 0 <= i < n ==>
            frames[i] == Frame(false, "It is " + if values[i].Str? then values[i].s else render.str(values[i])))
      && frames[n] == Frame(false, "insufficient evidence")
      && frames[n + 1] == Frame(true, "Question: " + instructions + "\n\nContext:\n" + context)
    case Score(instructions, levels) =>
      var n := |levels|;
      && |frames| == n + 2
      && (forall i :: 0 <= i < n ==>
            frames[i] == Frame(false, render.dumps(levels[i]) + (" (Value: " + Decimal(i) + ")")))
      && frames[n] == Frame(false, "insufficient evidence")
      && frames[n + 1] == Frame(true, "Question: " + instructions + "\n\nContext:\n" + context)
  }

  lemma {:induction false} ExpectedAt(labels: seq<string>, text: string)
    ensures
      var frames := ExpectedFrames(labels, text);
      && |frames| == |labels| + 1 && frames[|labels|] == Frame(true, text)
      && forall i :: 0 <= i < |labels| ==> frames[i] == Frame(false, labels[i])
  {
    if labels != [] { ExpectedAt(labels[1..], text); }
  }

  /** These labels and then this text. */
  predicate Framing(labels: seq<string>, text: string, frames: seq<Frame>) {
    && |frames| == |labels| + 1 && frames[|labels|] == Frame(true, text)
    && forall i :: 0 <= i < |labels| ==> frames[i] == Frame(false, labels[i])
  }

  lemma FramingUnique(labels: seq<string>, text: string, frames: seq<Frame>)
    ensures Framing(labels, text, frames) <==> frames == ExpectedFrames(labels, text)
  {
    var expected := ExpectedFrames(labels, text);
    ExpectedAt(labels, text);
    if Framing(labels, text, frames) {
      assert forall i :: 0 <= i < |frames| ==> frames[i] == expected[i];
    }
  }

  lemma NoulAsks(q: Question, state: Json, render: Rendering, frames: seq<Frame>)
    requires q.Noul?
    ensures Asks(q, state, render, frames) <==>
            Framing(Labels(CandidateList(q, render)), QuestionText(q, state, render), frames)
  {
    var labels := Labels(CandidateList(q, render));
    assert labels == ["true: " + q.instructions, "false: not " + q.instructions, "insufficient evidence"];
    if Framing(labels, QuestionText(q, state, render), frames) {
      assert frames == [frames[0], frames[1], frames[2], frames[3]];
    }
  }

  lemma ChoiceAsks(q: Question, state: Json, render: Rendering, frames: seq<Frame>)
    requires ValidQuestion(q) && q.Choice?
    ensures Asks(q, state, render, frames) <==>
            Framing(Labels(CandidateList(q, render)), QuestionText(q, state, render), frames)
  {
    var labels, n := Labels(CandidateList(q, render)), |q.keys|;
    assert |labels| == n + 1 && labels[n] == "insufficient evidence";
    assert forall i :: 0 <= i < n ==> labels[i] == "It is " + render.Plain(q.values[i]);
  }

  lemma ScoreAsks(q: Question, state: Json, render: Rendering, frames: seq<Frame>)
    requires q.Score?
    ensures Asks(q, state, render, frames) <==>
            Framing(Labels(CandidateList(q, render)), QuestionText(q, state, render), frames)
  {
    var labels, n := Labels(CandidateList(q, render)), |q.levels|;
    assert |labels| == n + 1 && labels[n] == "insufficient evidence";
    assert forall i :: 0 <= i < n ==> labels[i] == render.dumps(q.levels[i]) + (" (Value: " + Decimal(i) + ")");
  }

  lemma AsksExactly(q: Question, state: Json, render: Rendering, frames: seq<Frame>)
    requires ValidQuestion(q)
    ensures Asks(q, state, render, frames) <==>
            frames == ExpectedFrames(Labels(CandidateList(q, render)), QuestionText(q, state, render))
  {
    FramingUnique(Labels(CandidateList(q, render)), QuestionText(q, state, render), frames);
    match q {
      case Noul(_, _) => NoulAsks(q, state, render, frames);
      case Choice(_, _, _) => ChoiceAsks(q, state, render, frames);
      case Score(_, _) => ScoreAsks(q, state, render, frames);
    }
  }

  /** The prompt can be split, and its frames are those that the question calls for. */
  predicate Prompts(q: Question, state: Json, render: Rendering, prompt: string) {
    prompt != "" && MarkerAt(prompt, 0) && Asks(q, state, render, Frames(prompt))
  }

  /** A prompt asks its question, value by value in order, if and only if validation finds no marker in its text. */
  lemma PromptAsks(q: Question, state: Json, render: Rendering)
    requires ValidQuestion(q)
    ensures MarkerFree(q, state, RLCD.reservedMarkers, render) <==>
            Prompts(q, state, render, PromptFor(q, state, render))
  {
    var prompt := PromptFor(q, state, render);
    FramedStarts(Labels(CandidateList(q, render)), QuestionText(q, state, render));
    FramingExact(q, state, render);
    AsksExactly(q, state, render, Frames(prompt));
  }

  // ---- What an answer tells -------------------------------------------------------------------

  /** The id that an answer gives to the value at this position. */
  function IdAt(q: Question, i: nat): string
    requires ValidQuestion(q) && i + 1 < Total(q)
  {
    match q
    case Noul(_, _) => if i == 0 then "true" else "false"
    case Choice(_, keys, _) => keys[i]
    case Score(_, _) => Decimal(i)
  }

  /** Each value's id with its own number, in the question's order. */
  predicate Pairs(q: Question, numbers: seq<real>, d: Dict<real>)
    requires ValidQuestion(q)
  {
    && |d| <= |numbers| && |d| + 1 == Total(q)
    && forall i: nat :: i < |d| ==> d[i] == (IdAt(q, i), numbers[i])
  }

  /** The same with the abstention last. */
  predicate PairsAll(q: Question, numbers: seq<real>, d: Dict<real>)
    requires ValidQuestion(q)
  {
    && |d| == |numbers| == Total(q) && Pairs(q, numbers, d[..|d| - 1])
    && d[|d| - 1] == ("__abstain__", numbers[|d| - 1])
  }

  /** The caller's own values under their ids. */
  predicate Explains(q: Question, d: Dict<Json>)
    requires ValidQuestion(q) && !q.Noul?
  {
    && |d| + 1 == Total(q)
    && forall i: nat :: i < |d| ==> d[i] == (IdAt(q, i), if q.Choice? then q.values[i] else q.levels[i])
  }

  /** The first greatest of the logits, which is not the abstention's. */
  predicate Leads(row: seq<real>, k: nat, w: nat)
    requires k <= |row|
  {
    w + 1 < k && (forall i :: 0 <= i < k ==> row[i] <= row[w]) && forall i :: 0 <= i < w ==> row[i] < row[w]
  }

  /** The probabilities of all candidates but the abstention, over their sum. */
  predicate Shares(probs: seq<real>, mass: seq<real>) {
    && |mass| + 1 == |probs| && Sum(probs[..|mass|]) > 0.0
    && forall i :: 0 <= i < |mass| ==> mass[i] == probs[i] / Sum(probs[..|mass|])
  }

  /** The abstention, with its probability, and each value under its id. */
  predicate TellsAbstention(q: Question, probs: seq<real>, a: Answer)
    requires ValidQuestion(q) && |probs| == Total(q)
  {
    var n := Total(q) - 1;
    && a.AbstainAnswer? && a.reason == InsufficientEvidence && a.source == TypeOf(q)
    && a.confidence == Some(probs[n]) && a.probabilities.Some? && PairsAll(q, probs, a.probabilities.value)
    && if q.Noul? then a.explanation.None?
       else
         && a.explanation.Some? && |a.explanation.value| == n + 1 && Explains(q, a.explanation.value[..n])
         && a.explanation.value[n] == ("__abstain__", Str("insufficient evidence"))
  }

  /** The value at this position, with every value's share. */
  predicate TellsValue(q: Question, mass: seq<real>, w: nat, a: Answer)
    requires ValidQuestion(q) && w < |mass| && |mass| + 1 == Total(q)
  {
    match q
    case Noul(_, _) => a == NoulAnswer(Some(mass[0]), None, None)
    case Choice(_, _, _) =>
      && a.ChoiceAnswer? && a.choice == q.keys[w] && a.confidence == Some(mass[w])
      && a.probabilities.Some? && Pairs(q, mass, a.probabilities.value)
    case Score(_, _) =>
      && a.ScoreAnswer? && a.score == w as real && a.confidence == Some(mass[w])
      && Explains(q, a.legend) && a.probabilities.Some? && Pairs(q, mass, a.probabilities.value)
  }

  ghost predicate TellsLeader(q: Question, row: seq<real>, probs: seq<real>, mass: seq<real>, w: nat, a: Answer)
    requires ValidQuestion(q) && |probs| == Total(q) <= |row|
  {
    Leads(row, Total(q), w) && Shares(probs, mass) && TellsValue(q, mass, w, a)
  }

  /** The abstention's logit is above all others. */
  predicate LastLeads(row: seq<real>, k: nat)
    requires 1 <= k <= |row|
  {
    forall i :: 0 <= i < k - 1 ==> row[i] < row[k - 1]
  }

  /** The answer to a question whose candidates have these probabilities, from these logits. */
  ghost predicate Tells(q: Question, row: seq<real>, probs: seq<real>, a: Answer)
    requires ValidQuestion(q) && |probs| == Total(q) <= |row|
  {
    var n := Total(q) - 1;
    if LastLeads(row, n + 1) then TellsAbstention(q, probs, a)
    else exists mass, w: nat :: TellsLeader(q, row, probs, mass, w, a)
  }

  /** Ids as the question gives them. */
  predicate IdsOf(q: Question, ids: seq<string>)
    requires ValidQuestion(q)
  {
    && |ids| == Total(q) && ids[|ids| - 1] == "__abstain__"
    && forall i: nat :: i + 1 < |ids| ==> ids[i] == IdAt(q, i)
  }

  /** What the ids of a question's candidates are. */
  lemma IdsAre(q: Question, render: Rendering)
    requires ValidQuestion(q)
    ensures IdsOf(q, Ids(CandidateList(q, render)))
  {
    IdsOfCandidates(q, render);
  }

  lemma ZipPairs(q: Question, ids: seq<string>, numbers: seq<real>)
    requires ValidQuestion(q) && |ids| == |numbers| && |ids| + 1 == Total(q)
    requires forall i: nat :: i < |ids| ==> ids[i] == IdAt(q, i)
    ensures Pairs(q, numbers, Zip(ids, numbers))
  {
  }

  lemma ZipPairsAll(q: Question, ids: seq<string>, numbers: seq<real>)
    requires ValidQuestion(q) && |ids| == |numbers| == Total(q) && ids[|ids| - 1] == "__abstain__"
    requires forall i: nat :: i + 1 < |ids| ==> ids[i] == IdAt(q, i)
    ensures PairsAll(q, numbers, Zip(ids, numbers))
  {
  }

  lemma LegendExplains(q: Question)
    requires ValidQuestion(q) && !q.Noul?
    ensures Explains(q, LegendPairs(q))
  {
  }

  lemma AbstentionTells(q: Question, ids: seq<string>, row: seq<real>, probs: seq<real>, m: Mapped)
    requires ValidQuestion(q) && IdsOf(q, ids) && |probs| == Total(q) <= |row| && LastLeads(row, Total(q))
    requires Describes(q, ids, probs, Total(q) - 1, m)
    ensures Tells(q, row, probs, m.answer)
  {
    ZipPairsAll(q, ids, probs);
    if !q.Noul? {
      LegendExplains(q);
      assert (LegendPairs(q) + [(ABSTAIN_ANSWER_ID, Str(ABSTENTION_DESCRIPTION))])[..Total(q) - 1] == LegendPairs(q);
    }
  }

  lemma WinnerLeads(row: seq<real>, k: nat, w: nat)
    requires 1 <= k <= |row| && w == ArgMax(row[..k]) && w + 1 < k
    ensures Leads(row, k, w) && !LastLeads(row, k)
  {
    LastWins(row, k);
    assert forall i :: 0 <= i < k ==> row[..k][i] == row[i];
  }

  lemma GivenTells(q: Question, ids: seq<string>, mass: seq<real>, w: nat, m: Mapped)
    requires ValidQuestion(q) && |ids| == |mass| > w && |ids| + 1 == Total(q) && Given(q, ids, mass, w, m)
    requires forall i: nat :: i < |ids| ==> ids[i] == IdAt(q, i)
    ensures TellsValue(q, mass, w, m.answer)
  {
    ZipPairs(q, ids, mass);
    if q.Score? { LegendExplains(q); }
  }

  lemma ConditionalShares(probs: seq<real>, mass: seq<real>)
    requires probs != [] && Conditional(mass, probs[..|probs| - 1])
    ensures Shares(probs, mass)
  {
  }

  lemma SubstantiveTells(
    q: Question, ids: seq<string>, row: seq<real>, probs: seq<real>, winner: nat, m: Mapped)
    requires ValidQuestion(q) && IdsOf(q, ids) && |probs| == Total(q) <= |row| && winner + 1 < Total(q)
    requires Leads(row, Total(q), winner) && !LastLeads(row, Total(q)) && Describes(q, ids, probs, winner, m)
    ensures Tells(q, row, probs, m.answer)
  {
    var n := Total(q) - 1;
    var mass :| Conditional(mass, probs[..n]) && Given(q, ids[..n], mass, winner, m);
    ConditionalShares(probs, mass);
    GivenTells(q, ids[..n], mass, winner, m);
    assert TellsLeader(q, row, probs, mass, winner, m.answer);
  }

  /** The logits of one question and what they make of it. */
  ghost predicate Reading(q: Question, row: seq<real>, scale: Scale, a: Answer) {
    && ValidQuestion(q) && Total(q) <= |row|
    && exists probs :: |probs| == Total(q) && Softmax(row, Total(q), probs, scale) && Tells(q, row, probs, a)
  }

  /** These probabilities and this winner are what the logits give, and the answer is theirs. */
  ghost predicate CorrectBy(
    q: Question, ids: seq<string>, row: seq<real>, scale: Scale, probs: seq<real>, winner: nat, m: Mapped)
  {
    && ids != [] && Calibrated(row, |ids|, probs, winner) && Softmax(row, |ids|, probs, scale)
    && winner < |probs| && Describes(q, ids, probs, winner, m)
  }

  lemma CorrectHas(q: Question, render: Rendering, row: seq<real>, scale: Scale, m: Mapped)
    returns (probs: seq<real>, winner: nat)
    requires Correct(q, render, row, scale, m)
    ensures CorrectBy(q, Ids(CandidateList(q, render)), row, scale, probs, winner, m)
  {
    probs, winner :|
      && Calibrated(row, |CandidateList(q, render)|, probs, winner)
      && Softmax(row, |CandidateList(q, render)|, probs, scale)
      && Describes(q, Ids(CandidateList(q, render)), probs, winner, m);
  }

  lemma ByTells(
    q: Question, ids: seq<string>, row: seq<real>, scale: Scale, probs: seq<real>, winner: nat, m: Mapped)
    requires ValidQuestion(q) && IdsOf(q, ids) && CorrectBy(q, ids, row, scale, probs, winner, m)
    ensures |probs| == Total(q) <= |row| && Tells(q, row, probs, m.answer)
  {
    LastWins(row, Total(q));
    if winner + 1 == Total(q) {
      AbstentionTells(q, ids, row, probs, m);
    } else {
      WinnerLeads(row, Total(q), winner);
      SubstantiveTells(q, ids, row, probs, winner, m);
    }
  }

  lemma CorrectReads(q: Question, render: Rendering, row: seq<real>, scale: Scale, m: Mapped)
    requires ValidQuestion(q) && Correct(q, render, row, scale, m)
    ensures Reading(q, row, scale, m.answer)
  {
    IdsAre(q, render);
    var probs, winner := CorrectHas(q, render, row, scale, m);
    ByTells(q, Ids(CandidateList(q, render)), row, scale, probs, winner, m);
  }

  // ---- A whole request -----------------------------------------------------------------------------

  /** The number in a cell. */
  predicate Cells(cells: seq<Cell>, row: seq<real>) {
    |cells| == |row| && forall j :: 0 <= j < |row| ==> cells[j] == Number(row[j])
  }

  /** A question was asked by its prompt and answered from its own row of the output. */
  ghost predicate AskedAndRead(
    q: Question, state: Json, render: Rendering, prompt: string, cells: seq<Cell>, scale: Scale, a: Answer)
  {
    && Prompts(q, state, render, prompt)
    && exists row :: Cells(cells, row) && Reading(q, row, scale, a)
  }

  lemma {:induction false} AnsweredAt(
    qs: seq<(string, Question)>, render: Rendering, rows: seq<seq<real>>, scale: Scale, answers: Dict<Answer>, i: nat)
    requires |qs| == |rows| && AllAnswered(qs, render, rows, scale, answers) && i < |qs|
    ensures |answers| == |qs| && answers[i].0 == qs[i].0
    ensures Answered(qs[i].1, render, rows[i], scale, answers[i].1)
    decreases |qs|
  {
    AnsweredCount(qs, render, rows, scale, answers);
    if i > 0 {
      AnsweredAt(qs[1..], render, rows[1..], scale, answers[1..], i - 1);
      assert qs[1..][i - 1] == qs[i] && rows[1..][i - 1] == rows[i] && answers[1..][i - 1] == answers[i];
    }
  }

  lemma {:induction false} AnsweredCount(
    qs: seq<(string, Question)>, render: Rendering, rows: seq<seq<real>>, scale: Scale, answers: Dict<Answer>)
    requires |qs| == |rows| && AllAnswered(qs, render, rows, scale, answers)
    ensures |answers| == |qs|
    decreases |qs|
  {
    if qs != [] { AnsweredCount(qs[1..], render, rows[1..], scale, answers[1..]); }
  }

  lemma AnswerRead(q: Question, render: Rendering, row: seq<real>, scale: Scale, a: Answer)
    requires ValidQuestion(q) && Answered(q, render, row, scale, a)
    ensures Reading(q, row, scale, a)
  {
    var m: Mapped :| m.answer == a && Correct(q, render, row, scale, m);
    CorrectReads(q, render, row, scale, m);
  }

  /**
   From question to answer and back: where evaluation succeeds, the i-th prompt asks the i-th question, value
   by value, and the i-th answer gives each value's id the share of the logit at that value's own frame.
   */
  lemma EvaluationReads(
    r: Request, render: Rendering, c: Calibrator, exp: real -> real, forward: Forward, i: nat)
    requires ValidModel(r) && Acceptable(r, RLCD, render) && (r.model.Some? ==> r.model.value == REPO_ID)
    requires Calibrates(c) && ExpLike(exp) && i < |r.questions|
    requires
      var output := forward(Rlcd.Prompts(r, render));
      output.Some? && Wellformed(output.value, |r.questions|)
    requires Evaluated(r, render, c, exp, forward).Success?
    ensures
      var prompts := Rlcd.Prompts(r, render);
      var answers := Evaluated(r, render, c, exp, forward).value.answers;
      && |prompts| == |answers| == |r.questions| && answers[i].0 == r.questions[i].0
      && AskedAndRead(r.questions[i].1, r.state, render, prompts[i], forward(prompts).value[i], Scale(c, exp),
                      answers[i].1)
  {
    var output := forward(Rlcd.Prompts(r, render)).value;
    var q := r.questions[i].1;
    var answers := Evaluated(r, render, c, exp, forward).value.answers;
    assert r.questions[i] in r.questions;
    EvaluationExact(r, render, c, exp, forward);
    var rows := ParseRows(output).value;
    AnsweredAt(r.questions, render, rows, Scale(c, exp), answers, i);
    AnswerRead(q, render, rows[i], Scale(c, exp), answers[i].1);
    PromptAsks(q, r.state, render);
    RowRead(output, i);
  }

  lemma RowRead(output: seq<seq<Cell>>, i: nat)
    requires Wellformed(output, |output|) && i < |output|
    ensures ParseRows(output).Success? && i < |ParseRows(output).value| && Cells(output[i], ParseRows(output).value[i])
  {
    ParseRowsExact(output);
    ParseRowExact(output[i]);
  }

  // ---- The provider metadata -----------------------------------------------------------------------

  /** The mean of the positions from i on, weighted. */
  function MeanFrom(mass: seq<real>, i: nat): real
    requires i <= |mass|
    decreases |mass| - i
  {
    if i == |mass| then 0.0 else i as real * mass[i] + MeanFrom(mass, i + 1)
  }

  lemma {:induction false} MeanSplit(mass: seq<real>, i: nat)
    requires i <= |mass|
    ensures Expectation(mass) == Expectation(mass[..i]) + MeanFrom(mass, i)
    decreases |mass| - i
  {
    if i == |mass| {
      assert mass[..i] == mass;
    } else {
      MeanSplit(mass, i + 1);
      assert mass[..i + 1][..i] == mass[..i];
    }
  }

  lemma ExpectationIsMean(mass: seq<real>)
    ensures Expectation(mass) == MeanFrom(mass, 0)
  {
    MeanSplit(mass, 0);
    assert mass[..0] == [];
  }

  /** All the probabilities by id, and for a score that does not abstain the mean level. */
  ghost predicate Computes(q: Question, row: seq<real>, probs: seq<real>, m: Mapped)
    requires ValidQuestion(q) && |probs| == Total(q) <= |row|
  {
    && PairsAll(q, probs, m.full)
    && if q.Score? && !LastLeads(row, Total(q))
       then exists mass :: Shares(probs, mass) && m.expected == Some(MeanFrom(mass, 0))
       else m.expected.None?
  }

  lemma MappedComputes(q: Question, ids: seq<string>, row: seq<real>, probs: seq<real>, winner: nat, m: Mapped)
    requires ValidQuestion(q) && IdsOf(q, ids) && |probs| == Total(q) <= |row| && winner < Total(q)
    requires winner + 1 == Total(q) <==> LastLeads(row, Total(q))
    requires Describes(q, ids, probs, winner, m)
    ensures Computes(q, row, probs, m)
  {
    ZipPairsAll(q, ids, probs);
    if winner + 1 < Total(q) {
      var n := Total(q) - 1;
      var mass :| Conditional(mass, probs[..n]) && Given(q, ids[..n], mass, winner, m);
      ConditionalShares(probs, mass);
      ExpectationIsMean(mass);
    }
  }

  /** What one question leaves in the metadata. */
  ghost predicate Records(q: Question, row: seq<real>, c: Calibrator, exp: real -> real, j: Json) {
    && ValidQuestion(q) && Total(q) <= |row|
    && exists probs, m: Mapped :: RecordsOf(q, row, Scale(c, exp), probs, m) && Holds(m, c, j)
  }

  ghost predicate RecordsOf(q: Question, row: seq<real>, scale: Scale, probs: seq<real>, m: Mapped)
    requires ValidQuestion(q) && Total(q) <= |row|
  {
    |probs| == Total(q) && Softmax(row, Total(q), probs, scale) && Computes(q, row, probs, m)
  }

  /** The model's revision, the scope and path of its temperature, and what was computed. */
  predicate Holds(m: Mapped, c: Calibrator, j: Json) {
    && j.Dict? && j.keys == ["rlcd"] && |j.items| == 1 && j.items[0].Dict?
    && var items := j.items[0].items;
       var n := |m.full|;
       && |items| == (if m.expected.Some? then 6 else 5)
       && j.items[0].keys ==
          ["revision", "calibration_scope", "temperature_path", "probability_base", "full_distribution"] +
          (if m.expected.Some? then ["expected_value_over_substantive_mass"] else [])
       && items[0] == Str(REVISION) && items[1] == Str(c.scope) && items[2] == Str("per_k:" + Decimal(n))
       && items[3] == Str("conditional_on_sufficient_evidence")
       && items[4].Dict? && |items[4].keys| == |items[4].items| == n
       && (forall i :: 0 <= i < n ==> items[4].keys[i] == m.full[i].0 && items[4].items[i] == Float(m.full[i].1))
       && (m.expected.Some? ==> items[5] == Float(m.expected.value))
  }

  lemma PayloadHolds(m: Mapped, c: Calibrator)
    ensures Holds(m, c, Payload(m, c))
  {
  }

  lemma ByComputes(
    q: Question, ids: seq<string>, row: seq<real>, scale: Scale, probs: seq<real>, winner: nat, m: Mapped)
    requires ValidQuestion(q) && IdsOf(q, ids) && CorrectBy(q, ids, row, scale, probs, winner, m)
    ensures Total(q) <= |row| && RecordsOf(q, row, scale, probs, m)
  {
    LastWins(row, Total(q));
    MappedComputes(q, ids, row, probs, winner, m);
  }

  lemma CorrectComputes(q: Question, render: Rendering, row: seq<real>, scale: Scale, m: Mapped)
    returns (probs: seq<real>)
    requires ValidQuestion(q) && Correct(q, render, row, scale, m)
    ensures Total(q) <= |row| && RecordsOf(q, row, scale, probs, m)
  {
    IdsAre(q, render);
    var winner: nat;
    probs, winner := CorrectHas(q, render, row, scale, m);
    ByComputes(q, Ids(CandidateList(q, render)), row, scale, probs, winner, m);
  }

  lemma RowRecords(q: Question, state: Json, render: Rendering, row: seq<real>, c: Calibrator, exp: real -> real)
    requires Ready(q, state, render, row) && Calibrates(c) && ExpLike(exp)
    requires EvaluateOne(q, render, row, c, exp).Success?
    ensures Records(q, row, c, exp, Payload(EvaluateOne(q, render, row, c, exp).value, c))
  {
    var m := EvaluateOne(q, render, row, c, exp).value;
    OneExact(q, state, render, row, c, exp);
    var probs := CorrectComputes(q, render, row, Scale(c, exp), m);
    PayloadHolds(m, c);
  }

  lemma RowSmall(q: Question, state: Json, render: Rendering, row: seq<real>, c: Calibrator, exp: real -> real)
    requires Ready(q, state, render, row) && Calibrates(c) && ExpLike(exp)
    ensures
      var one := EvaluateOne(q, render, row, c, exp);
      one.Success? ==> Small(Payload(one.value, c))
  {
    RowAnswered(q, state, render, row, c, exp);
  }

  /** This is what the row's evaluation puts into the metadata. */
  ghost predicate Made(q: Question, render: Rendering, row: seq<real>, c: Calibrator, exp: real -> real, j: Json) {
    exists m: Mapped :: EvaluateOne(q, render, row, c, exp) == Success(m) && j == Payload(m, c)
  }

  lemma MadeRecords(
    q: Question, state: Json, render: Rendering, row: seq<real>, c: Calibrator, exp: real -> real, j: Json)
    requires Ready(q, state, render, row) && Calibrates(c) && ExpLike(exp) && Made(q, render, row, c, exp, j)
    ensures Records(q, row, c, exp, j)
  {
    RowRecords(q, state, render, row, c, exp);
  }

  /** One turn of a loop that succeeds. */
  lemma LoopStep(
    qs: seq<(string, Question)>, state: Json, render: Rendering, rows: seq<seq<real>>, c: Calibrator,
    exp: real -> real, r: DecisionResult)
    returns (r': DecisionResult, j: Json)
    requires AllReady(qs, state, render, rows) && Calibrates(c) && ExpLike(exp) && Fresh(r, qs) && qs != []
    requires MapRows(qs, render, rows, c, exp, r).Success?
    ensures AllReady(qs[1..], state, render, rows[1..]) && Fresh(r', qs[1..])
    ensures r'.metadata == r.metadata + [(qs[0].0, j)] && Made(qs[0].1, render, rows[0], c, exp, j)
    ensures MapRows(qs, render, rows, c, exp, r) == MapRows(qs[1..], render, rows[1..], c, exp, r')
  {
    ReadyTail(qs, state, render, rows);
    MapRowsStep(qs, render, rows, c, exp, r);
    var m := EvaluateOne(qs[0].1, render, rows[0], c, exp).value;
    RowSmall(qs[0].1, state, render, rows[0], c, exp);
    FreshStep(r, qs, m, c);
    r', j := With(r, qs[0].0, m, c), Payload(m, c);
  }

  /** One entry for each question, under its id and in its place. */
  ghost predicate AllMade(
    qs: seq<(string, Question)>, render: Rendering, rows: seq<seq<real>>, c: Calibrator, exp: real -> real,
    entries: Dict<Json>)
    requires |qs| == |rows|
    decreases |qs|
  {
    if qs == [] then entries == []
    else
      && entries != [] && entries[0].0 == qs[0].0 && Made(qs[0].1, render, rows[0], c, exp, entries[0].1)
      && AllMade(qs[1..], render, rows[1..], c, exp, entries[1..])
  }

  lemma EntriesGrow(
    qs: seq<(string, Question)>, render: Rendering, rows: seq<seq<real>>, c: Calibrator, exp: real -> real,
    before: Dict<Json>, j: Json, after: Dict<Json>)
    requires qs != [] && |qs| == |rows| && Made(qs[0].1, render, rows[0], c, exp, j)
    requires before + [(qs[0].0, j)] <= after
    requires AllMade(qs[1..], render, rows[1..], c, exp, after[|before| + 1..])
    ensures before <= after && AllMade(qs, render, rows, c, exp, after[|before|..])
  {
    var added := after[|before|..];
    assert added[0] == (before + [(qs[0].0, j)])[|before|] && added[1..] == after[|before| + 1..];
  }

  /** A loop that succeeds has added an entry for each question. */
  ghost predicate Makes(
    qs: seq<(string, Question)>, render: Rendering, rows: seq<seq<real>>, c: Calibrator, exp: real -> real,
    before: Dict<Json>, result: Result<DecisionResult, EvalError>)
    requires |qs| == |rows|
  {
    result.Success? ==>
      before <= result.value.metadata && AllMade(qs, render, rows, c, exp, result.value.metadata[|before|..])
  }

  lemma MakesStep(
    qs: seq<(string, Question)>, render: Rendering, rows: seq<seq<real>>, c: Calibrator, exp: real -> real,
    before: Dict<Json>, j: Json, result: Result<DecisionResult, EvalError>)
    requires qs != [] && |qs| == |rows| && Made(qs[0].1, render, rows[0], c, exp, j)
    requires Makes(qs[1..], render, rows[1..], c, exp, before + [(qs[0].0, j)], result)
    ensures Makes(qs, render, rows, c, exp, before, result)
  {
    if result.Success? { EntriesGrow(qs, render, rows, c, exp, before, j, result.value.metadata); }
  }

  lemma {:induction false} LoopMakes(
    qs: seq<(string, Question)>, state: Json, render: Rendering, rows: seq<seq<real>>, c: Calibrator,
    exp: real -> real, r: DecisionResult)
    requires AllReady(qs, state, render, rows) && Calibrates(c) && ExpLike(exp) && Fresh(r, qs)
    ensures Makes(qs, render, rows, c, exp, r.metadata, MapRows(qs, render, rows, c, exp, r))
    decreases |qs|
  {
    var result := MapRows(qs, render, rows, c, exp, r);
    if qs == [] {
      MapRowsEnd(render, c, exp, r);
    } else if result.Success? {
      var r', j := LoopStep(qs, state, render, rows, c, exp, r);
      LoopMakes(qs[1..], state, render, rows[1..], c, exp, r');
      MakesStep(qs, render, rows, c, exp, r.metadata, j, result);
    }
  }

  lemma {:induction false} AllMadeAt(
    qs: seq<(string, Question)>, render: Rendering, rows: seq<seq<real>>, c: Calibrator, exp: real -> real,
    entries: Dict<Json>, i: nat)
    requires |qs| == |rows| && AllMade(qs, render, rows, c, exp, entries) && i < |qs|
    ensures |entries| == |qs| && entries[i].0 == qs[i].0 && Made(qs[i].1, render, rows[i], c, exp, entries[i].1)
    decreases |qs|
  {
    AllMadeCount(qs, render, rows, c, exp, entries);
    if i > 0 {
      AllMadeAt(qs[1..], render, rows[1..], c, exp, entries[1..], i - 1);
      assert qs[1..][i - 1] == qs[i] && rows[1..][i - 1] == rows[i] && entries[1..][i - 1] == entries[i];
    }
  }

  lemma {:induction false} AllMadeCount(
    qs: seq<(string, Question)>, render: Rendering, rows: seq<seq<real>>, c: Calibrator, exp: real -> real,
    entries: Dict<Json>)
    requires |qs| == |rows| && AllMade(qs, render, rows, c, exp, entries)
    ensures |entries| == |qs|
    decreases |qs|
  {
    if qs != [] { AllMadeCount(qs[1..], render, rows[1..], c, exp, entries[1..]); }
  }

  /** What the row loop leaves for its i-th question. */
  lemma LoopRecords(
    qs: seq<(string, Question)>, state: Json, render: Rendering, rows: seq<seq<real>>, c: Calibrator,
    exp: real -> real, i: nat)
    requires AllReady(qs, state, render, rows) && Calibrates(c) && ExpLike(exp) && i < |qs|
    requires |qs| <= MAX_QUESTIONS && Distinct(QuestionIds(qs))
    requires MapRows(qs, render, rows, c, exp, DecisionResult([], [])).Success?
    ensures
      var metadata := MapRows(qs, render, rows, c, exp, DecisionResult([], [])).value.metadata;
      |metadata| == |qs| && metadata[i].0 == qs[i].0 && Records(qs[i].1, rows[i], c, exp, metadata[i].1)
  {
    assert Keys<Answer>([]) + QuestionIds(qs) == QuestionIds(qs);
    LoopMakes(qs, state, render, rows, c, exp, DecisionResult([], []));
    var metadata := MapRows(qs, render, rows, c, exp, DecisionResult([], [])).value.metadata;
    assert metadata[0..] == metadata;
    AllMadeAt(qs, render, rows, c, exp, metadata, i);
    MadeRecords(qs[i].1, state, render, rows[i], c, exp, metadata[i].1);
  }

  /** The metadata of a successful evaluation: for every question the full distribution of its own row. */
  lemma MetadataReads(
    r: Request, render: Rendering, c: Calibrator, exp: real -> real, forward: Forward, i: nat)
    requires ValidModel(r) && Acceptable(r, RLCD, render) && (r.model.Some? ==> r.model.value == REPO_ID)
    requires Calibrates(c) && ExpLike(exp) && i < |r.questions|
    requires
      var output := forward(Rlcd.Prompts(r, render));
      output.Some? && Wellformed(output.value, |r.questions|)
    requires Evaluated(r, render, c, exp, forward).Success?
    ensures
      var metadata := Evaluated(r, render, c, exp, forward).value.metadata;
      && |metadata| == |r.questions| && metadata[i].0 == r.questions[i].0
      && RecordsCells(r.questions[i].1, forward(Rlcd.Prompts(r, render)).value[i], c, exp, metadata[i].1)
  {
    var output := forward(Rlcd.Prompts(r, render)).value;
    RowsReady(r, render, output);
    EvaluatedIsLoop(r, render, c, exp, forward);
    RowRead(output, i);
    LoopRecords(r.questions, r.state, render, ParseRows(output).value, c, exp, i);
  }

  /** What one question leaves in the metadata, from the cells of its own row. */
  ghost predicate RecordsCells(q: Question, cells: seq<Cell>, c: Calibrator, exp: real -> real, j: Json) {
    exists row :: Cells(cells, row) && Records(q, row, c, exp, j)
  }
}
