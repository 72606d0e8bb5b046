/** The driver's goal question: a yes or no, with one fallback question where only an uncalibrated number comes back. */
module GoalCheck {
  import opened Wrappers
  import opened Text
  import opened Json
  import opened Questions
  import opened Validation
  import opened Registry
  import opened Driver
  import opened Composition
  import Prompt
  import R = Results

  const GOAL_QUESTION_ID: string := "goal_complete"
  const FALLBACK_QUESTION_ID: string := "goal_complete_fallback"
  const COMPLETE_ID: string := "complete"
  const CONTINUE_ID: string := "continue"
  const GOAL_INSTRUCTIONS: string :=
    "Decide whether the user's goal " + "is fully complete on the current page. " +
    "Answer true only when nothing " + "remains to do to reach the goal."
  const GOAL_TRUE: string := "The goal is fully complete on this page."
  const GOAL_FALSE: string := "The goal is not complete; more actions are needed."
  const FALLBACK_INSTRUCTIONS: string := "Decide whether the user's goal " + "is complete on the current page."
  const FALLBACK_COMPLETE: string := "The goal is complete; stop."
  const FALLBACK_CONTINUE: string := "More actions are needed; continue."

  function GoalQuestion(): Question {
    Noul(GOAL_INSTRUCTIONS, Some(Dict(["true", "false"], [Str(GOAL_TRUE), Str(GOAL_FALSE)])))
  }

  function FallbackQuestion(): Question {
    Choice(FALLBACK_INSTRUCTIONS, [COMPLETE_ID, CONTINUE_ID], [Str(FALLBACK_COMPLETE), Str(FALLBACK_CONTINUE)])
  }

  function RequestOf(d: Driver, s: Situation, id: string, q: Question): Request {
    Request(d.RequestState(s), None, [(id, q)])
  }

  /** `_require_single_answer`, after `_evaluate`. */
  function AnswerTo(d: Driver, n: nat, s: Situation, id: string, q: Question): Result<R.Answer, Problem> {
    match d.Evaluate(n, RequestOf(d, s, id, q))
    case Failure(e) => Failure(e)
    case Success(result) =>
      if result.answers.Keys != {id} then Failure(WrongQuestions) else Success(result.answers[id])
  }

  /** `_goal_complete_fallback`. */
  function Fallback(d: Driver, n: nat, s: Situation): Result<bool, Problem> {
    match AnswerTo(d, n, s, FALLBACK_QUESTION_ID, FallbackQuestion())
    case Failure(e) => Failure(e)
    case Success(answer) =>
      match answer
      case AbstainAnswer(_, _, _, _, _) => Failure(DriverAbstained)
      case ChoiceAnswer(choice, _, _) =>
        if choice == COMPLETE_ID then Success(true)
        else if choice == CONTINUE_ID then Success(false)
        else Failure(OutsideBatch)
      case _ => Failure(WrongType)
  }

  /** `goal_complete`; n numbers the driver's questions. */
  function GoalComplete(d: Driver, n: nat, s: Situation): Result<bool, Problem> {
    match AnswerTo(d, n, s, GOAL_QUESTION_ID, GoalQuestion())
    case Failure(e) => Failure(e)
    case Success(answer) =>
      match answer
      case AbstainAnswer(_, _, _, _, _) => Failure(DriverAbstained)
      case NoulAnswer(noul, value, _) =>
        if value.Some? then Success(value.value)
        else if noul.None? then Failure(WrongType)
        else if d.caps.calibrated then Success(noul.value >= 0.5)
        else Fallback(d, n + 1, s)
      case _ => Failure(WrongType)
  }

  // ---- What decides ------------------------------------------------------------------------

  /** The backend was asked this question and answered it, as itself and with its own calibration claim. */
  predicate Answers(d: Driver, n: nat, s: Situation, id: string, q: Question, a: R.Answer) {
    var r := RequestOf(d, s, id, q);
    && ValidModel(r) && Acceptable(r, d.caps, d.render)
    && d.ask(n, r).Replied?
    && var result := d.ask(n, r).result;
       result.backend == d.caps.backend && result.calibrated == d.caps.calibrated && result.answers == map[id := a]
  }

  lemma AnswerExact(d: Driver, n: nat, s: Situation, id: string, q: Question, a: R.Answer)
    ensures AnswerTo(d, n, s, id, q) == Success(a) <==> Answers(d, n, s, id, q, a)
  {
    var r := RequestOf(d, s, id, q);
    if d.ask(n, r).Replied? {
      var answers := d.ask(n, r).result.answers;
      assert answers.Keys == {id} ==> answers == map[id := answers[id]];
      assert answers == map[id := a] ==> answers.Keys == {id};
    }
  }

  /** A plain yes or no; or a probability, read at one half where it is calibrated; or the fallback's choice. */
  ghost predicate Means(
    d: Driver, n: nat, s: Situation, noul: Option<real>, value: Option<bool>, complete: bool)
  {
    if value.Some? then value.value == complete
    else
      && noul.Some?
      && if d.caps.calibrated then complete == (noul.value >= 0.5) else FallsBack(d, n + 1, s, complete)
  }

  ghost predicate Decides(d: Driver, n: nat, s: Situation, complete: bool) {
    exists noul, value, confidence ::
      && Answers(d, n, s, "goal_complete", GoalQuestion(), R.NoulAnswer(noul, value, confidence))
      && Means(d, n, s, noul, value, complete)
  }

  /** The second question was answered with the option that stands for this. */
  ghost predicate FallsBack(d: Driver, n: nat, s: Situation, complete: bool) {
    if complete then Chooses(d, n, s, "complete") else Chooses(d, n, s, "continue")
  }

  ghost predicate Chooses(d: Driver, n: nat, s: Situation, choice: string) {
    exists confidence, probabilities ::
      Answers(d, n, s, "goal_complete_fallback", FallbackQuestion(), R.ChoiceAnswer(choice, confidence, probabilities))
  }

  lemma IdsDiffer()
    ensures COMPLETE_ID != CONTINUE_ID
  {
    assert COMPLETE_ID[2] == 'm' && CONTINUE_ID[2] == 'n';
  }

  lemma FallbackExact(d: Driver, n: nat, s: Situation, complete: bool)
    ensures Fallback(d, n, s) == Success(complete) <==> FallsBack(d, n, s, complete)
  {
    IdsDiffer();
    var r := AnswerTo(d, n, s, FALLBACK_QUESTION_ID, FallbackQuestion());
    if r.Success? { AnswerExact(d, n, s, FALLBACK_QUESTION_ID, FallbackQuestion(), r.value); }
    forall a
      ensures Answers(d, n, s, FALLBACK_QUESTION_ID, FallbackQuestion(), a) ==> r == Success(a)
    {
      AnswerExact(d, n, s, FALLBACK_QUESTION_ID, FallbackQuestion(), a);
    }
  }

  lemma GoalRead(
    d: Driver, n: nat, s: Situation, noul: Option<real>, value: Option<bool>, confidence: Option<real>, complete: bool)
    requires AnswerTo(d, n, s, GOAL_QUESTION_ID, GoalQuestion()) == Success(R.NoulAnswer(noul, value, confidence))
    ensures GoalComplete(d, n, s) == Success(complete) <==> Means(d, n, s, noul, value, complete)
  {
    FallbackExact(d, n + 1, s, complete);
  }

  lemma OnlyNoulCounts(d: Driver, n: nat, s: Situation)
    requires GoalComplete(d, n, s).Success?
    ensures
      var r := AnswerTo(d, n, s, GOAL_QUESTION_ID, GoalQuestion());
      r.Success? && r.value.NoulAnswer?
  {
  }

  /** The goal counts as complete, or as not, exactly by what the backend answered. */
  lemma GoalExact(d: Driver, n: nat, s: Situation, complete: bool)
    ensures GoalComplete(d, n, s) == Success(complete) <==> Decides(d, n, s, complete)
  {
    if GoalComplete(d, n, s) == Success(complete) {
      OnlyNoulCounts(d, n, s);
      var a := AnswerTo(d, n, s, GOAL_QUESTION_ID, GoalQuestion()).value;
      AnswerExact(d, n, s, GOAL_QUESTION_ID, GoalQuestion(), a);
      GoalRead(d, n, s, a.noul, a.value, a.confidence, complete);
    }
    if Decides(d, n, s, complete) {
      var noul, value, confidence :|
        && Answers(d, n, s, "goal_complete", GoalQuestion(), R.NoulAnswer(noul, value, confidence))
        && Means(d, n, s, noul, value, complete);
      AnswerExact(d, n, s, GOAL_QUESTION_ID, GoalQuestion(), R.NoulAnswer(noul, value, confidence));
      GoalRead(d, n, s, noul, value, confidence, complete);
    }
  }

  // ---- Both questions may always be asked ------------------------------------------------------

  predicate NoBracket(text: string) {
    '<' !in text
  }

  lemma GoalText()
    ensures NoBracket("Decide whether the user's goal ") && NoBracket("is fully complete on the current page. ")
  {
  }

  lemma OnlyText()
    ensures NoBracket("Answer true only when nothing ") && NoBracket("remains to do to reach the goal.")
  {
  }

  lemma CurrentText()
    ensures NoBracket("is complete on the current page.")
  {
  }

  lemma JoinUnmarked(a: string, b: string)
    requires NoBracket(a) && NoBracket(b)
    ensures NoBracket(a + b) && !Prompt.Marked(a + b)
  {
    Prompt.MarkedHasBracket(a + b);
  }

  lemma GoalUnmarked()
    ensures !Prompt.Marked(GOAL_INSTRUCTIONS)
  {
    GoalText();
    OnlyText();
    var a, b := "Decide whether the user's goal ", "is fully complete on the current page. ";
    var c, d := "Answer true only when nothing ", "remains to do to reach the goal.";
    JoinUnmarked(a, b);
    JoinUnmarked(a + b, c);
    JoinUnmarked(a + b + c, d);
  }

  lemma FallbackUnmarked()
    ensures !Prompt.Marked(FALLBACK_INSTRUCTIONS)
  {
    GoalText();
    CurrentText();
    JoinUnmarked("Decide whether the user's goal ", "is complete on the current page.");
  }

  lemma OptionsUnmarked()
    ensures !Prompt.Marked(FALLBACK_COMPLETE) && !Prompt.Marked(FALLBACK_CONTINUE)
  {
    Prompt.MarkedHasBracket(FALLBACK_COMPLETE);
    Prompt.MarkedHasBracket(FALLBACK_CONTINUE);
    assert '<' !in FALLBACK_COMPLETE;
    assert '<' !in FALLBACK_CONTINUE;
  }

  lemma PairSmall(a: Json, b: Json, keys: seq<string>)
    requires a.Str? && b.Str?
    ensures Admissible(Dict(keys, [a, b]))
  {
    Bounded([a, b], 1, 0);
  }

  lemma QuestionsValid()
    ensures ValidQuestion(GoalQuestion()) && ValidQuestion(FallbackQuestion())
  {
    PairSmall(Str(GOAL_TRUE), Str(GOAL_FALSE), ["true", "false"]);
    PairSmall(Str(FALLBACK_COMPLETE), Str(FALLBACK_CONTINUE), [COMPLETE_ID, CONTINUE_ID]);
    IdsDiffer();
    assert "true"[0] == 't' && "false"[0] == 'f' && GOAL_INSTRUCTIONS[0] == 'D' && FALLBACK_INSTRUCTIONS[0] == 'D';
    assert COMPLETE_ID[0] == 'c' && CONTINUE_ID[0] == 'c' && !IsSpace('D') && !IsSpace('c');
  }

  lemma RequestsValid(d: Driver, s: Situation)
    ensures ValidModel(RequestOf(d, s, GOAL_QUESTION_ID, GoalQuestion()))
    ensures ValidModel(RequestOf(d, s, FALLBACK_QUESTION_ID, FallbackQuestion()))
  {
    StateAdmissible(d, s);
    QuestionsValid();
    assert GOAL_QUESTION_ID[0] == 'g' && FALLBACK_QUESTION_ID[0] == 'g' && !IsSpace('g');
    assert QuestionIds([(GOAL_QUESTION_ID, GoalQuestion())]) == [GOAL_QUESTION_ID];
    assert QuestionIds([(FALLBACK_QUESTION_ID, FallbackQuestion())]) == [FALLBACK_QUESTION_ID];
  }

  lemma StateText(d: Driver, s: Situation)
    ensures d.render.StateText(d.RequestState(s)) == d.render.dumps(d.BuildState(s))
  {
  }

  lemma GoalParts(d: Driver, s: Situation)
    ensures Prompt.PartsUnmarked(GoalQuestion(), d.RequestState(s), d.render) <==>
            !Prompt.Marked(d.render.dumps(d.BuildState(s)))
    ensures Prompt.PartsUnmarked(FallbackQuestion(), d.RequestState(s), d.render) <==>
            !Prompt.Marked(d.render.dumps(d.BuildState(s)))
  {
    GoalUnmarked();
    FallbackUnmarked();
    OptionsUnmarked();
    StateText(d, s);
    var state := d.render.dumps(d.BuildState(s));
    var goal := TextParts(GoalQuestion(), d.RequestState(s), d.render);
    var fallback := TextParts(FallbackQuestion(), d.RequestState(s), d.render);
    assert goal == [GOAL_INSTRUCTIONS, state];
    assert fallback == [FALLBACK_INSTRUCTIONS, state, FALLBACK_COMPLETE, FALLBACK_CONTINUE];
    assert goal[1] == state && fallback[1] == state;
    assert forall p | p in goal :: p == goal[0] || p == goal[1];
    assert forall p | p in fallback :: p == fallback[0] || p == fallback[1] || p == fallback[2] || p == fallback[3];
  }

  lemma GoalMarkers(d: Driver, s: Situation, q: Question)
    requires Registered(d.caps) && q in {GoalQuestion(), FallbackQuestion()}
    ensures MarkerFree(q, d.RequestState(s), d.caps.reservedMarkers, d.render) <==> CleanState(d, s)
  {
    if d.caps == RLCD {
      GoalParts(d, s);
      Prompt.MarkerFreeMeans(q, d.RequestState(s), d.render);
      CleanIsUnmarked(d.render.dumps(d.BuildState(s)));
    }
  }

  lemma IdsUnreserved(caps: Capabilities)
    requires Registered(caps)
    ensures COMPLETE_ID !in caps.reservedIds && CONTINUE_ID !in caps.reservedIds
  {
    assert COMPLETE_ID[0] == 'c' && CONTINUE_ID[0] == 'c' && ABSTAIN_ANSWER_ID[0] == '_';
  }

  lemma OnlyMarkersMatter(d: Driver, s: Situation, q: Question)
    requires Registered(d.caps) && q in {GoalQuestion(), FallbackQuestion()}
    ensures AcceptableQuestion(q, d.RequestState(s), d.caps, d.render) <==>
            MarkerFree(q, d.RequestState(s), d.caps.reservedMarkers, d.render)
    ensures AcceptableState(d.RequestState(s), d.caps)
  {
    IdsUnreserved(d.caps);
  }

  /** For a registered backend both questions are accepted unless a reserved marker is in the state. */
  lemma GoalAskable(d: Driver, s: Situation, id: string, q: Question)
    requires Registered(d.caps)
    requires (id, q) == (GOAL_QUESTION_ID, GoalQuestion()) || (id, q) == (FALLBACK_QUESTION_ID, FallbackQuestion())
    ensures ValidModel(RequestOf(d, s, id, q))
    ensures Acceptable(RequestOf(d, s, id, q), d.caps, d.render) <==> CleanState(d, s)
  {
    RequestsValid(d, s);
    GoalMarkers(d, s, q);
    OnlyMarkersMatter(d, s, q);
    OneAcceptable(id, q, d.RequestState(s), d.caps, d.render);
  }

  lemma OneAcceptable(id: string, q: Question, state: Json, caps: Capabilities, render: Rendering)
    ensures AllAcceptable([(id, q)], state, caps, render) <==> AcceptableQuestion(q, state, caps, render)
  {
    assert [(id, q)][0] in [(id, q)];
  }

  // ---- A backend that answers --------------------------------------------------------------------

  predicate Canonical(caps: Capabilities, reply: Reply, id: string) {
    && reply.Replied? && reply.result.backend == caps.backend && reply.result.calibrated == caps.calibrated
    && reply.result.answers.Keys == {id}
  }

  /** To the goal question it gives a yes, a no or a number, to the fallback question one of its options. */
  ghost predicate Decisive(d: Driver) {
    && (forall n: nat, r: Request |
          Acceptable(r, d.caps, d.render) && r.questions == [(GOAL_QUESTION_ID, GoalQuestion())] ::
          && Canonical(d.caps, d.ask(n, r), GOAL_QUESTION_ID)
          && var a := d.ask(n, r).result.answers[GOAL_QUESTION_ID]; a.NoulAnswer? && (a.value.Some? || a.noul.Some?))
    && (forall n: nat, r: Request |
          Acceptable(r, d.caps, d.render) && r.questions == [(FALLBACK_QUESTION_ID, FallbackQuestion())] ::
          && Canonical(d.caps, d.ask(n, r), FALLBACK_QUESTION_ID)
          && var a := d.ask(n, r).result.answers[FALLBACK_QUESTION_ID];
             a.ChoiceAnswer? && a.choice in {COMPLETE_ID, CONTINUE_ID})
  }

  lemma GoalAnswered(d: Driver, n: nat, s: Situation)
    requires Registered(d.caps) && Decisive(d) && CleanState(d, s)
    ensures
      var r := AnswerTo(d, n, s, GOAL_QUESTION_ID, GoalQuestion());
      r.Success? && r.value.NoulAnswer? && (r.value.value.Some? || r.value.noul.Some?)
  {
    GoalAskable(d, s, GOAL_QUESTION_ID, GoalQuestion());
    assert Canonical(d.caps, d.ask(n, RequestOf(d, s, GOAL_QUESTION_ID, GoalQuestion())), GOAL_QUESTION_ID);
  }

  lemma FallbackAnswered(d: Driver, n: nat, s: Situation)
    requires Registered(d.caps) && Decisive(d) && CleanState(d, s)
    ensures Fallback(d, n, s).Success?
  {
    GoalAskable(d, s, FALLBACK_QUESTION_ID, FallbackQuestion());
    assert Canonical(
      d.caps, d.ask(n, RequestOf(d, s, FALLBACK_QUESTION_ID, FallbackQuestion())), FALLBACK_QUESTION_ID);
  }

  /** With a backend that answers, the goal question fails exactly where a reserved marker is in the state. */
  lemma GoalIsDecided(d: Driver, n: nat, s: Situation)
    requires Registered(d.caps) && Decisive(d)
    ensures GoalComplete(d, n, s).Success? <==> CleanState(d, s)
  {
    GoalAskable(d, s, GOAL_QUESTION_ID, GoalQuestion());
    if CleanState(d, s) {
      GoalAnswered(d, n, s);
      FallbackAnswered(d, n + 1, s);
    }
  }
}
