/** Observation, driver, validation and tournament together. */
module Composition {
  import opened Wrappers
  import opened Text
  import opened Models
  import opened Questions
  import opened Validation
  import opened Registry
  import opened Observation
  import opened ObservationIndex
  import opened Selection
  import opened Tournament
  import opened Driver
  import Prompt
  import R = Results

  /** No reserved marker of the backend occurs in the text. */
  predicate Clean(caps: Capabilities, text: string) {
    forall m | m in caps.reservedMarkers :: !Contains(text, m)
  }

  predicate CleanState(d: Driver, s: Situation) {
    Clean(d.caps, d.render.dumps(d.BuildState(s)))
  }

  predicate CleanBatch(d: Driver, batch: seq<Candidate>) {
    forall c | c in batch :: Clean(d.caps, d.Clamp(c.description, MAX_DESCRIPTION_CHARS))
  }

  // ---- A batch question is acceptable exactly when its texts are clean --------------------

  lemma IdsDistinct(cs: seq<Candidate>)
    requires DistinctIds(cs)
    ensures Distinct(Ids(cs))
  {
    assert forall i :: 0 <= i < |cs| ==> Ids(cs)[i] == cs[i].id;
  }

  lemma BatchQuestionValid(d: Driver, s: Situation, batch: seq<Candidate>)
    requires DistinctIds(batch) && BatchSize(d.caps, |batch|)
    requires forall c | c in batch :: SelectableId(c.id)
    ensures ValidModel(d.BatchRequest(s, batch))
  {
    StateAdmissible(d, s);
    BatchChoiceValid(d, batch);
    assert BATCH_QUESTION_ID[0] == 'c';
    var r := d.BatchRequest(s, batch);
    assert QuestionIds(r.questions) == [BATCH_QUESTION_ID];
  }

  lemma BatchChoiceValid(d: Driver, batch: seq<Candidate>)
    requires DistinctIds(batch) && BatchSize(d.caps, |batch|)
    requires forall c | c in batch :: SelectableId(c.id)
    ensures ValidQuestion(d.BatchQuestion(batch))
  {
    var q := d.BatchQuestion(batch);
    forall k | k in q.keys
      ensures !Blank(k)
    {
      var i :| 0 <= i < |batch| && q.keys[i] == k;
      assert SelectableId(batch[i].id);
    }
    Bounded(q.values, 1, 0);
    assert BATCH_INSTRUCTIONS[0] == 'C';
    assert Distinct(q.keys) by { IdsDistinct(batch); }
  }

  /** The tournament's size check is the validator's candidate-total check. */
  lemma SizeIsTotal(caps: Capabilities, q: Question)
    requires q.Choice? && MIN_OPTIONS <= |q.keys| <= MAX_OPTIONS
    ensures BatchSize(caps, |q.keys|) <==> TotalSupported(q, caps)
  {
  }

  lemma InstructionsUnmarked()
    ensures !Prompt.Marked(BATCH_INSTRUCTIONS)
  {
    Prompt.MarkedHasBracket(BATCH_INSTRUCTIONS);
    assert '<' !in "Choose the single best next action ";
    assert '<' !in "for the goal from the ";
    assert '<' !in "candidate options.";
  }

  /** The parts of a batch prompt: the instructions, the state, the descriptions. */
  lemma BatchParts(d: Driver, s: Situation, batch: seq<Candidate>)
    ensures Prompt.PartsUnmarked(d.BatchQuestion(batch), d.RequestState(s), d.render) <==>
            !Prompt.Marked(d.render.dumps(d.BuildState(s))) &&
            forall c | c in batch :: !Prompt.Marked(d.Clamp(c.description, MAX_DESCRIPTION_CHARS))
  {
    InstructionsUnmarked();
    var parts := TextParts(d.BatchQuestion(batch), d.RequestState(s), d.render);
    assert parts[0] == BATCH_INSTRUCTIONS && parts[1] == d.render.dumps(d.BuildState(s));
    assert forall i :: 0 <= i < |batch| ==> parts[i + 2] == d.Clamp(batch[i].description, MAX_DESCRIPTION_CHARS);
    if Prompt.PartsUnmarked(d.BatchQuestion(batch), d.RequestState(s), d.render) {
      assert parts[1] in parts;
      forall c | c in batch
        ensures !Prompt.Marked(d.Clamp(c.description, MAX_DESCRIPTION_CHARS))
      {
        var i :| 0 <= i < |batch| && batch[i] == c;
        assert parts[i + 2] in parts;
      }
    }
  }

  lemma CleanIsUnmarked(text: string)
    ensures Clean(RLCD, text) <==> !Prompt.Marked(text)
  {
    assert RLCD.reservedMarkers[0] == LABEL_MARKER && RLCD.reservedMarkers[1] == SEP_MARKER;
  }

  lemma BatchMarkers(d: Driver, s: Situation, batch: seq<Candidate>)
    requires Registered(d.caps)
    ensures MarkerFree(d.BatchQuestion(batch), d.RequestState(s), d.caps.reservedMarkers, d.render) <==>
            CleanState(d, s) && CleanBatch(d, batch)
  {
    if d.caps == RLCD {
      Prompt.MarkerFreeMeans(d.BatchQuestion(batch), d.RequestState(s), d.render);
      BatchParts(d, s, batch);
      CleanIsUnmarked(d.render.dumps(d.BuildState(s)));
      forall c | c in batch
        ensures var t := d.Clamp(c.description, MAX_DESCRIPTION_CHARS);
                Clean(RLCD, t) <==> !Prompt.Marked(t)
      {
        CleanIsUnmarked(d.Clamp(c.description, MAX_DESCRIPTION_CHARS));
      }
    }
  }

  /**
   For a registered backend, a batch of a supported size makes a valid request whose only
   possible issue is a reserved marker in its texts.
   */
  lemma BatchAcceptable(d: Driver, s: Situation, batch: seq<Candidate>)
    requires Registered(d.caps) && DistinctIds(batch) && BatchSize(d.caps, |batch|)
    requires forall c | c in batch :: SelectableId(c.id)
    ensures ValidModel(d.BatchRequest(s, batch))
    ensures Acceptable(d.BatchRequest(s, batch), d.caps, d.render) <==> CleanState(d, s) && CleanBatch(d, batch)
  {
    BatchQuestionValid(d, s, batch);
    BatchMarkers(d, s, batch);
    var q := d.BatchQuestion(batch);
    SizeIsTotal(d.caps, q);
    forall k | k in q.keys
      ensures k !in d.caps.reservedIds
    {
      var i :| 0 <= i < |batch| && q.keys[i] == k;
      assert SelectableId(batch[i].id);
    }
    assert AcceptableState(d.RequestState(s), d.caps);
    assert d.BatchRequest(s, batch).questions[0].1 == q;
    assert AcceptableQuestion(q, d.RequestState(s), d.caps, d.render) <==>
           MarkerFree(q, d.RequestState(s), d.caps.reservedMarkers, d.render);
  }

  // ---- What the driver can do to a tournament ------------------------------------------------

  lemma IdsHave(cs: seq<Candidate>, id: string)
    ensures id in Ids(cs) <==> HasId(cs, id)
  {
    if id in Ids(cs) {
      var i :| 0 <= i < |cs| && Ids(cs)[i] == id;
      assert cs[i] in cs;
    }
    if HasId(cs, id) {
      var c :| c in cs && c.id == id;
      var i :| 0 <= i < |cs| && cs[i] == c;
      assert Ids(cs)[i] == id;
    }
  }

  /** The tournament accepts what `choose_batch` returns; it fails only where the driver itself does. */
  lemma ChoiceIsUsable(d: Driver, s: Situation, n: nat, batch: seq<Candidate>)
    requires forall c | c in batch :: SelectableId(c.id)
    ensures
      match d.ChooseBatch(n, s, batch)
      case Success(id) =>
        var w := Winner(batch, d.Chooser(s)(n, batch));
        w.Success? && w.value in batch && w.value.id == id
      case Failure(_) => Winner(batch, d.Chooser(s)(n, batch)) == Failure(ChooserFailed)
  {
    var r := d.ChooseBatch(n, s, batch);
    if r.Success? {
      IdsHave(batch, r.value);
      FoundById(batch, r.value);
    }
  }

  /** Whatever the backend answers, what goes wrong in a tournament is a failing batch question. */
  lemma OnlyTheDriverFails(d: Driver, s: Situation, items: seq<Candidate>, sizes: seq<Size>)
    requires forall c | c in items :: SelectableId(c.id)
    ensures Faults(d.Chooser(s), items, sizes, {ChooserFailed})
  {
    forall n: nat, b: seq<Candidate> | Presentable(b, items, sizes)
      ensures
        var w := Winner(b, d.Chooser(s)(n, b));
        w.Failure? ==> w.error in {ChooserFailed}
    {
      ChoiceIsUsable(d, s, n, b);
    }
  }

  lemma EnoughRounds()
    ensures MAX_SESSION_ELEMENTS + 3 <= Pow2(MAX_ROUNDS)
  {
    assert Pow2(9) == 512;
    Pow2Grows(9, MAX_ROUNDS);
  }

  lemma {:induction false} Pow2Grows(a: nat, b: nat)
    requires a <= b
    ensures Pow2(a) <= Pow2(b)
    decreases b
  {
    if a < b { Pow2Grows(a, b - 1); }
  }

  /** What a batch that reaches `choose_batch` is worth. */
  ghost predicate Presented(d: Driver, s: Situation, batch: seq<Candidate>) {
    batch != [] && DistinctIds(batch) && |batch| in BatchSizes(d.caps) &&
    ValidModel(d.BatchRequest(s, batch)) && TotalSupported(d.BatchQuestion(batch), d.caps)
  }

  lemma PresentableIsPresented(d: Driver, s: Situation, batch: seq<Candidate>, items: seq<Candidate>)
    requires Presentable(batch, items, SizesDown(d.caps, MAX_OPTIONS))
    requires forall c | c in items :: SelectableId(c.id)
    ensures Presented(d, s, batch)
  {
    BatchQuestionValid(d, s, batch);
    SizeIsTotal(d.caps, d.BatchQuestion(batch));
  }

  lemma SelectionAsks(d: Driver, s: Situation, cs: seq<Candidate>, choose: Selection.Chooser)
    requires forall c | c in cs :: SelectableId(c.id)
    ensures AllPresented(d, s, Select(cs, d.caps, choose).calls)
  {
    SelectionPresents(cs, d.caps, choose);
    forall batch | batch in Select(cs, d.caps, choose).calls
      ensures Presented(d, s, batch)
    {
      PresentableIsPresented(d, s, batch, cs);
    }
  }

  /** A selection raises none of the tournament's own errors and asks only what may be asked. */
  ghost predicate Sound(d: Driver, s: Situation, cs: seq<Candidate>, p: Play<Candidate>) {
    && (p.outcome.Failure? ==> p.outcome.error == ChooserFailed)
    && (p.outcome.Success? ==> p.outcome.value in cs)
    && |p.calls| < |cs|
    && AllPresented(d, s, p.calls)
  }

  ghost predicate AllPresented(d: Driver, s: Situation, calls: seq<seq<Candidate>>) {
    forall batch | batch in calls :: Presented(d, s, batch)
  }

  lemma SelectionFacts(caps: Capabilities, cs: seq<Candidate>, choose: Selection.Chooser)
    requires 2 in BatchSizes(caps) && cs != [] && DistinctIds(cs) && |cs| <= Pow2(MAX_ROUNDS)
    requires Faults(choose, cs, SizesDown(caps, MAX_OPTIONS), {ChooserFailed})
    ensures
      var p := Select(cs, caps, choose);
      && (p.outcome.Failure? ==> p.outcome.error == ChooserFailed)
      && (p.outcome.Success? ==> p.outcome.value in cs)
      && |p.calls| < |cs|
  {
    FaultsOfSelection(cs, caps, choose, {ChooserFailed});
    SelectedIsCandidate(cs, caps, choose);
    SelectionConserves(cs, caps, choose);
  }

  lemma SoundSelection(d: Driver, s: Situation, cs: seq<Candidate>, choose: Selection.Chooser)
    requires Registered(d.caps) && cs != [] && DistinctIds(cs) && |cs| <= MAX_SESSION_ELEMENTS + 3
    requires forall c | c in cs :: SelectableId(c.id)
    requires Faults(choose, cs, SizesDown(d.caps, MAX_OPTIONS), {ChooserFailed})
    ensures Sound(d, s, cs, Select(cs, d.caps, choose))
  {
    RegisteredTakesPairs(d.caps);
    EnoughRounds();
    SelectionFacts(d.caps, cs, choose);
    SelectionAsks(d, s, cs, choose);
  }

  /**
   Over any page and with any backend, registered by its capabilities: a selection raises none
   of the tournament's own errors, every batch passes the size and uniqueness checks of
   `choose_batch` and the validator's candidate-total check, and the chosen candidate is one
   of the observation's.
   */
  lemma ObservationSelects(
    lib: Library, b: Builder, url: string, title: string, text: string, elements: seq<RawElement>,
    d: Driver, s: Situation)
    requires Built(lib, b, url, title, text, elements) == Success(s.observation) && Registered(d.caps)
    ensures Sound(d, s, s.observation.candidates, d.SelectCandidate(s))
  {
    CandidatesSelectable(lib, b, url, title, text, elements);
    OnlyTheDriverFails(d, s, s.observation.candidates, SizesDown(d.caps, MAX_OPTIONS));
    SoundSelection(d, s, s.observation.candidates, d.Chooser(s));
  }

  lemma FaultsHere(caps: Capabilities, cs: seq<Candidate>, choose: Selection.Chooser, faults: set<SelectionError>)
    requires Registered(caps) && cs != [] && DistinctIds(cs) && |cs| <= MAX_SESSION_ELEMENTS + 3
    requires Faults(choose, cs, SizesDown(caps, MAX_OPTIONS), faults)
    ensures
      var o := Select(cs, caps, choose).outcome;
      o.Failure? ==> o.error in faults
  {
    RegisteredTakesPairs(caps);
    EnoughRounds();
    FaultsOfSelection(cs, caps, choose, faults);
  }

  // ---- A backend that answers --------------------------------------------------------------

  /** A request whose one question is a batch question. */
  predicate AsksBatch(r: Request) {
    ValidModel(r) && |r.questions| == 1 && r.questions[0].0 == BATCH_QUESTION_ID && r.questions[0].1.Choice?
  }

  predicate Names(caps: Capabilities, reply: Reply, options: seq<string>) {
    && reply.Replied? && reply.result.backend == caps.backend && reply.result.calibrated == caps.calibrated
    && reply.result.answers.Keys == {BATCH_QUESTION_ID}
    && reply.result.answers[BATCH_QUESTION_ID].ChoiceAnswer?
    && reply.result.answers[BATCH_QUESTION_ID].choice in options
  }

  /** To every batch question that validation lets through, the backend's answer is one of the options. */
  ghost predicate Willing(d: Driver) {
    forall n: nat, r: Request | AsksBatch(r) && Acceptable(r, d.caps, d.render) ::
      Names(d.caps, d.ask(n, r), r.questions[0].1.keys)
  }

  /** A backend that always names the first option. */
  function FirstOption(caps: Capabilities, r: Request): Reply {
    if |r.questions| == 1 && r.questions[0].1.Choice? && r.questions[0].1.keys != [] then
      Replied(BackendResult(caps.backend, caps.calibrated,
                            map[BATCH_QUESTION_ID := R.ChoiceAnswer(r.questions[0].1.keys[0], None, None)]))
    else BackendRaised
  }

  /** Willing backends exist, whatever the capabilities and the rendering. */
  lemma SomeBackendIsWilling(caps: Capabilities, collapse: string -> string, render: Rendering) returns (d: Driver)
    ensures d.caps == caps && d.collapse == collapse && d.render == render && Willing(d)
  {
    d := Driver(caps, (n: nat, r: Request) => FirstOption(caps, r), collapse, render);
    forall n: nat, r: Request | AsksBatch(r) && Acceptable(r, d.caps, d.render)
      ensures Names(d.caps, d.ask(n, r), r.questions[0].1.keys)
    {
      assert r.questions[0] in r.questions && ValidQuestion(r.questions[0].1);
    }
  }

  lemma WillingChooses(d: Driver, s: Situation, n: nat, batch: seq<Candidate>)
    requires Registered(d.caps) && Willing(d) && DistinctIds(batch) && BatchSize(d.caps, |batch|)
    requires forall c | c in batch :: SelectableId(c.id)
    requires CleanState(d, s) && CleanBatch(d, batch)
    ensures d.ChooseBatch(n, s, batch).Success?
  {
    BatchAcceptable(d, s, batch);
    var r := d.BatchRequest(s, batch);
    assert Names(d.caps, d.ask(n, r), Ids(batch));
    var choice := d.ask(n, r).result.answers[BATCH_QUESTION_ID].choice;
    var i :| 0 <= i < |batch| && Ids(batch)[i] == choice;
    assert SelectableId(batch[i].id);
  }

  /** An answered batch was clean. */
  lemma ChosenIsClean(d: Driver, s: Situation, n: nat, batch: seq<Candidate>)
    requires Registered(d.caps) && d.ChooseBatch(n, s, batch).Success?
    ensures CleanState(d, s) && CleanBatch(d, batch)
  {
    BatchMarkers(d, s, batch);
    var r := d.BatchRequest(s, batch);
    assert r.questions[0].1 == d.BatchQuestion(batch);
    assert AcceptableQuestion(r.questions[0].1, r.state, d.caps, d.render);
  }

  /**
   With a backend that answers, selection succeeds if and only if no reserved marker occurs in
   the rendered state or in any candidate's description: a page that shows one blocks it.
   */
  lemma SelectionIsExact(
    lib: Library, b: Builder, url: string, title: string, text: string, elements: seq<RawElement>,
    d: Driver, s: Situation)
    requires Built(lib, b, url, title, text, elements) == Success(s.observation)
    requires Registered(d.caps) && Willing(d)
    ensures d.SelectCandidate(s).outcome.Success? <==> CleanState(d, s) && CleanBatch(d, s.observation.candidates)
  {
    var cs := s.observation.candidates;
    CandidatesSelectable(lib, b, url, title, text, elements);
    if d.SelectCandidate(s).outcome.Success? {
      HeardIsClean(d, s, cs[0]);
      forall c | c in cs
        ensures Clean(d.caps, d.Clamp(c.description, MAX_DESCRIPTION_CHARS))
      {
        HeardIsClean(d, s, c);
      }
    }
    if CleanState(d, s) && CleanBatch(d, cs) {
      WillingIsObedient(d, s, cs, SizesDown(d.caps, MAX_OPTIONS));
      FaultsHere(d.caps, cs, d.Chooser(s), {});
    }
  }

  lemma HeardIsClean(d: Driver, s: Situation, c: Candidate)
    requires Registered(d.caps) && |s.observation.candidates| >= 2 && c in s.observation.candidates
    requires d.SelectCandidate(s).outcome.Success?
    ensures CleanState(d, s) && Clean(d.caps, d.Clamp(c.description, MAX_DESCRIPTION_CHARS))
  {
    EveryoneHeard(s.observation.candidates, d.caps, d.Chooser(s), c);
    HeardWasClean(d, s, d.SelectCandidate(s).calls, c);
  }

  lemma HeardWasClean(d: Driver, s: Situation, calls: seq<seq<Candidate>>, c: Candidate)
    requires Registered(d.caps) && Heard(d.Chooser(s), calls, 0, c)
    ensures CleanState(d, s) && Clean(d.caps, d.Clamp(c.description, MAX_DESCRIPTION_CHARS))
  {
    var i :| 0 <= i < |calls| && HeardIn(d.Chooser(s), calls, i, c);
    var batch := calls[i];
    assert c in batch && Winner(batch, d.Chooser(s)(i, batch)).Success?;
    WinnerWasChosen(d, s, i, batch);
    ChosenIsClean(d, s, i, batch);
  }

  lemma WinnerWasChosen(d: Driver, s: Situation, n: nat, batch: seq<Candidate>)
    ensures Winner(batch, d.Chooser(s)(n, batch)).Success? ==> d.ChooseBatch(n, s, batch).Success?
  {
  }

  lemma WillingIsObedient(d: Driver, s: Situation, items: seq<Candidate>, sizes: seq<Size>)
    requires Registered(d.caps) && Willing(d) && CleanState(d, s) && CleanBatch(d, items)
    requires forall k: nat | k in sizes :: BatchSize(d.caps, k)
    requires forall c | c in items :: SelectableId(c.id)
    ensures Obedient(d.Chooser(s), items, sizes)
  {
    forall n: nat, b: seq<Candidate> | Presentable(b, items, sizes)
      ensures
        var w := Winner(b, d.Chooser(s)(n, b));
        w.Failure? ==> w.error in {}
    {
      WillingWins(d, s, n, b);
    }
  }

  lemma WillingWins(d: Driver, s: Situation, n: nat, batch: seq<Candidate>)
    requires Registered(d.caps) && Willing(d) && DistinctIds(batch) && BatchSize(d.caps, |batch|)
    requires forall c | c in batch :: SelectableId(c.id)
    requires CleanState(d, s) && CleanBatch(d, batch)
    ensures Winner(batch, d.Chooser(s)(n, batch)).Success?
  {
    WillingChooses(d, s, n, batch);
    ChoiceIsUsable(d, s, n, batch);
  }
}
