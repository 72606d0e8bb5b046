/** Over every run: what is acted on, asked for and paused on is what the driver chose from what the page showed. */
module RunChoices {
  import opened Wrappers
  import opened Models
  import opened Observation
  import opened Selection
  import opened Protocol
  import opened ProtocolRuns
  import RunEffects
  import E = Executor
  import X = Extraction

  // ---- How a choice comes about ------------------------------------------------------------

  /** What the run thread was given, in order. */
  function Inputs(events: seq<Event>): seq<Input> {
    if events == [] then []
    else
      var e := events[|events| - 1];
      Inputs(events[..|events| - 1]) + if e.Thread? then [e.input] else []
  }

  /** The page shown is observed like this. */
  predicate Shows(cfg: Config, i: Input, obs: RuntimeObservation) {
    && i.io.shot.Loaded?
    && var p := i.io.shot.page;
       cfg.setup.build(p.url, p.title, p.text, X.Elements(X.Extracted(p.groups))) == Success(obs)
  }

  predicate Picks(cfg: Config, i: Input, obs: RuntimeObservation, c: Candidate) {
    Select(obs.candidates, cfg.caps, i.choose).outcome == Success(c)
  }

  /** The last three inputs: the page showed obs, its goal was not complete, and c was chosen from it. */
  predicate Led(cfg: Config, given: seq<Input>, obs: RuntimeObservation, c: Candidate) {
    var n := |given|;
    n >= 3 && Shows(cfg, given[n - 3], obs) && given[n - 2].goal == Says(false) && Picks(cfg, given[n - 1], obs, c)
  }

  /** At some moment these were the last three inputs. */
  ghost predicate LedOnce(cfg: Config, given: seq<Input>, obs: RuntimeObservation, c: Candidate) {
    exists n: nat :: n <= |given| && Led(cfg, given[..n], obs, c)
  }

  /** The input after such a choice gave this request its id; it asks for a text for that candidate. */
  ghost predicate AskedOnce(
    cfg: Config, given: seq<Input>, obs: RuntimeObservation, c: Candidate, request: Request)
  {
    exists n: nat :: n < |given| && AskedBy(cfg, given, n, obs, c, request)
  }

  predicate AskedBy(
    cfg: Config, given: seq<Input>, n: nat, obs: RuntimeObservation, c: Candidate, request: Request)
    requires n < |given|
  {
    Led(cfg, given[..n], obs, c) && request == Request(given[n].requestId, TextRequest, c.id, None)
  }

  /** Where the run thread is, it got there by such a choice. */
  ghost predicate Chosen(cfg: Config, given: seq<Input>, pc: Pc) {
    var n := |given|;
    match pc
    case Judging(obs) => n >= 1 && Shows(cfg, given[n - 1], obs)
    case Selecting(obs) => n >= 2 && Shows(cfg, given[n - 2], obs) && given[n - 1].goal == Says(false)
    case Decided(obs, c) => Led(cfg, given, obs, c)
    case Acting(obs, c, _) => LedOnce(cfg, given, obs, c)
    case Awaiting(obs, c, request) => AskedOnce(cfg, given, obs, c, request)
    case Typing(obs, c, _) => LedOnce(cfg, given, obs, c)
    case _ => true
  }

  ghost predicate DeedsChosen(cfg: Config, given: seq<Input>, deeds: seq<Deed>) {
    forall d | d in deeds :: LedOnce(cfg, given, d.decided, d.chosen)
  }

  lemma LedLater(cfg: Config, given: seq<Input>, more: seq<Input>, obs: RuntimeObservation, c: Candidate)
    requires LedOnce(cfg, given, obs, c)
    ensures LedOnce(cfg, given + more, obs, c)
  {
    var n: nat :| n <= |given| && Led(cfg, given[..n], obs, c);
    assert (given + more)[..n] == given[..n];
  }

  lemma AskedLater(
    cfg: Config, given: seq<Input>, more: seq<Input>, obs: RuntimeObservation, c: Candidate, request: Request)
    requires AskedOnce(cfg, given, obs, c, request)
    ensures AskedOnce(cfg, given + more, obs, c, request) && LedOnce(cfg, given, obs, c)
  {
    var n: nat :| n < |given| && AskedBy(cfg, given, n, obs, c, request);
    assert (given + more)[..n] == given[..n];
    assert AskedBy(cfg, given + more, n, obs, c, request);
  }

  lemma AskedNow(cfg: Config, given: seq<Input>, i: Input, obs: RuntimeObservation, c: Candidate)
    requires Led(cfg, given, obs, c)
    ensures AskedOnce(cfg, given + [i], obs, c, Request(i.requestId, TextRequest, c.id, None))
  {
    assert (given + [i])[..|given|] == given;
    assert AskedBy(cfg, given + [i], |given|, obs, c, Request(i.requestId, TextRequest, c.id, None));
  }

  lemma LedNow(cfg: Config, given: seq<Input>, obs: RuntimeObservation, c: Candidate)
    requires Led(cfg, given, obs, c)
    ensures LedOnce(cfg, given, obs, c)
  {
    assert given[..|given|] == given;
  }

  // ---- Every step ---------------------------------------------------------------------------

  /** The places that a step reaches without a choice. */
  predicate Plain(pc: Pc) {
    !Deciding(pc) && !pc.Acting? && !pc.Awaiting? && !pc.Typing?
  }

  lemma LookChosen(cfg: Config, s: State, i: Input, given: seq<Input>)
    requires s.pc.Observing?
    ensures Chosen(cfg, given + [i], ObserveStep(s, E.Refreshed(cfg.setup, s.exec, i.io.shot)).pc)
  {
  }

  lemma GoalChosen(cfg: Config, s: State, i: Input, given: seq<Input>)
    requires s.pc.Judging? && Chosen(cfg, given, s.pc)
    ensures Chosen(cfg, given + [i], JudgeStep(s, s.pc.obs, i).pc)
  {
  }

  lemma SelectLeads(s: State, selected: Result<Candidate, SelectionError>)
    requires s.pc.Selecting?
    ensures SelectStep(s, s.pc.obs, selected).pc ==
            if selected.Success? then Decided(s.pc.obs, selected.value) else Failing(DriverError)
  {
  }

  lemma SelectChosen(cfg: Config, s: State, i: Input, given: seq<Input>, selected: Result<Candidate, SelectionError>)
    requires s.pc.Selecting? && Chosen(cfg, given, s.pc)
    requires selected == Select(s.pc.obs.candidates, cfg.caps, i.choose).outcome
    ensures Chosen(cfg, given + [i], SelectStep(s, s.pc.obs, selected).pc)
  {
    SelectLeads(s, selected);
    if selected.Success? { assert Picks(cfg, i, s.pc.obs, selected.value); }
  }

  lemma DecideLeads(cfg: Config, s: State, i: Input)
    requires s.pc.Decided?
    ensures
      var pc := DecideStep(cfg, s, s.pc.obs, s.pc.chosen, i).pc;
      || Plain(pc) || (pc.Acting? && pc.obs == s.pc.obs && pc.chosen == s.pc.chosen)
      || pc == Awaiting(s.pc.obs, s.pc.chosen, Request(i.requestId, TextRequest, s.pc.chosen.id, None))
  {
  }

  lemma DecideChosen(cfg: Config, s: State, i: Input, given: seq<Input>)
    requires s.pc.Decided? && Chosen(cfg, given, s.pc)
    ensures Chosen(cfg, given + [i], DecideStep(cfg, s, s.pc.obs, s.pc.chosen, i).pc)
  {
    DecideLeads(cfg, s, i);
    AskedNow(cfg, given, i, s.pc.obs, s.pc.chosen);
    LedNow(cfg, given, s.pc.obs, s.pc.chosen);
    LedLater(cfg, given, [i], s.pc.obs, s.pc.chosen);
  }

  lemma AwaitChosen(cfg: Config, s: State, i: Input, given: seq<Input>)
    requires s.pc.Awaiting? && Chosen(cfg, given, s.pc)
    ensures Chosen(cfg, given + [i], AwaitStep(cfg, s, s.pc.obs, s.pc.chosen, i).pc)
  {
    AskedLater(cfg, given, [i], s.pc.obs, s.pc.chosen, s.pc.request);
    LedLater(cfg, given, [i], s.pc.obs, s.pc.chosen);
  }

  lemma CallPlain(s: State, r: E.Outcome)
    ensures s.pc.NotStarted? ==> forall now :: Plain(StartStep(s, now, r).pc)
    ensures s.pc.Acting? ==> Plain(ActStep(s, s.pc.obs, s.pc.chosen, s.pc.action, r).pc)
    ensures s.pc.Typing? ==> Plain(TypeStep(s, s.pc.obs, s.pc.chosen, s.pc.text, r).pc)
  {
  }

  lemma RestPlain(cfg: Config, s: State, i: Input)
    requires !Calling(s.pc) && !Deciding(s.pc) && !s.pc.Awaiting?
    ensures Plain(Advance(cfg, s, i).pc)
  {
  }

  lemma AdvanceChosen(cfg: Config, s: State, i: Input, given: seq<Input>)
    requires Chosen(cfg, given, s.pc)
    ensures Chosen(cfg, given + [i], Advance(cfg, s, i).pc)
  {
    match s.pc {
      case NotStarted => CallPlain(s, E.Started(cfg.setup, s.exec, i.launch, i.io));
      case Observing => LookChosen(cfg, s, i, given);
      case Acting(_, _, action) => CallPlain(s, E.Executed(cfg.setup, s.exec, action, i.io));
      case Typing(_, c, text) => CallPlain(s, E.Typed(cfg.setup, s.exec, c.id, text, i.io));
      case Judging(_) => GoalChosen(cfg, s, i, given);
      case Selecting(obs) => SelectChosen(cfg, s, i, given, Select(obs.candidates, cfg.caps, i.choose).outcome);
      case Decided(_, _) => DecideChosen(cfg, s, i, given);
      case Awaiting(_, _, _) => AwaitChosen(cfg, s, i, given);
      case _ => RestPlain(cfg, s, i);
    }
  }

  lemma DeedsLater(cfg: Config, given: seq<Input>, more: seq<Input>, deeds: seq<Deed>)
    requires DeedsChosen(cfg, given, deeds)
    ensures DeedsChosen(cfg, given + more, deeds)
  {
    forall d | d in deeds
      ensures LedOnce(cfg, given + more, d.decided, d.chosen)
    {
      LedLater(cfg, given, more, d.decided, d.chosen);
    }
  }

  lemma StepDeedsChosen(cfg: Config, s: State, e: Event, given: seq<Input>)
    requires Chosen(cfg, given, s.pc) && DeedsChosen(cfg, given, s.trace.deeds)
    ensures DeedsChosen(cfg, given, Step(cfg, s, e).trace.deeds)
  {
    if e.Thread? && (s.pc.Acting? || s.pc.Typing?) {
      RunEffects.CallAdds(cfg, s, e.input);
      var added := Deeds(s.pc.obs, s.pc.chosen, RunEffects.ActsOf(cfg, s, e.input));
      assert forall d | d in added :: d.decided == s.pc.obs && d.chosen == s.pc.chosen;
    } else {
      RunEffects.OnlyCallsAdd(cfg, s, e);
    }
  }

  lemma OthersStay(cfg: Config, s: State, e: Event)
    requires !e.Thread?
    ensures Step(cfg, s, e).pc == s.pc
  {
  }

  lemma {:induction false} RunChosen(cfg: Config, events: seq<Event>)
    ensures Chosen(cfg, Inputs(events), After(cfg, events).pc)
    ensures DeedsChosen(cfg, Inputs(events), After(cfg, events).trace.deeds)
    decreases |events|
  {
    if events != [] {
      var before, e := events[..|events| - 1], events[|events| - 1];
      var s, given := After(cfg, before), Inputs(before);
      RunChosen(cfg, before);
      LastStep(cfg, events);
      StepDeedsChosen(cfg, s, e, given);
      if e.Thread? {
        AdvanceChosen(cfg, s, e.input, given);
        DeedsLater(cfg, given, [e.input], Step(cfg, s, e).trace.deeds);
      } else {
        OthersStay(cfg, s, e);
        assert Inputs(events) == given;
      }
    }
  }

  /**
   Whatever a run does to the page concerns the very candidate that the driver's selection returned, from
   the observation of the page shown two steps before, whose goal was judged incomplete in between; and
   what it waits for is a text for such a candidate, under the id that the request was given.
   */
  lemma EffectsChosen(cfg: Config, events: seq<Event>)
    ensures
      var s := After(cfg, events);
      && (forall d | d in s.trace.deeds :: LedOnce(cfg, Inputs(events), d.decided, d.chosen))
      && (s.pc.Awaiting? ==>
            && AskedOnce(cfg, Inputs(events), s.pc.obs, s.pc.chosen, s.pc.request) && s.pc.chosen.kind == RequestText
            && (s.replyText.None? ==> s.session.pending == Some(s.pc.request)))
  {
    RunChosen(cfg, events);
    Reachable(cfg, events);
  }
}
