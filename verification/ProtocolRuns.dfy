/** What holds over every run of the session protocol, however the threads interleave. */
module ProtocolRuns {
  import opened Wrappers
  import opened Models
  import opened Observation
  import opened Selection
  import opened Protocol
  import E = Executor
  import X = Extraction
  import Tournament

  // ---- The invariant -----------------------------------------------------------------------

  predicate Terminal(status: Status) {
    status == Done || status == Failed || status == Stopped || status == NeedsReview
  }

  /** Status, pending request and failure reason go together, and the published copies agree. */
  predicate Coupled(s: State) {
    && s.pending == s.session.pending
    && s.executed == s.session.executed
    && (s.pending.Some? <==> s.session.status == NeedsText || s.session.status == NeedsReview)
    && (s.session.failure.Some? <==> s.session.status == Failed)
    && (s.session.status == NeedsReview ==> s.pending.value.kind == ReviewRequest)
  }

  /** The status that goes with each place of the run thread. */
  predicate StatusAt(s: State) {
    match s.pc
    case Awaiting(_, _, request) =>
      if s.replyText.None? then s.session.status == NeedsText && s.pending == Some(request)
      else s.session.status == Running
    case AfterText => s.session.status in {Running, Failed, Stopped}
    case Closing => Terminal(s.session.status)
    case Ended => Terminal(s.session.status)
    case _ => s.session.status == Running
  }

  /** Replies accepted and texts typed: the thread is behind by the reply it holds, if it holds one. */
  predicate RepliesAt(s: State) {
    match s.pc
    case Awaiting(_, c, request) =>
      && request.kind == TextRequest && request.candidateId == c.id
      && s.trace.accepted ==
         if s.replyText.Some? then s.trace.typed + [(c.id, s.replyText.value)] else s.trace.typed
    case Typing(_, c, text) => s.replyText.None? && s.trace.accepted == s.trace.typed + [(c.id, text)]
    case _ => s.replyText.None? && s.trace.accepted == s.trace.typed
  }

  /** Steps, goal questions and records. */
  predicate CountedAt(cfg: Config, s: State) {
    && s.steps <= cfg.maxSteps && s.trace.questions <= cfg.maxSteps
    && (forall i :: 0 <= i < |s.executed| ==> s.executed[i].step == i + 1)
    && |s.executed| <= s.steps
    && match s.pc
       case Failing(_) => true
       case Closing => true
       case Ended => true
       case Top => s.trace.questions == s.steps == |s.executed|
       case NotStarted => s.trace.questions == s.steps == |s.executed|
       case AfterText => s.session.status == Running ==> s.trace.questions == s.steps == |s.executed|
       case StopCheck => s.trace.questions == s.steps == |s.executed| < cfg.maxSteps
       case Observing => s.trace.questions == s.steps == |s.executed| < cfg.maxSteps
       case Judging(_) => s.trace.questions == s.steps == |s.executed| < cfg.maxSteps
       case _ => s.trace.questions == s.steps + 1 == |s.executed| + 1 <= cfg.maxSteps
  }

  predicate Choice(obs: RuntimeObservation, c: Candidate) {
    DistinctIds(obs.candidates) && c in obs.candidates
  }

  /** The executor still holds the observation that the driver decides on. */
  predicate HoldsAt(cfg: Config, s: State) {
    match s.pc
    case Judging(obs) => s.exec.observation == Some(obs)
    case Selecting(obs) => s.exec.observation == Some(obs)
    case Decided(obs, c) => s.exec.observation == Some(obs) && Choice(obs, c)
    case Acting(obs, c, action) =>
      s.exec.observation == Some(obs) && Choice(obs, c) && c.review.None? && Carries(cfg, obs, c, action)
    case Awaiting(obs, c, _) =>
      s.exec.observation == Some(obs) && Choice(obs, c) && c.review.None? && c.kind == RequestText
    case Typing(obs, c, _) =>
      s.exec.observation == Some(obs) && Choice(obs, c) && c.review.None? && c.kind == RequestText
    case _ => true
  }

  /** In this observation the candidate appears with the same id, kind and fingerprint, and no review gate. */
  predicate Same(seen: RuntimeObservation, c: Candidate) {
    exists now | now in seen.candidates ::
      now.id == c.id && now.kind == c.kind && now.fingerprint == c.fingerprint && now.review.None?
  }

  /** An effect on an element is on the candidate decided on, unchanged and at its element's place. */
  ghost predicate Faithful(cfg: Config, d: Deed) {
    && d.chosen in d.decided.candidates && d.chosen.review.None?
    && match d.act
       case Clicked(id, at, page, seen) =>
         && d.chosen.kind == Click && id == d.chosen.id
         && E.ObservedOn(cfg.setup, page) == Success(seen) && Same(seen, d.chosen)
         && E.Located(cfg.setup.lib, page, at, d.chosen)
       case Filled(id, at, text, page, seen) =>
         && d.chosen.kind == RequestText && id == d.chosen.id
         && E.ObservedOn(cfg.setup, page) == Success(seen) && Same(seen, d.chosen)
         && E.Located(cfg.setup.lib, page, at, d.chosen)
       case WentTo(id, url, page, seen) =>
         && d.chosen.kind == Navigate && id == d.chosen.id
         && E.ObservedOn(cfg.setup, page) == Success(seen) && Same(seen, d.chosen)
         && d.decided.TargetFor(id) == Some(url) == seen.TargetFor(id) && E.AllowedOrigin(cfg.setup, url)
         && exists at :: E.Located(cfg.setup.lib, page, at, d.chosen)
       case Scrolled(delta) =>
         && d.chosen.kind == Scroll
         && ((d.chosen.id == "s0000" && delta == 3000) || (d.chosen.id == "s0001" && delta == -3000))
       case Waited(seconds) => d.chosen.kind == Wait && d.chosen.id == "s0002" && seconds == 2.0
  }

  ghost predicate AllFaithful(cfg: Config, s: State) {
    forall d | d in s.trace.deeds :: Faithful(cfg, d)
  }

  predicate Inv(cfg: Config, s: State) {
    Coupled(s) && StatusAt(s) && RepliesAt(s) && CountedAt(cfg, s) && HoldsAt(cfg, s)
  }

  // ---- Effects ----------------------------------------------------------------------------------

  lemma ConfirmedSame(cfg: Config, obs: RuntimeObservation, c: Candidate, seen: RuntimeObservation)
    requires Choice(obs, c) && E.Confirmed(obs, seen, c.id, c.kind)
    ensures Same(seen, c) && FirstWithId(seen.candidates, c.id).Some?
    ensures
      var now := FirstWithId(seen.candidates, c.id).value;
      now.fingerprint == c.fingerprint && now.kind == c.kind && now.review.None?
  {
    FoundIsUnique(obs.candidates, c);
    FoundById(seen.candidates, c.id);
  }

  lemma LocatedByFingerprint(cfg: Config, page: X.Page, at: X.Locator, now: Candidate, c: Candidate)
    requires E.Located(cfg.setup.lib, page, at, now)
    requires now.fingerprint == c.fingerprint && now.kind == c.kind && now.review == c.review == None
    ensures E.Located(cfg.setup.lib, page, at, c)
  {
    var d: X.Data, i: nat :| X.At(page.groups, (at, d)) && E.Stands(cfg.setup.lib, X.ElementOf(d, i), now);
    assert E.Stands(cfg.setup.lib, X.ElementOf(d, i), c);
  }

  lemma ClickFaithful(cfg: Config, obs: RuntimeObservation, c: Candidate, act: E.Act)
    requires Choice(obs, c) && c.review.None? && c.kind == Click
    requires act.Clicked? && act.id == c.id && E.Trusted(cfg.setup, obs, act)
    ensures Faithful(cfg, Deed(obs, c, act))
  {
    ConfirmedSame(cfg, obs, c, act.seen);
    LocatedByFingerprint(cfg, act.page, act.at, FirstWithId(act.seen.candidates, c.id).value, c);
  }

  lemma GotoFaithful(cfg: Config, obs: RuntimeObservation, c: Candidate, act: E.Act)
    requires Choice(obs, c) && c.review.None? && c.kind == Navigate
    requires act.WentTo? && act.id == c.id && E.Trusted(cfg.setup, obs, act) && obs.TargetFor(c.id) == Some(act.url)
    ensures Faithful(cfg, Deed(obs, c, act))
  {
    ConfirmedSame(cfg, obs, c, act.seen);
    var now := FirstWithId(act.seen.candidates, c.id).value;
    var at :| E.Located(cfg.setup.lib, act.page, at, now);
    LocatedByFingerprint(cfg, act.page, at, now, c);
  }

  lemma ActionFaithful(cfg: Config, obs: RuntimeObservation, c: Candidate, action: E.Action, act: E.Act)
    requires Choice(obs, c) && c.review.None? && Carries(cfg, obs, c, action)
    requires E.Answers(cfg.setup, Some(obs), action, act)
    ensures Faithful(cfg, Deed(obs, c, act))
  {
    match action {
      case ClickAction(_) => ClickFaithful(cfg, obs, c, act);
      case NavigateAction(_, _) => GotoFaithful(cfg, obs, c, act);
      case _ =>
    }
  }

  lemma FillFaithful(cfg: Config, obs: RuntimeObservation, c: Candidate, act: E.Act)
    requires Choice(obs, c) && c.review.None? && c.kind == RequestText
    requires act.Filled? && act.id == c.id && E.Trusted(cfg.setup, obs, act)
    ensures Faithful(cfg, Deed(obs, c, act))
  {
    ConfirmedSame(cfg, obs, c, act.seen);
    LocatedByFingerprint(cfg, act.page, act.at, FirstWithId(act.seen.candidates, c.id).value, c);
  }

  lemma DeedsFaithful(cfg: Config, before: seq<Deed>, obs: RuntimeObservation, c: Candidate, acts: seq<E.Act>)
    requires forall d | d in before :: Faithful(cfg, d)
    requires acts == [] || (|acts| == 1 && Faithful(cfg, Deed(obs, c, acts[0])))
    ensures forall d | d in before + Deeds(obs, c, acts) :: Faithful(cfg, d)
  {
    forall d | d in before + Deeds(obs, c, acts)
      ensures Faithful(cfg, d)
    {
      DeedAdded(before, obs, c, acts, d);
    }
  }

  lemma DeedAdded(before: seq<Deed>, obs: RuntimeObservation, c: Candidate, acts: seq<E.Act>, d: Deed)
    requires |acts| <= 1 && d in before + Deeds(obs, c, acts)
    ensures d in before || (acts != [] && d == Deed(obs, c, acts[0]))
  {
  }

  // ---- Every step keeps the invariant --------------------------------------------------------------

  lemma StartKeeps(cfg: Config, s: State, now: real, r: E.Outcome)
    requires Inv(cfg, s) && s.pc.NotStarted?
    ensures Inv(cfg, StartStep(s, now, r))
  {
  }

  lemma LimitKeeps(cfg: Config, s: State, i: Input)
    requires Inv(cfg, s) && s.pc.Top?
    ensures Inv(cfg, LimitStep(cfg, s, i))
  {
  }

  lemma StopCheckKeeps(cfg: Config, s: State)
    requires Inv(cfg, s) && s.pc.StopCheck?
    ensures Inv(cfg, StopCheckStep(s))
  {
  }

  lemma ObserveKeeps(cfg: Config, s: State, r: E.Outcome)
    requires Inv(cfg, s) && s.pc.Observing?
    ensures Inv(cfg, ObserveStep(s, r))
  {
  }

  lemma JudgeControls(cfg: Config, s: State, i: Input)
    requires Inv(cfg, s) && s.pc.Judging?
    ensures
      var s' := JudgeStep(s, s.pc.obs, i);
      Coupled(s') && StatusAt(s') && RepliesAt(s')
  {
  }

  lemma JudgeKeeps(cfg: Config, s: State, i: Input)
    requires Inv(cfg, s) && s.pc.Judging?
    ensures Inv(cfg, JudgeStep(s, s.pc.obs, i))
  {
    JudgeControls(cfg, s, i);
  }

  lemma SelectKeeps(cfg: Config, s: State, selected: Result<Candidate, SelectionError>)
    requires Inv(cfg, s) && s.pc.Selecting?
    requires selected.Success? ==> Choice(s.pc.obs, selected.value)
    ensures Inv(cfg, SelectStep(s, s.pc.obs, selected))
  {
  }

  lemma DecideControls(cfg: Config, s: State, i: Input)
    requires Inv(cfg, s) && s.pc.Decided?
    ensures
      var s' := DecideStep(cfg, s, s.pc.obs, s.pc.chosen, i);
      Coupled(s') && StatusAt(s') && RepliesAt(s')
  {
  }

  lemma DecideCounts(cfg: Config, s: State, i: Input)
    requires Inv(cfg, s) && s.pc.Decided?
    ensures CountedAt(cfg, DecideStep(cfg, s, s.pc.obs, s.pc.chosen, i))
  {
  }

  lemma DecideHolds(cfg: Config, s: State, i: Input)
    requires Inv(cfg, s) && s.pc.Decided?
    ensures HoldsAt(cfg, DecideStep(cfg, s, s.pc.obs, s.pc.chosen, i))
  {
  }

  lemma DecideKeeps(cfg: Config, s: State, i: Input)
    requires Inv(cfg, s) && s.pc.Decided?
    ensures Inv(cfg, DecideStep(cfg, s, s.pc.obs, s.pc.chosen, i))
  {
    DecideControls(cfg, s, i);
    DecideCounts(cfg, s, i);
    DecideHolds(cfg, s, i);
  }

  lemma ActKeeps(cfg: Config, s: State, r: E.Outcome)
    requires Inv(cfg, s) && s.pc.Acting?
    ensures Inv(cfg, ActStep(s, s.pc.obs, s.pc.chosen, s.pc.action, r))
  {
  }

  lemma AwaitKeeps(cfg: Config, s: State, i: Input)
    requires Inv(cfg, s) && s.pc.Awaiting?
    ensures Inv(cfg, AwaitStep(cfg, s, s.pc.obs, s.pc.chosen, i))
  {
  }

  lemma TypeKeeps(cfg: Config, s: State, r: E.Outcome)
    requires Inv(cfg, s) && s.pc.Typing?
    ensures Inv(cfg, TypeStep(s, s.pc.obs, s.pc.chosen, s.pc.text, r))
  {
  }

  lemma EndKeeps(cfg: Config, s: State)
    requires Inv(cfg, s)
    ensures s.pc.AfterText? ==> Inv(cfg, AfterTextStep(s))
    ensures s.pc.Failing? ==> Inv(cfg, FailStep(s, s.pc.reason))
    ensures s.pc.Closing? ==> Inv(cfg, CloseStep(s))
  {
  }

  lemma ReplyKeeps(cfg: Config, s: State, id: string, text: string)
    requires Inv(cfg, s)
    ensures Inv(cfg, ReplyStep(s, id, text))
  {
  }

  /** Where the run thread calls the executor. */
  predicate Calling(pc: Pc) {
    pc.NotStarted? || pc.Observing? || pc.Acting? || pc.Typing?
  }

  /** Where it asks the driver or decides. */
  predicate Deciding(pc: Pc) {
    pc.Judging? || pc.Selecting? || pc.Decided?
  }

  /** Where it looks at limits, flag and reply. */
  predicate Checking(pc: Pc) {
    pc.Top? || pc.StopCheck? || pc.Awaiting?
  }

  lemma CallingKeeps(cfg: Config, s: State, i: Input)
    requires Inv(cfg, s) && Calling(s.pc)
    ensures Inv(cfg, Advance(cfg, s, i))
  {
    match s.pc {
      case NotStarted => StartKeeps(cfg, s, i.now, E.Started(cfg.setup, s.exec, i.launch, i.io));
      case Observing => ObserveKeeps(cfg, s, E.Refreshed(cfg.setup, s.exec, i.io.shot));
      case Acting(_, _, action) => ActKeeps(cfg, s, E.Executed(cfg.setup, s.exec, action, i.io));
      case Typing(_, c, text) => TypeKeeps(cfg, s, E.Typed(cfg.setup, s.exec, c.id, text, i.io));
    }
  }

  lemma DecidingKeeps(cfg: Config, s: State, i: Input)
    requires Inv(cfg, s) && Deciding(s.pc)
    ensures Inv(cfg, Advance(cfg, s, i))
  {
    match s.pc {
      case Judging(_) => JudgeKeeps(cfg, s, i);
      case Selecting(obs) =>
        Tournament.SelectedIsCandidate(obs.candidates, cfg.caps, i.choose);
        SelectKeeps(cfg, s, Select(obs.candidates, cfg.caps, i.choose).outcome);
      case Decided(_, _) => DecideKeeps(cfg, s, i);
    }
  }

  lemma AdvanceKeeps(cfg: Config, s: State, i: Input)
    requires Inv(cfg, s)
    ensures Inv(cfg, Advance(cfg, s, i))
  {
    if Calling(s.pc) {
      CallingKeeps(cfg, s, i);
    } else if Deciding(s.pc) {
      DecidingKeeps(cfg, s, i);
    } else if Checking(s.pc) {
      CheckingKeeps(cfg, s, i);
    } else {
      EndingKeeps(cfg, s, i);
    }
  }

  lemma CheckingKeeps(cfg: Config, s: State, i: Input)
    requires Inv(cfg, s) && Checking(s.pc)
    ensures Inv(cfg, Advance(cfg, s, i))
  {
    match s.pc {
      case Top => LimitKeeps(cfg, s, i);
      case StopCheck => StopCheckKeeps(cfg, s);
      case Awaiting(_, _, _) => AwaitKeeps(cfg, s, i);
    }
  }

  lemma EndingKeeps(cfg: Config, s: State, i: Input)
    requires Inv(cfg, s) && !Calling(s.pc) && !Deciding(s.pc) && !Checking(s.pc)
    ensures Inv(cfg, Advance(cfg, s, i))
  {
    EndKeeps(cfg, s);
  }

  lemma StopKeeps(cfg: Config, s: State)
    requires Inv(cfg, s)
    ensures Inv(cfg, s.(stop := true))
  {
  }

  lemma StepKeeps(cfg: Config, s: State, e: Event)
    requires Inv(cfg, s)
    ensures Inv(cfg, Step(cfg, s, e))
  {
    match e {
      case Thread(i) => AdvanceKeeps(cfg, s, i);
      case Reply(id, text) => ReplyKeeps(cfg, s, id, text);
      case Stop => StopKeeps(cfg, s);
    }
  }

  lemma {:induction false} RunKeeps(cfg: Config, s: State, events: seq<Event>)
    requires Inv(cfg, s)
    ensures Inv(cfg, Run(cfg, s, events))
    decreases |events|
  {
    if events != [] {
      StepKeeps(cfg, s, events[0]);
      RunKeeps(cfg, Step(cfg, s, events[0]), events[1..]);
    }
  }

  function After(cfg: Config, events: seq<Event>): State {
    Run(cfg, INITIAL, events)
  }

  lemma Reachable(cfg: Config, events: seq<Event>)
    ensures Inv(cfg, After(cfg, events))
  {
    RunKeeps(cfg, INITIAL, events);
  }

  lemma {:induction false} RunAppend(cfg: Config, s: State, a: seq<Event>, b: seq<Event>)
    ensures Run(cfg, s, a + b) == Run(cfg, Run(cfg, s, a), b)
    decreases |a|
  {
    if a == [] {
      assert a + b == b;
    } else {
      assert (a + b)[1..] == a[1..] + b;
      RunAppend(cfg, Step(cfg, s, a[0]), a[1..], b);
    }
  }

  lemma LastStep(cfg: Config, events: seq<Event>)
    requires events != []
    ensures
      var n := |events| - 1;
      After(cfg, events) == Step(cfg, After(cfg, events[..n]), events[n])
  {
    var n := |events| - 1;
    assert events == events[..n] + [events[n]];
    RunAppend(cfg, INITIAL, events[..n], [events[n]]);
    assert [events[n]][1..] == [];
  }

  // ---- Theorems ----------------------------------------------------------------------------------------

  /**
   No accepted reply is lost, repeated or typed elsewhere: in every interleaving the typing calls,
   with candidate and text, are the accepted replies with their requests' candidates, at most one
   behind, and none behind once the run has ended.
   */
  lemma RepliesTypedOnce(cfg: Config, events: seq<Event>)
    ensures
      var s := After(cfg, events);
      && s.trace.typed <= s.trace.accepted
      && |s.trace.accepted| <= |s.trace.typed| + 1
      && (s.pc.Ended? ==> s.trace.typed == s.trace.accepted)
  {
    Reachable(cfg, events);
  }

  /** Pending request, failure reason and status go together in every reachable state. */
  lemma SessionCoupled(cfg: Config, events: seq<Event>)
    ensures
      var s := After(cfg, events);
      && s.session.pending == s.pending && s.session.executed == s.executed
      && (s.session.pending.Some? <==> s.session.status in {NeedsText, NeedsReview})
      && (s.session.failure.Some? <==> s.session.status == Failed)
      && (s.pc.Ended? ==> Terminal(s.session.status))
  {
    Reachable(cfg, events);
  }

  lemma TerminalStep(cfg: Config, s: State, e: Event)
    requires Inv(cfg, s) && Terminal(s.session.status)
    ensures Step(cfg, s, e).session == s.session && Step(cfg, s, e).trace.deeds == s.trace.deeds
  {
  }

  lemma {:induction false} TerminalRun(cfg: Config, s: State, events: seq<Event>)
    requires Inv(cfg, s) && Terminal(s.session.status)
    ensures Run(cfg, s, events).session == s.session && Run(cfg, s, events).trace.deeds == s.trace.deeds
    decreases |events|
  {
    if events != [] {
      TerminalStep(cfg, s, events[0]);
      StepKeeps(cfg, s, events[0]);
      TerminalRun(cfg, Step(cfg, s, events[0]), events[1..]);
    }
  }

  /** Done, failed, stopped and needs_review are never left, and nothing more is done to the page. */
  lemma TerminalStays(cfg: Config, before: seq<Event>, events: seq<Event>)
    requires Terminal(After(cfg, before).session.status)
    ensures
      var s, s' := After(cfg, before), After(cfg, before + events);
      s'.session == s.session && s'.trace.deeds == s.trace.deeds
  {
    Reachable(cfg, before);
    TerminalRun(cfg, After(cfg, before), events);
    RunAppend(cfg, INITIAL, before, events);
  }

  /** Steps and goal questions stay within the limit; recorded actions are numbered 1, 2, 3 and so on. */
  lemma StepsBounded(cfg: Config, events: seq<Event>)
    ensures
      var s := After(cfg, events);
      && s.steps <= cfg.maxSteps && s.trace.questions <= cfg.maxSteps
      && |s.session.executed| <= s.steps
      && forall i :: 0 <= i < |s.session.executed| ==> s.session.executed[i].step == i + 1
  {
    Reachable(cfg, events);
  }

  // ---- Effects are faithful ------------------------------------------------------------------------------

  /** A call whose effects, if any, are faithful keeps all effects faithful. */
  lemma CallFaithful(cfg: Config, s: State, obs: RuntimeObservation, c: Candidate, r: E.Outcome)
    requires AllFaithful(cfg, s)
    requires r.acts == [] || (|r.acts| == 1 && Faithful(cfg, Deed(obs, c, r.acts[0])))
    ensures forall action :: AllFaithful(cfg, ActStep(s, obs, c, action, r))
    ensures forall text :: AllFaithful(cfg, TypeStep(s, obs, c, text, r))
  {
    DeedsFaithful(cfg, s.trace.deeds, obs, c, r.acts);
  }

  lemma ActFaithful(cfg: Config, s: State, i: Input)
    requires E.Agrees(cfg.setup) && Inv(cfg, s) && AllFaithful(cfg, s) && s.pc.Acting?
    ensures AllFaithful(cfg, ActStep(s, s.pc.obs, s.pc.chosen, s.pc.action,
                                     E.Executed(cfg.setup, s.exec, s.pc.action, i.io)))
  {
    var obs, c, action := s.pc.obs, s.pc.chosen, s.pc.action;
    var r := E.Executed(cfg.setup, s.exec, action, i.io);
    E.ExecutedTrusted(cfg.setup, s.exec, action, i.io);
    if r.acts != [] { ActionFaithful(cfg, obs, c, action, r.acts[0]); }
    CallFaithful(cfg, s, obs, c, r);
  }

  lemma TypeFaithful(cfg: Config, s: State, i: Input)
    requires E.Agrees(cfg.setup) && Inv(cfg, s) && AllFaithful(cfg, s) && s.pc.Typing?
    ensures AllFaithful(cfg, TypeStep(s, s.pc.obs, s.pc.chosen, s.pc.text,
                                      E.Typed(cfg.setup, s.exec, s.pc.chosen.id, s.pc.text, i.io)))
  {
    var obs, c, text := s.pc.obs, s.pc.chosen, s.pc.text;
    var r := E.Typed(cfg.setup, s.exec, c.id, text, i.io);
    E.TypedTrusted(cfg.setup, s.exec, c.id, text, i.io);
    if r.acts != [] { FillFaithful(cfg, obs, c, r.acts[0]); }
    CallFaithful(cfg, s, obs, c, r);
  }

  lemma DeedsOnlyByCalls(cfg: Config, s: State, i: Input)
    requires !s.pc.Acting? && !s.pc.Typing?
    ensures Advance(cfg, s, i).trace.deeds == s.trace.deeds
  {
  }

  lemma StepFaithful(cfg: Config, s: State, e: Event)
    requires E.Agrees(cfg.setup) && Inv(cfg, s) && AllFaithful(cfg, s)
    ensures AllFaithful(cfg, Step(cfg, s, e))
  {
    if e.Thread? {
      if s.pc.Acting? {
        ActFaithful(cfg, s, e.input);
      } else if s.pc.Typing? {
        TypeFaithful(cfg, s, e.input);
      } else {
        DeedsOnlyByCalls(cfg, s, e.input);
      }
    }
  }

  lemma {:induction false} RunFaithful(cfg: Config, s: State, events: seq<Event>)
    requires E.Agrees(cfg.setup) && Inv(cfg, s) && AllFaithful(cfg, s)
    ensures AllFaithful(cfg, Run(cfg, s, events))
    decreases |events|
  {
    if events != [] {
      StepFaithful(cfg, s, events[0]);
      StepKeeps(cfg, s, events[0]);
      RunFaithful(cfg, Step(cfg, s, events[0]), events[1..]);
    }
  }

  /**
   Every click, navigation and filling, in every run and however the page changes, is on the
   candidate decided on: same id, kind and fingerprint then and just before acting, review-gated in
   neither, at the place of an element that it stands for. So nothing is ever clicked that the
   submit test recognises, that resets or downloads, or whose text a review pattern matches.
   */
  lemma EffectsFaithful(cfg: Config, b: Builder, events: seq<Event>, d: Deed)
    requires E.BuildsAs(cfg.setup, b) && d in After(cfg, events).trace.deeds
    ensures Faithful(cfg, d)
  {
    E.PlaceAgrees(cfg.setup, b);
    RunFaithful(cfg, INITIAL, events);
  }

  // ---- Termination ---------------------------------------------------------------------------------------

  /** Steps to the next count of a step, or to the end. */
  function Rank(s: State): nat {
    match s.pc
    case NotStarted => 12
    case Top => 11
    case StopCheck => 10
    case Observing => 9
    case Judging(_) => 8
    case Selecting(_) => 7
    case Decided(_, _) => 6
    case Acting(_, _, _) => 5
    case Awaiting(_, _, _) => 5
    case Typing(_, _, _) => 4
    case AfterText => if s.session.status == Running then 12 else 3
    case Failing(_) => 2
    case Closing => 1
    case Ended => 0
  }

  function Distance(cfg: Config, s: State): int {
    12 * (cfg.maxSteps - s.steps) + Rank(s)
  }

  lemma CallNears(cfg: Config, s: State, r: E.Outcome)
    requires Inv(cfg, s)
    ensures s.pc.Acting? ==> Nearer(cfg, s, ActStep(s, s.pc.obs, s.pc.chosen, s.pc.action, r))
    ensures s.pc.Typing? ==> Nearer(cfg, s, TypeStep(s, s.pc.obs, s.pc.chosen, s.pc.text, r))
    ensures s.pc.NotStarted? ==> forall now :: Nearer(cfg, s, StartStep(s, now, r))
    ensures s.pc.Observing? ==> Nearer(cfg, s, ObserveStep(s, r))
  {
  }

  lemma DecisionNears(cfg: Config, s: State, i: Input, selected: Result<Candidate, SelectionError>)
    requires Inv(cfg, s)
    ensures s.pc.Judging? ==> Nearer(cfg, s, JudgeStep(s, s.pc.obs, i))
    ensures s.pc.Selecting? ==> Nearer(cfg, s, SelectStep(s, s.pc.obs, selected))
    ensures s.pc.Decided? ==> Nearer(cfg, s, DecideStep(cfg, s, s.pc.obs, s.pc.chosen, i))
  {
  }

  predicate Nearer(cfg: Config, s: State, s': State) {
    Distance(cfg, s') < Distance(cfg, s)
  }

  lemma AwaitNears(cfg: Config, s: State, i: Input)
    requires Inv(cfg, s) && s.pc.Awaiting?
    ensures
      var s' := AwaitStep(cfg, s, s.pc.obs, s.pc.chosen, i);
      if s'.pc == s.pc then s' == s else Nearer(cfg, s, s')
  {
  }

  lemma CallingNears(cfg: Config, s: State, i: Input)
    requires Inv(cfg, s) && Calling(s.pc)
    ensures Nearer(cfg, s, Advance(cfg, s, i))
  {
    match s.pc {
      case NotStarted => CallNears(cfg, s, E.Started(cfg.setup, s.exec, i.launch, i.io));
      case Observing => CallNears(cfg, s, E.Refreshed(cfg.setup, s.exec, i.io.shot));
      case Acting(_, _, action) => CallNears(cfg, s, E.Executed(cfg.setup, s.exec, action, i.io));
      case Typing(_, c, text) => CallNears(cfg, s, E.Typed(cfg.setup, s.exec, c.id, text, i.io));
    }
  }

  lemma RestNears(cfg: Config, s: State, i: Input)
    requires Inv(cfg, s) && !Calling(s.pc) && !s.pc.Ended? && !s.pc.Awaiting?
    ensures Nearer(cfg, s, Advance(cfg, s, i))
  {
    var selected :=
      if s.pc.Selecting? then Select(s.pc.obs.candidates, cfg.caps, i.choose).outcome else Failure(NoCandidates);
    DecisionNears(cfg, s, i, selected);
  }

  /** Each step of the run thread that is not a wait brings the end nearer. */
  lemma AdvanceNears(cfg: Config, s: State, i: Input)
    requires Inv(cfg, s) && !s.pc.Ended? && !s.pc.Awaiting?
    ensures Nearer(cfg, s, Advance(cfg, s, i))
  {
    if Calling(s.pc) {
      CallingNears(cfg, s, i);
    } else {
      RestNears(cfg, s, i);
    }
  }

  lemma StepNears(cfg: Config, s: State, e: Event)
    requires Inv(cfg, s)
    ensures
      if e.Thread? && !Idle(cfg, s, e.input) then Distance(cfg, Step(cfg, s, e)) < Distance(cfg, s)
      else Distance(cfg, Step(cfg, s, e)) <= Distance(cfg, s)
  {
    match e {
      case Thread(i) =>
        if s.pc.Awaiting? {
          AwaitNears(cfg, s, i);
        } else if !s.pc.Ended? {
          AdvanceNears(cfg, s, i);
        }
      case _ =>
    }
  }

  /** The events that move the run thread, waits and events after the end not counted. */
  function Moves(cfg: Config, s: State, events: seq<Event>): nat
    decreases |events|
  {
    if events == [] then 0
    else
      (if events[0].Thread? && !Idle(cfg, s, events[0].input) then 1 else 0) +
      Moves(cfg, Step(cfg, s, events[0]), events[1..])
  }

  lemma {:induction false} RunNears(cfg: Config, s: State, events: seq<Event>)
    requires Inv(cfg, s)
    ensures Moves(cfg, s, events) + Distance(cfg, Run(cfg, s, events)) <= Distance(cfg, s)
    decreases |events|
  {
    if events != [] {
      StepNears(cfg, s, events[0]);
      StepKeeps(cfg, s, events[0]);
      RunNears(cfg, Step(cfg, s, events[0]), events[1..]);
    }
  }

  /**
   In any run the thread moves at most 12 * max_steps + 12 times. As it moves with each of its
   steps unless it has ended or waits for a reply that has not come, it ends when waits end.
   */
  lemma RunTerminates(cfg: Config, events: seq<Event>)
    ensures Moves(cfg, INITIAL, events) <= 12 * cfg.maxSteps + 12
    ensures Moves(cfg, INITIAL, events) == 12 * cfg.maxSteps + 12 ==> After(cfg, events).pc.Ended?
  {
    Reachable(cfg, events);
    RunNears(cfg, INITIAL, events);
  }

  // ---- The stop bound --------------------------------------------------------------------------------------

  datatype Budget = Budget(observes: nat, questions: nat, selections: nat, calls: nat)

  /** Driver and executor calls that may still be made in this iteration. */
  function Left(pc: Pc): Budget {
    match pc
    case Observing => Budget(1, 1, 1, 1)
    case Judging(_) => Budget(0, 1, 1, 1)
    case Selecting(_) => Budget(0, 0, 1, 1)
    case Decided(_, _) => Budget(0, 0, 0, 1)
    case Acting(_, _, _) => Budget(0, 0, 0, 1)
    case Awaiting(_, _, _) => Budget(0, 0, 0, 1)
    case Typing(_, _, _) => Budget(0, 0, 0, 1)
    case _ => Budget(0, 0, 0, 0)
  }

  predicate Spends(s: State, s': State) {
    && s'.trace.observes + Left(s'.pc).observes <= s.trace.observes + Left(s.pc).observes
    && s'.trace.questions + Left(s'.pc).questions <= s.trace.questions + Left(s.pc).questions
    && s'.trace.selections + Left(s'.pc).selections <= s.trace.selections + Left(s.pc).selections
    && s'.trace.calls + Left(s'.pc).calls <= s.trace.calls + Left(s.pc).calls
  }

  lemma CallSpends(s: State, r: E.Outcome)
    ensures s.pc.Acting? ==> Spends(s, ActStep(s, s.pc.obs, s.pc.chosen, s.pc.action, r))
    ensures s.pc.Typing? ==> Spends(s, TypeStep(s, s.pc.obs, s.pc.chosen, s.pc.text, r))
    ensures s.pc.Observing? ==> Spends(s, ObserveStep(s, r))
  {
  }

  lemma DecisionSpends(cfg: Config, s: State, i: Input, selected: Result<Candidate, SelectionError>)
    ensures s.pc.Judging? ==> Spends(s, JudgeStep(s, s.pc.obs, i))
    ensures s.pc.Selecting? ==> Spends(s, SelectStep(s, s.pc.obs, selected))
    ensures s.pc.Decided? ==> Spends(s, DecideStep(cfg, s, s.pc.obs, s.pc.chosen, i))
  {
  }

  lemma CallingSpends(cfg: Config, s: State, i: Input)
    requires Calling(s.pc)
    ensures Spends(s, Advance(cfg, s, i))
  {
    match s.pc {
      case Observing => CallSpends(s, E.Refreshed(cfg.setup, s.exec, i.io.shot));
      case Acting(_, _, action) => CallSpends(s, E.Executed(cfg.setup, s.exec, action, i.io));
      case Typing(_, c, text) => CallSpends(s, E.Typed(cfg.setup, s.exec, c.id, text, i.io));
      case _ =>
    }
  }

  lemma RestSpends(cfg: Config, s: State, i: Input)
    requires s.stop && !Calling(s.pc)
    ensures Spends(s, Advance(cfg, s, i))
  {
    var selected :=
      if s.pc.Selecting? then Select(s.pc.obs.candidates, cfg.caps, i.choose).outcome else Failure(NoCandidates);
    DecisionSpends(cfg, s, i, selected);
  }

  lemma StopStays(cfg: Config, s: State, i: Input)
    ensures Advance(cfg, s, i).stop == s.stop
  {
  }

  /** With the flag set, a step spends what it does from the budget of its place. */
  lemma StoppedAdvance(cfg: Config, s: State, i: Input)
    requires s.stop
    ensures Advance(cfg, s, i).stop && Spends(s, Advance(cfg, s, i))
  {
    StopStays(cfg, s, i);
    if Calling(s.pc) {
      CallingSpends(cfg, s, i);
    } else {
      RestSpends(cfg, s, i);
    }
  }

  lemma {:induction false} StoppedRun(cfg: Config, s: State, events: seq<Event>)
    requires s.stop
    ensures Spends(s, Run(cfg, s, events))
    decreases |events|
  {
    if events != [] {
      if events[0].Thread? { StoppedAdvance(cfg, s, events[0].input); }
      StoppedRun(cfg, Step(cfg, s, events[0]), events[1..]);
    }
  }

  /**
   Once `stop` has set its flag the run makes at most one more observation, one goal question,
   one selection and one action or typing call, whatever else happens.
   */
  lemma StopBound(cfg: Config, before: seq<Event>, events: seq<Event>)
    requires After(cfg, before).stop
    ensures
      var t, t' := After(cfg, before).trace, After(cfg, before + events).trace;
      && t'.observes <= t.observes + 1
      && t'.questions <= t.questions + 1
      && t'.selections <= t.selections + 1
      && t'.calls <= t.calls + 1
  {
    StoppedRun(cfg, After(cfg, before), events);
    RunAppend(cfg, INITIAL, before, events);
  }

  /** With the flag set, steps to the end: nothing is waited for any more. */
  function StopRank(pc: Pc): nat {
    match pc
    case Observing => 10
    case Judging(_) => 9
    case Selecting(_) => 8
    case Decided(_, _) => 7
    case Awaiting(_, _, _) => 6
    case Typing(_, _, _) => 5
    case Acting(_, _, _) => 4
    case AfterText => 4
    case NotStarted => 4
    case Top => 3
    case StopCheck => 2
    case Failing(_) => 2
    case Closing => 1
    case Ended => 0
  }

  predicate Ranks(s: State, s': State) {
    StopRank(s'.pc) < StopRank(s.pc)
  }

  lemma CallRanks(s: State, r: E.Outcome)
    ensures s.pc.NotStarted? ==> forall now :: Ranks(s, StartStep(s, now, r))
    ensures s.pc.Observing? ==> Ranks(s, ObserveStep(s, r))
    ensures s.pc.Acting? ==> Ranks(s, ActStep(s, s.pc.obs, s.pc.chosen, s.pc.action, r))
    ensures s.pc.Typing? ==> Ranks(s, TypeStep(s, s.pc.obs, s.pc.chosen, s.pc.text, r))
  {
  }

  lemma CallingRanks(cfg: Config, s: State, i: Input)
    requires Calling(s.pc)
    ensures Ranks(s, Advance(cfg, s, i))
  {
    match s.pc {
      case NotStarted => CallRanks(s, E.Started(cfg.setup, s.exec, i.launch, i.io));
      case Observing => CallRanks(s, E.Refreshed(cfg.setup, s.exec, i.io.shot));
      case Acting(_, _, action) => CallRanks(s, E.Executed(cfg.setup, s.exec, action, i.io));
      case Typing(_, c, text) => CallRanks(s, E.Typed(cfg.setup, s.exec, c.id, text, i.io));
    }
  }

  lemma DecisionRanks(cfg: Config, s: State, i: Input, selected: Result<Candidate, SelectionError>)
    ensures s.pc.Judging? ==> Ranks(s, JudgeStep(s, s.pc.obs, i))
    ensures s.pc.Selecting? ==> Ranks(s, SelectStep(s, s.pc.obs, selected))
    ensures s.pc.Decided? ==> Ranks(s, DecideStep(cfg, s, s.pc.obs, s.pc.chosen, i))
  {
  }

  lemma DecidingRanks(cfg: Config, s: State, i: Input)
    requires Deciding(s.pc)
    ensures Ranks(s, Advance(cfg, s, i))
  {
    var selected :=
      if s.pc.Selecting? then Select(s.pc.obs.candidates, cfg.caps, i.choose).outcome else Failure(NoCandidates);
    DecisionRanks(cfg, s, i, selected);
  }

  lemma RestRanks(cfg: Config, s: State, i: Input)
    requires s.stop && !Calling(s.pc) && !Deciding(s.pc) && !s.pc.Ended?
    ensures Ranks(s, Advance(cfg, s, i))
  {
  }

  lemma StoppedRanks(cfg: Config, s: State, e: Event)
    requires s.stop
    ensures
      var s' := Step(cfg, s, e);
      s'.stop && (if e.Thread? && !s.pc.Ended? then Ranks(s, s') else StopRank(s'.pc) == StopRank(s.pc))
  {
    if e.Thread? {
      StopStays(cfg, s, e.input);
      if Calling(s.pc) {
        CallingRanks(cfg, s, e.input);
      } else if Deciding(s.pc) {
        DecidingRanks(cfg, s, e.input);
      } else if !s.pc.Ended? {
        RestRanks(cfg, s, e.input);
      }
    }
  }

  /** The steps of the run thread among these events. */
  function Own(events: seq<Event>): nat {
    if events == [] then 0 else (if events[0].Thread? then 1 else 0) + Own(events[1..])
  }

  lemma {:induction false} StoppedEnds(cfg: Config, s: State, events: seq<Event>)
    requires s.stop
    ensures Own(events) >= StopRank(s.pc) ==> Run(cfg, s, events).pc.Ended?
    decreases |events|
  {
    if events != [] {
      StoppedRanks(cfg, s, events[0]);
      StoppedEnds(cfg, Step(cfg, s, events[0]), events[1..]);
    }
  }

  /** Once `stop` has set its flag the run has ended after ten more steps of its own thread, waits included. */
  lemma StopEnds(cfg: Config, before: seq<Event>, events: seq<Event>)
    requires After(cfg, before).stop && Own(events) >= 10
    ensures After(cfg, before + events).pc.Ended?
  {
    StoppedEnds(cfg, After(cfg, before), events);
    RunAppend(cfg, INITIAL, before, events);
  }
}
