/** How a run ends and what it publishes, said by what the world answered at each event. */
module RunOutcomes {
  import opened Wrappers
  import opened Text
  import opened Models
  import opened Observation
  import opened Selection
  import opened Protocol
  import opened ProtocolRuns
  import E = Executor

  // ---- Causes ------------------------------------------------------------------------------

  datatype Ending = Complete | Halted | Paused(request: Request) | Broken(reason: Reason)

  /** The time limit has passed on the run's clock. */
  predicate Late(cfg: Config, s: State, now: real) {
    cfg.timeLimit.Some? && now >= s.startTime + cfg.timeLimit.value
  }

  /** An action exists for this candidate. */
  predicate Doable(cfg: Config, obs: RuntimeObservation, c: Candidate) {
    || c.kind == Click
    || (c.kind == Navigate && obs.TargetFor(c.id).Some? && cfg.safeUrl(obs.TargetFor(c.id).value))
    || (c.kind == Scroll && c.id in {"s0000", "s0001"})
    || (c.kind == Wait && c.id == "s0002")
  }

  /** The exception of the executor call that is made here, if one is made and it raises. */
  function Raised(cfg: Config, s: State, i: Input): Option<E.Fault> {
    match s.pc
    case NotStarted => E.Started(cfg.setup, s.exec, i.launch, i.io).fault
    case Observing => E.Refreshed(cfg.setup, s.exec, i.io.shot).fault
    case Acting(_, _, action) => E.Executed(cfg.setup, s.exec, action, i.io).fault
    case Typing(_, c, text) => E.Typed(cfg.setup, s.exec, c.id, text, i.io).fault
    case _ => None
  }

  /** Where the limits are enforced: at the top of the loop, and before an action that can be done. */
  predicate Enforces(cfg: Config, pc: Pc) {
    pc.Top? || (pc.Decided? && pc.chosen.review.None? && Doable(cfg, pc.obs, pc.chosen))
  }

  /** The failure that this input, or an exception of the call made, causes here. */
  predicate Causes(cfg: Config, s: State, i: Input, raised: Option<E.Fault>, reason: Reason) {
    match reason
    case Deadline => Enforces(cfg, s.pc) && Late(cfg, s, i.now)
    case MaxSteps => Enforces(cfg, s.pc) && !Late(cfg, s, i.now) && s.steps >= cfg.maxSteps
    case DriverError =>
      || (s.pc.Judging? && i.goal == DriverRaises)
      || (s.pc.Selecting? && Select(s.pc.obs.candidates, cfg.caps, i.choose).outcome.Failure?)
    case ExecutorError => raised.Some? && raised.value.BrowserFault?
    case InvalidAction =>
      && s.pc.Decided? && s.pc.chosen.review.None? && s.pc.chosen.kind != RequestText
      && !Doable(cfg, s.pc.obs, s.pc.chosen)
    case ReplyTimeout => s.pc.Awaiting? && s.replyText.None? && !s.stop && Late(cfg, s, i.now)
    case Unexpected =>
      || raised == Some(E.OtherFault)
      || (s.pc.Judging? && i.goal == OtherRaises)
      || ((s.pc.Acting? || s.pc.Typing?) && raised.None? && s.steps >= 1_000_000)
  }

  /** This event decides how the run ends. */
  predicate Ends(cfg: Config, s: State, e: Event, ending: Ending) {
    && e.Thread?
    && match ending
       case Complete => s.pc.Judging? && e.input.goal == Says(true)
       case Halted => s.stop && (s.pc.StopCheck? || (s.pc.Awaiting? && s.replyText.None?))
       case Paused(request) =>
         && s.pc.Decided? && s.pc.chosen.review.Some?
         && request == Request(e.input.requestId, ReviewRequest, s.pc.chosen.id, s.pc.chosen.review)
       case Broken(reason) => Causes(cfg, s, e.input, Raised(cfg, s, e.input), reason)
  }

  /** The ending that the published session tells, or that the thread is about to publish. */
  function Standing(s: State): Option<Ending> {
    if s.pc.Failing? then Some(Broken(s.pc.reason))
    else match s.session.status
      case Done => Some(Complete)
      case Stopped => Some(Halted)
      case NeedsReview => if s.session.pending.Some? then Some(Paused(s.session.pending.value)) else None
      case Failed => if s.session.failure.Some? then Some(Broken(s.session.failure.value)) else None
      case _ => None
  }

  // ---- Every event ends the run exactly by its cause -------------------------------------------

  /** Exactly the endings caused here stand afterwards. */
  ghost predicate Settles(cfg: Config, s: State, e: Event, s': State) {
    forall ending :: Standing(s') == Some(ending) <==> Standing(s) == Some(ending) || Ends(cfg, s, e, ending)
  }

  lemma StartSettles(cfg: Config, s: State, i: Input, r: E.Outcome)
    requires Inv(cfg, s) && s.pc.NotStarted? && r.fault == Raised(cfg, s, i)
    ensures Settles(cfg, s, Thread(i), StartStep(s, i.now, r))
  {
  }

  lemma ObserveSettles(cfg: Config, s: State, i: Input, r: E.Outcome)
    requires Inv(cfg, s) && s.pc.Observing? && r.fault == Raised(cfg, s, i)
    requires r.fault.None? ==> r.st.observation.Some?
    ensures Settles(cfg, s, Thread(i), ObserveStep(s, r))
  {
  }

  /** What a call that counts as a step leads to. */
  function CallEnding(s: State, raised: Option<E.Fault>): Option<Reason> {
    match raised
    case Some(fault) => Some(ReasonOf(fault))
    case None => if s.steps >= 1_000_000 then Some(Unexpected) else None
  }

  lemma CallCauses(cfg: Config, s: State, i: Input, raised: Option<E.Fault>, reason: Reason)
    requires s.pc.Acting? || s.pc.Typing?
    ensures Causes(cfg, s, i, raised, reason) <==> CallEnding(s, raised) == Some(reason)
  {
  }

  lemma RecordedStands(s: State, fault: Option<E.Fault>, kind: ActionKind, next: Pc)
    requires s.session.status == Running && !next.Failing?
    ensures Standing(Recorded(s, fault, kind, next)) ==
            match fault
            case Some(f) => Some(Broken(ReasonOf(f)))
            case None => if s.steps > 1_000_000 then Some(Broken(Unexpected)) else None
  {
  }

  lemma ActSettles(cfg: Config, s: State, i: Input, r: E.Outcome)
    requires Inv(cfg, s) && s.pc.Acting? && r.fault == Raised(cfg, s, i)
    ensures Settles(cfg, s, Thread(i), ActStep(s, s.pc.obs, s.pc.chosen, s.pc.action, r))
  {
    var called := s.(steps := s.steps + 1, exec := r.st,
                     trace := s.trace.(calls := s.trace.calls + 1,
                                       deeds := s.trace.deeds + Deeds(s.pc.obs, s.pc.chosen, r.acts)));
    RecordedStands(called, r.fault, KindOf(s.pc.action), Top);
    CallSettles(cfg, s, i, ActStep(s, s.pc.obs, s.pc.chosen, s.pc.action, r));
  }

  lemma TypeSettles(cfg: Config, s: State, i: Input, r: E.Outcome)
    requires Inv(cfg, s) && s.pc.Typing? && r.fault == Raised(cfg, s, i)
    ensures Settles(cfg, s, Thread(i), TypeStep(s, s.pc.obs, s.pc.chosen, s.pc.text, r))
  {
    var called := s.(steps := s.steps + 1, exec := r.st,
                     trace := s.trace.(calls := s.trace.calls + 1,
                                       deeds := s.trace.deeds + Deeds(s.pc.obs, s.pc.chosen, r.acts),
                                       typed := s.trace.typed + [(s.pc.chosen.id, s.pc.text)]));
    RecordedStands(called, r.fault, ActionKind.TypeText, AfterText);
    CallSettles(cfg, s, i, TypeStep(s, s.pc.obs, s.pc.chosen, s.pc.text, r));
  }

  lemma CallSettles(cfg: Config, s: State, i: Input, s': State)
    requires (s.pc.Acting? || s.pc.Typing?) && s.session.status == Running
    requires
      var reason := CallEnding(s, Raised(cfg, s, i));
      Standing(s') == if reason.Some? then Some(Broken(reason.value)) else None
    ensures Settles(cfg, s, Thread(i), s')
  {
    var raised := Raised(cfg, s, i);
    forall ending
      ensures Standing(s') == Some(ending) <==> Standing(s) == Some(ending) || Ends(cfg, s, Thread(i), ending)
    {
      if ending.Broken? { CallCauses(cfg, s, i, raised, ending.reason); }
    }
  }

  lemma GoalSettles(cfg: Config, s: State, i: Input)
    requires Inv(cfg, s) && s.pc.Judging?
    ensures Settles(cfg, s, Thread(i), JudgeStep(s, s.pc.obs, i))
  {
  }

  lemma SelectSettles(cfg: Config, s: State, i: Input, selected: Result<Candidate, SelectionError>)
    requires Inv(cfg, s) && s.pc.Selecting?
    requires selected == Select(s.pc.obs.candidates, cfg.caps, i.choose).outcome
    ensures Settles(cfg, s, Thread(i), SelectStep(s, s.pc.obs, selected))
  {
  }

  lemma DoableIsBuilt(cfg: Config, obs: RuntimeObservation, c: Candidate)
    ensures ActionFor(cfg, obs, c).Some? <==> Doable(cfg, obs, c)
  {
  }

  lemma DecideSettles(cfg: Config, s: State, i: Input)
    requires Inv(cfg, s) && s.pc.Decided?
    ensures Settles(cfg, s, Thread(i), DecideStep(cfg, s, s.pc.obs, s.pc.chosen, i))
  {
    DoableIsBuilt(cfg, s.pc.obs, s.pc.chosen);
  }

  lemma AwaitSettles(cfg: Config, s: State, i: Input)
    requires Inv(cfg, s) && s.pc.Awaiting?
    ensures Settles(cfg, s, Thread(i), AwaitStep(cfg, s, s.pc.obs, s.pc.chosen, i))
  {
  }

  lemma CheckSettles(cfg: Config, s: State, i: Input)
    requires Inv(cfg, s)
    ensures s.pc.Top? ==> Settles(cfg, s, Thread(i), LimitStep(cfg, s, i))
    ensures s.pc.StopCheck? ==> Settles(cfg, s, Thread(i), StopCheckStep(s))
  {
  }

  lemma EndSettles(cfg: Config, s: State, i: Input)
    requires Inv(cfg, s)
    ensures s.pc.AfterText? ==> Settles(cfg, s, Thread(i), AfterTextStep(s))
    ensures s.pc.Failing? ==> Settles(cfg, s, Thread(i), FailStep(s, s.pc.reason))
    ensures s.pc.Closing? ==> Settles(cfg, s, Thread(i), CloseStep(s))
    ensures s.pc.Ended? ==> Settles(cfg, s, Thread(i), s)
  {
  }

  lemma OthersSettle(cfg: Config, s: State, e: Event)
    requires Inv(cfg, s) && !e.Thread?
    ensures Settles(cfg, s, e, Step(cfg, s, e))
  {
  }

  lemma CallingSettles(cfg: Config, s: State, i: Input)
    requires Inv(cfg, s) && Calling(s.pc)
    ensures Settles(cfg, s, Thread(i), Advance(cfg, s, i))
  {
    match s.pc {
      case NotStarted => StartSettles(cfg, s, i, E.Started(cfg.setup, s.exec, i.launch, i.io));
      case Observing => ObserveSettles(cfg, s, i, E.Refreshed(cfg.setup, s.exec, i.io.shot));
      case Acting(_, _, action) => ActSettles(cfg, s, i, E.Executed(cfg.setup, s.exec, action, i.io));
      case Typing(_, c, text) => TypeSettles(cfg, s, i, E.Typed(cfg.setup, s.exec, c.id, text, i.io));
    }
  }

  lemma DecidingSettles(cfg: Config, s: State, i: Input)
    requires Inv(cfg, s) && Deciding(s.pc)
    ensures Settles(cfg, s, Thread(i), Advance(cfg, s, i))
  {
    match s.pc {
      case Judging(_) => GoalSettles(cfg, s, i);
      case Selecting(obs) => SelectSettles(cfg, s, i, Select(obs.candidates, cfg.caps, i.choose).outcome);
      case Decided(_, _) => DecideSettles(cfg, s, i);
    }
  }

  lemma RestSettles(cfg: Config, s: State, i: Input)
    requires Inv(cfg, s) && !Calling(s.pc) && !Deciding(s.pc)
    ensures Settles(cfg, s, Thread(i), Advance(cfg, s, i))
  {
    if s.pc.Awaiting? {
      AwaitSettles(cfg, s, i);
    } else if Checking(s.pc) {
      CheckSettles(cfg, s, i);
    } else {
      EndSettles(cfg, s, i);
    }
  }

  lemma AdvanceSettles(cfg: Config, s: State, i: Input)
    requires Inv(cfg, s)
    ensures Settles(cfg, s, Thread(i), Advance(cfg, s, i))
  {
    if Calling(s.pc) {
      CallingSettles(cfg, s, i);
    } else if Deciding(s.pc) {
      DecidingSettles(cfg, s, i);
    } else {
      RestSettles(cfg, s, i);
    }
  }

  lemma StepSettles(cfg: Config, s: State, e: Event)
    requires Inv(cfg, s)
    ensures Settles(cfg, s, e, Step(cfg, s, e))
  {
    if e.Thread? {
      AdvanceSettles(cfg, s, e.input);
    } else {
      OthersSettle(cfg, s, e);
    }
  }

  /** Some event of the run was this cause. */
  ghost predicate Happened(cfg: Config, events: seq<Event>, ending: Ending) {
    exists k :: 0 <= k < |events| && HappenedAt(cfg, events, k, ending)
  }

  ghost predicate HappenedAt(cfg: Config, events: seq<Event>, k: nat, ending: Ending)
    requires k < |events|
  {
    Ends(cfg, After(cfg, events[..k]), events[k], ending)
  }

  lemma HappenedLast(cfg: Config, events: seq<Event>, ending: Ending)
    requires events != []
    ensures
      var n := |events| - 1;
      Happened(cfg, events, ending) <==>
      Happened(cfg, events[..n], ending) || Ends(cfg, After(cfg, events[..n]), events[n], ending)
  {
    var n := |events| - 1;
    forall k: nat | k < n
      ensures HappenedAt(cfg, events, k, ending) <==> HappenedAt(cfg, events[..n], k, ending)
    {
      assert events[..n][..k] == events[..k];
    }
    if Happened(cfg, events[..n], ending) {
      var k: nat :| k < n && HappenedAt(cfg, events[..n], k, ending);
      assert HappenedAt(cfg, events, k, ending);
    }
    if Ends(cfg, After(cfg, events[..n]), events[n], ending) { assert HappenedAt(cfg, events, n, ending); }
  }

  /** An ending stands exactly when its cause has happened. */
  lemma {:induction false} StandingExact(cfg: Config, events: seq<Event>, ending: Ending)
    ensures Standing(After(cfg, events)) == Some(ending) <==> Happened(cfg, events, ending)
    decreases |events|
  {
    if events != [] {
      var n := |events| - 1;
      StandingExact(cfg, events[..n], ending);
      Reachable(cfg, events[..n]);
      StepSettles(cfg, After(cfg, events[..n]), events[n]);
      LastStep(cfg, events);
      HappenedLast(cfg, events, ending);
    }
  }

  /** The flag is up exactly when `stop` has been called. */
  lemma {:induction false} FlagExact(cfg: Config, events: seq<Event>)
    ensures After(cfg, events).stop <==> Stop in events
    decreases |events|
  {
    if events != [] {
      var n := |events| - 1;
      FlagExact(cfg, events[..n]);
      LastStep(cfg, events);
      if events[n].Thread? { StopStays(cfg, After(cfg, events[..n]), events[n].input); }
      assert events == events[..n] + [events[n]];
    }
  }

  /**
   Every run ends as it does because of one answer of the world: done exactly when a goal question
   was answered complete, stopped exactly when the flag was seen at a stop check or in a wait, paused
   exactly on a review-gated choice, with its request, and failed with each reason exactly on its cause.
   */
  lemma OutcomeExact(cfg: Config, events: seq<Event>)
    ensures
      var s := After(cfg, events);
      && (s.session.status == Done <==> Happened(cfg, events, Complete))
      && (s.session.status == Stopped <==> Happened(cfg, events, Halted))
      && (s.session.status == Stopped ==> Stop in events)
      && (forall request :: s.session.status == NeedsReview && s.session.pending == Some(request) <==>
            Happened(cfg, events, Paused(request)))
      && (forall reason :: s.session.failure == Some(reason) || s.pc == Failing(reason) <==>
            Happened(cfg, events, Broken(reason)))
  {
    var s := After(cfg, events);
    Reachable(cfg, events);
    StandingExact(cfg, events, Complete);
    StandingExact(cfg, events, Halted);
    if Happened(cfg, events, Halted) { HaltedAfterStop(cfg, events); }
    forall request
      ensures s.session.status == NeedsReview && s.session.pending == Some(request) <==>
              Happened(cfg, events, Paused(request))
    {
      StandingExact(cfg, events, Paused(request));
    }
    forall reason
      ensures s.session.failure == Some(reason) || s.pc == Failing(reason) <==>
              Happened(cfg, events, Broken(reason))
    {
      StandingExact(cfg, events, Broken(reason));
    }
  }

  lemma HaltedAfterStop(cfg: Config, events: seq<Event>)
    requires Happened(cfg, events, Halted)
    ensures Stop in events
  {
    var k: nat :| k < |events| && HappenedAt(cfg, events, k, Halted);
    FlagExact(cfg, events[..k]);
    assert forall e | e in events[..k] :: e in events;
  }

  // ---- The run's clock -----------------------------------------------------------------------

  /** When the run thread made its first step. */
  function StartedAt(events: seq<Event>): Option<real> {
    if events == [] then None
    else if events[0].Thread? then Some(events[0].input.now)
    else StartedAt(events[1..])
  }

  /** The clock and the end of the run are touched only where the run starts and closes. */
  predicate Steady(s: State, s': State) {
    && s'.startTime == s.startTime && !s'.pc.NotStarted?
    && (s'.pc.Ended? ==> s'.exec.closed || s' == s)
  }

  lemma CallSteady(s: State, r: E.Outcome)
    ensures s.pc.Observing? ==> Steady(s, ObserveStep(s, r))
    ensures s.pc.Acting? ==> Steady(s, ActStep(s, s.pc.obs, s.pc.chosen, s.pc.action, r))
    ensures s.pc.Typing? ==> Steady(s, TypeStep(s, s.pc.obs, s.pc.chosen, s.pc.text, r))
  {
  }

  lemma DecisionSteady(cfg: Config, s: State, i: Input, selected: Result<Candidate, SelectionError>)
    ensures s.pc.Judging? ==> Steady(s, JudgeStep(s, s.pc.obs, i))
    ensures s.pc.Selecting? ==> Steady(s, SelectStep(s, s.pc.obs, selected))
    ensures s.pc.Decided? ==> Steady(s, DecideStep(cfg, s, s.pc.obs, s.pc.chosen, i))
  {
  }

  lemma RestSteady(cfg: Config, s: State, e: Event)
    requires !s.pc.NotStarted? && (e.Thread? ==> !Calling(s.pc) && !Deciding(s.pc))
    ensures Steady(s, Step(cfg, s, e)) || (s.pc.Ended? && !e.Thread?)
    ensures Step(cfg, s, e).startTime == s.startTime && !Step(cfg, s, e).pc.NotStarted?
    ensures !e.Thread? ==> Step(cfg, s, e).exec == s.exec && Step(cfg, s, e).pc == s.pc
  {
  }

  lemma ClockStays(cfg: Config, s: State, e: Event)
    requires !s.pc.NotStarted? && (s.pc.Ended? ==> s.exec.closed)
    ensures
      var s' := Step(cfg, s, e);
      s'.startTime == s.startTime && !s'.pc.NotStarted? && (s'.pc.Ended? ==> s'.exec.closed)
  {
    if e.Thread? && Calling(s.pc) {
      var i := e.input;
      match s.pc {
        case Observing => CallSteady(s, E.Refreshed(cfg.setup, s.exec, i.io.shot));
        case Acting(_, _, action) => CallSteady(s, E.Executed(cfg.setup, s.exec, action, i.io));
        case Typing(_, c, text) => CallSteady(s, E.Typed(cfg.setup, s.exec, c.id, text, i.io));
      }
    } else if e.Thread? && Deciding(s.pc) {
      var selected :=
        if s.pc.Selecting? then Select(s.pc.obs.candidates, cfg.caps, e.input.choose).outcome
        else Failure(NoCandidates);
      DecisionSteady(cfg, s, e.input, selected);
    } else {
      RestSteady(cfg, s, e);
    }
  }

  lemma {:induction false} ClockRuns(cfg: Config, s: State, events: seq<Event>)
    requires !s.pc.NotStarted? && (s.pc.Ended? ==> s.exec.closed)
    ensures
      var s' := Run(cfg, s, events);
      s'.startTime == s.startTime && (s'.pc.Ended? ==> s'.exec.closed)
    decreases |events|
  {
    if events != [] {
      ClockStays(cfg, s, events[0]);
      ClockRuns(cfg, Step(cfg, s, events[0]), events[1..]);
    }
  }

  lemma {:induction false} ClockFrom(cfg: Config, s: State, events: seq<Event>)
    requires s.pc.NotStarted?
    ensures
      var s' := Run(cfg, s, events);
      && s'.startTime == (if StartedAt(events).Some? then StartedAt(events).value else s.startTime)
      && (s'.pc.Ended? ==> s'.exec.closed)
    decreases |events|
  {
    if events != [] {
      if events[0].Thread? {
        ClockRuns(cfg, Step(cfg, s, events[0]), events[1..]);
      } else {
        ClockFrom(cfg, Step(cfg, s, events[0]), events[1..]);
      }
    }
  }

  /** The limit is counted from the first step of the run thread; and a run that has ended has closed the browser. */
  lemma ClockExact(cfg: Config, events: seq<Event>)
    ensures StartedAt(events).Some? ==> After(cfg, events).startTime == StartedAt(events).value
    ensures After(cfg, events).pc.Ended? ==> After(cfg, events).exec.closed
  {
    ClockFrom(cfg, INITIAL, events);
  }

  // ---- What is published -------------------------------------------------------------------------

  /** What one event publishes: the record of a call that did not raise, the observation of a look that did not. */
  function Told(cfg: Config, s: State, e: Event): seq<Record> {
    if e.Thread? && (s.pc.Acting? || s.pc.Typing?) && Raised(cfg, s, e.input).None? && s.steps < 1_000_000
    then [Record(s.steps + 1, if s.pc.Acting? then s.pc.chosen.kind else ActionKind.TypeText)] else []
  }

  function Looked(cfg: Config, s: State, e: Event): Option<RuntimeObservation> {
    if e.Thread? && s.pc.Observing? && Raised(cfg, s, e.input).None? && e.input.io.shot.Loaded?
       && E.ObservedOn(cfg.setup, e.input.io.shot.page).Success?
    then Some(E.ObservedOn(cfg.setup, e.input.io.shot.page).value) else None
  }

  predicate Publishes(cfg: Config, s: State, e: Event, s': State) {
    && s'.session.executed == s.session.executed + Told(cfg, s, e)
    && s'.session.observed == (if Looked(cfg, s, e).Some? then Looked(cfg, s, e) else s.session.observed)
    && s'.steps == s.steps + (if e.Thread? && (s.pc.Acting? || s.pc.Typing?) then 1 else 0)
  }

  lemma CallPublishes(cfg: Config, s: State, i: Input, r: E.Outcome)
    requires Inv(cfg, s) && r.fault == Raised(cfg, s, i)
    ensures s.pc.NotStarted? ==> Publishes(cfg, s, Thread(i), StartStep(s, i.now, r))
    ensures s.pc.Acting? ==> Publishes(cfg, s, Thread(i), ActStep(s, s.pc.obs, s.pc.chosen, s.pc.action, r))
    ensures s.pc.Typing? ==> Publishes(cfg, s, Thread(i), TypeStep(s, s.pc.obs, s.pc.chosen, s.pc.text, r))
  {
  }

  lemma LookPublishes(cfg: Config, s: State, i: Input)
    requires s.pc.Observing?
    ensures Publishes(cfg, s, Thread(i), ObserveStep(s, E.Refreshed(cfg.setup, s.exec, i.io.shot)))
  {
  }

  lemma RestPublishes(cfg: Config, s: State, i: Input)
    requires !Calling(s.pc)
    ensures Publishes(cfg, s, Thread(i), Advance(cfg, s, i))
  {
  }

  lemma StepPublishes(cfg: Config, s: State, e: Event)
    requires Inv(cfg, s)
    ensures Publishes(cfg, s, e, Step(cfg, s, e))
  {
    if e.Thread? {
      var i := e.input;
      match s.pc {
        case NotStarted => CallPublishes(cfg, s, i, E.Started(cfg.setup, s.exec, i.launch, i.io));
        case Observing => LookPublishes(cfg, s, i);
        case Acting(_, _, action) => CallPublishes(cfg, s, i, E.Executed(cfg.setup, s.exec, action, i.io));
        case Typing(_, c, text) => CallPublishes(cfg, s, i, E.Typed(cfg.setup, s.exec, c.id, text, i.io));
        case _ => RestPublishes(cfg, s, i);
      }
    }
  }

  /** The records of a run, in order. */
  function AllTold(cfg: Config, s: State, events: seq<Event>): seq<Record>
    decreases |events|
  {
    if events == [] then []
    else Told(cfg, s, events[0]) + AllTold(cfg, Step(cfg, s, events[0]), events[1..])
  }

  /** The last observation of a run. */
  function LastLook(cfg: Config, s: State, events: seq<Event>): Option<RuntimeObservation>
    decreases |events|
  {
    if events == [] then None
    else
      var later := LastLook(cfg, Step(cfg, s, events[0]), events[1..]);
      if later.Some? then later else Looked(cfg, s, events[0])
  }

  lemma {:induction false} RunTells(cfg: Config, s: State, events: seq<Event>)
    requires Inv(cfg, s)
    ensures Run(cfg, s, events).session.executed == s.session.executed + AllTold(cfg, s, events)
    decreases |events|
  {
    if events != [] {
      var s', rest := Step(cfg, s, events[0]), events[1..];
      StepPublishes(cfg, s, events[0]);
      StepKeeps(cfg, s, events[0]);
      RunTells(cfg, s', rest);
      Regroup(s.session.executed, Told(cfg, s, events[0]), AllTold(cfg, s', rest));
    }
  }

  lemma Regroup<T>(a: seq<T>, b: seq<T>, c: seq<T>)
    ensures (a + b) + c == a + (b + c)
  {
  }

  lemma {:induction false} RunLooks(cfg: Config, s: State, events: seq<Event>)
    requires Inv(cfg, s)
    ensures Run(cfg, s, events).session.observed ==
            if LastLook(cfg, s, events).Some? then LastLook(cfg, s, events) else s.session.observed
    decreases |events|
  {
    if events != [] {
      StepPublishes(cfg, s, events[0]);
      StepKeeps(cfg, s, events[0]);
      RunLooks(cfg, Step(cfg, s, events[0]), events[1..]);
    }
  }

  /**
   What a run publishes: one record for each call that did not raise, under the number of that call
   and with the kind of the candidate acted on, and the observation of the last look that succeeded.
   */
  lemma PublishedExact(cfg: Config, events: seq<Event>)
    ensures
      var session := After(cfg, events).session;
      && session.executed == AllTold(cfg, INITIAL, events)
      && session.observed == LastLook(cfg, INITIAL, events)
  {
    RunTells(cfg, INITIAL, events);
    RunLooks(cfg, INITIAL, events);
  }

  // ---- Replies ------------------------------------------------------------------------------------

  /**
   A reply is accepted if and only if the run waits for one to this very request and has none yet,
   and it says something in at most 20,000 characters; a refused one changes nothing.
   */
  lemma ReplyExact(cfg: Config, events: seq<Event>, id: string, text: string)
    ensures
      var s, s' := After(cfg, events), After(cfg, events + [Event.Reply(id, text)]);
      if s.pc.Awaiting? && s.replyText.None? && s.pc.request.id == id &&
         (exists c | c in text :: !IsSpace(c)) && |text| <= 20_000
      then s'.trace.accepted == s.trace.accepted + [(s.pc.chosen.id, text)] && s'.replyText == Some(text)
           && s'.session.status == Running && s'.session.pending.None?
      else s' == s
  {
    Reachable(cfg, events);
    RunAppend(cfg, INITIAL, events, [Event.Reply(id, text)]);
    assert [Event.Reply(id, text)][1..] == [];
    BlankMeans(text);
  }

  lemma BlankMeans(text: string)
    ensures Blank(text) <==> !exists c | c in text :: !IsSpace(c)
  {
    if Blank(text) {
      forall c | c in text
        ensures IsSpace(c)
      {
      }
    }
    if !exists c | c in text :: !IsSpace(c) {
      forall i | 0 <= i < |text|
        ensures IsSpace(text[i])
      {
        assert text[i] in text;
      }
    }
  }
}
