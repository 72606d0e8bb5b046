/**
 The session protocol: a run thread that observes, decides and acts, interleaved with
 `reply` and `stop` from other threads. A step is what happens between two points at which
 another thread can be noticed; the driver, the page and the clock answer as they like.
 */
module Protocol {
  import opened Wrappers
  import opened Text
  import opened Models
  import opened Validation
  import opened Observation
  import opened Selection
  import E = Executor

  const MAX_REPLY_CHARS: nat := 20_000
  const MAX_STEP_NUMBER: nat := 1_000_000 // bound of ExecutedAction.step
  const SCROLL_AMOUNT: nat := 3000
  const WAIT_SECONDS: real := 2.0

  datatype Status = Running | NeedsText | NeedsReview | Done | Failed | Stopped

  datatype Reason =
    | Deadline
    | MaxSteps
    | DriverError
    | ExecutorError
    | InvalidAction
    | ReplyTimeout
    | Unexpected

  datatype RequestKind = TextRequest | ReviewRequest

  datatype Request = Request(id: string, kind: RequestKind, candidateId: string, review: Option<ReviewKind>)

  /** One executed action, as published. */
  datatype Record = Record(step: nat, kind: ActionKind)

  /** The published session state. */
  datatype Session = Session(
    status: Status, failure: Option<Reason>, pending: Option<Request>, executed: seq<Record>,
    observed: Option<RuntimeObservation>)

  datatype Config = Config(
    setup: E.Setup, caps: Capabilities, maxSteps: nat, timeLimit: Option<real>, safeUrl: string -> bool)

  /** Where the run thread is, with the locals it holds there. */
  datatype Pc =
    | NotStarted
    | Top
    | StopCheck
    | Observing
    | Judging(obs: RuntimeObservation)
    | Selecting(obs: RuntimeObservation)
    | Decided(obs: RuntimeObservation, chosen: Candidate)
    | Acting(obs: RuntimeObservation, chosen: Candidate, action: E.Action)
    | Awaiting(obs: RuntimeObservation, chosen: Candidate, request: Request)
    | Typing(obs: RuntimeObservation, chosen: Candidate, text: string)
    | AfterText
    | Failing(reason: Reason)
    | Closing
    | Ended

  /** An effect on the page with the decision that led to it. */
  datatype Deed = Deed(decided: RuntimeObservation, chosen: Candidate, act: E.Act)

  /** What has happened so far; the program itself keeps no such record. */
  datatype Trace = Trace(
    accepted: seq<(string, string)>, // candidate of the request, reply text
    typed: seq<(string, string)>, // candidate and text of each typing call
    deeds: seq<Deed>,
    observes: nat, questions: nat, selections: nat, calls: nat)

  datatype State = State(
    session: Session, pending: Option<Request>, executed: seq<Record>, steps: nat, stop: bool,
    replyText: Option<string>, startTime: real, exec: E.State, pc: Pc, trace: Trace)

  datatype Goal = Says(complete: bool) | DriverRaises | OtherRaises

  /** Everything that the world decides during one step of the run thread. */
  datatype Input = Input(
    now: real, launch: Option<E.Fault>, io: E.Io, goal: Goal, choose: Chooser, requestId: string)

  datatype Event = Thread(input: Input) | Reply(id: string, text: string) | Stop

  const INITIAL := State(
    Session(Running, None, None, [], None), None, [], 0, false, None, 0.0, E.IDLE, NotStarted,
    Trace([], [], [], 0, 0, 0, 0))

  // ---- Pieces of a step ------------------------------------------------------------------

  function ReasonOf(f: E.Fault): Reason {
    if f.BrowserFault? then ExecutorError else Unexpected
  }

  /** `_finish_locked`. */
  function Finished(s: State, status: Status, failure: Option<Reason>): State {
    s.(pending := None, session := s.session.(status := status, failure := failure, pending := None))
  }

  function Limits(cfg: Config, s: State, now: real): Option<Reason> {
    if cfg.timeLimit.Some? && now - s.startTime >= cfg.timeLimit.value then Some(Deadline)
    else if s.steps >= cfg.maxSteps then Some(MaxSteps)
    else None
  }

  /** What a candidate's action must be: of its kind, with its id and trusted target, or one of the fixed ones. */
  predicate Carries(cfg: Config, obs: RuntimeObservation, c: Candidate, a: E.Action) {
    match a
    case ClickAction(id) => c.kind == Click && id == c.id
    case NavigateAction(id, url) =>
      c.kind == Navigate && id == c.id && obs.TargetFor(c.id) == Some(url) && cfg.safeUrl(url)
    case ScrollAction(down, amount) =>
      c.kind == Scroll && c.id == (if down then SCROLL_DOWN_ID else SCROLL_UP_ID) && amount == SCROLL_AMOUNT
    case WaitAction(seconds) => c.kind == Wait && c.id == WAIT_ID && seconds == WAIT_SECONDS
    case _ => false
  }

  /** `_build_action`; None where it raises, which is where no action would do. */
  function ActionFor(cfg: Config, obs: RuntimeObservation, c: Candidate): (a: Option<E.Action>)
    ensures a.Some? ==> Carries(cfg, obs, c, a.value)
    ensures a.None? ==> forall x :: !Carries(cfg, obs, c, x)
  {
    match c.kind
    case Click => Some(E.ClickAction(c.id))
    case Navigate =>
      var target := obs.TargetFor(c.id);
      if target.Some? && cfg.safeUrl(target.value) then Some(E.NavigateAction(c.id, target.value)) else None
    case Scroll =>
      if c.id == SCROLL_DOWN_ID then Some(E.ScrollAction(true, SCROLL_AMOUNT))
      else if c.id == SCROLL_UP_ID then Some(E.ScrollAction(false, SCROLL_AMOUNT))
      else None
    case Wait => if c.id == WAIT_ID then Some(E.WaitAction(WAIT_SECONDS)) else None
    case _ => None
  }

  function Deeds(obs: RuntimeObservation, c: Candidate, acts: seq<E.Act>): seq<Deed> {
    seq(|acts|, i requires 0 <= i < |acts| => Deed(obs, c, acts[i]))
  }

  /** The bookkeeping after an executor call that counted as one step. */
  function Recorded(s: State, fault: Option<E.Fault>, kind: ActionKind, next: Pc): State {
    var recorded := fault.None? && s.steps <= MAX_STEP_NUMBER;
    var executed := if recorded then s.executed + [Record(s.steps, kind)] else s.executed;
    s.(executed := executed, session := s.session.(executed := if recorded then executed else s.session.executed),
       pc := if fault.Some? then Failing(ReasonOf(fault.value))
             else if s.steps > MAX_STEP_NUMBER then Failing(Unexpected)
             else next)
  }

  /** The bookkeeping after an observation. */
  function Seen(s: State, fault: Option<E.Fault>, observation: Option<RuntimeObservation>): State {
    if fault.Some? then s.(pc := Failing(ReasonOf(fault.value)))
    else if observation.None? then s.(pc := Failing(ExecutorError))
    else s.(session := s.session.(observed := observation), pc := Judging(observation.value))
  }

  function KindOf(a: E.Action): ActionKind {
    match a
    case ClickAction(_) => Click
    case NavigateAction(_, _) => Navigate
    case ScrollAction(_, _) => Scroll
    case WaitAction(_) => Wait
    case TypeAction(_, _) => ActionKind.TypeText
    case RequestTextAction => RequestText
    case RequestReviewAction => RequestReview
  }

  // ---- The steps of the run thread ----------------------------------------------------------

  function StartStep(s: State, now: real, r: E.Outcome): State {
    s.(startTime := now, exec := r.st,
       pc := if r.fault.Some? then Failing(ReasonOf(r.fault.value)) else Top)
  }

  function LimitStep(cfg: Config, s: State, i: Input): State {
    var breach := Limits(cfg, s, i.now);
    s.(pc := if breach.Some? then Failing(breach.value) else StopCheck)
  }

  function StopCheckStep(s: State): State {
    if s.stop then Finished(s, Stopped, None).(pc := Closing) else s.(pc := Observing)
  }

  function ObserveStep(s: State, r: E.Outcome): State {
    Seen(s.(exec := r.st, trace := s.trace.(observes := s.trace.observes + 1)), r.fault, r.st.observation)
  }

  function JudgeStep(s: State, obs: RuntimeObservation, i: Input): State {
    var s' := s.(trace := s.trace.(questions := s.trace.questions + 1));
    match i.goal
    case Says(true) => Finished(s', Done, None).(pc := Closing)
    case Says(false) => s'.(pc := Selecting(obs))
    case DriverRaises => s'.(pc := Failing(DriverError))
    case OtherRaises => s'.(pc := Failing(Unexpected))
  }

  function SelectStep(s: State, obs: RuntimeObservation, selected: Result<Candidate, SelectionError>): State {
    var s' := s.(trace := s.trace.(selections := s.trace.selections + 1));
    if selected.Failure? then s'.(pc := Failing(DriverError)) else s'.(pc := Decided(obs, selected.value))
  }

  /** What a decision leads to: a review pause, a text request, or an action within the limits. */
  function DecideStep(cfg: Config, s: State, obs: RuntimeObservation, c: Candidate, i: Input): State {
    if c.kind == RequestReview || c.review.Some? then
      if c.review.None? then s.(pc := Failing(InvalidAction))
      else
        var request := Request(i.requestId, ReviewRequest, c.id, c.review);
        s.(pending := Some(request), pc := Closing,
           session := s.session.(status := NeedsReview, pending := Some(request)))
    else if c.kind == RequestText then
      var request := Request(i.requestId, TextRequest, c.id, None);
      s.(pending := Some(request), pc := Awaiting(obs, c, request),
         session := s.session.(status := NeedsText, pending := Some(request)))
    else match ActionFor(cfg, obs, c)
      case None => s.(pc := Failing(InvalidAction))
      case Some(action) =>
        var breach := Limits(cfg, s, i.now);
        s.(pc := if breach.Some? then Failing(breach.value) else Acting(obs, c, action))
  }

  function ActStep(s: State, obs: RuntimeObservation, c: Candidate, action: E.Action, r: E.Outcome): State {
    var s' := s.(steps := s.steps + 1, exec := r.st,
                 trace := s.trace.(calls := s.trace.calls + 1, deeds := s.trace.deeds + Deeds(obs, c, r.acts)));
    Recorded(s', r.fault, KindOf(action), Top)
  }

  /** One look at the condition in `_await_reply`; nothing changes while there is nothing to see. */
  function AwaitStep(cfg: Config, s: State, obs: RuntimeObservation, c: Candidate, i: Input): State {
    if s.replyText.Some? then s.(replyText := None, pc := Typing(obs, c, s.replyText.value))
    else if s.stop then Finished(s, Stopped, None).(pc := AfterText)
    else if cfg.timeLimit.Some? && cfg.timeLimit.value - (i.now - s.startTime) <= 0.0
      then Finished(s, Failed, Some(ReplyTimeout)).(pc := AfterText)
    else s
  }

  function TypeStep(s: State, obs: RuntimeObservation, c: Candidate, text: string, r: E.Outcome): State {
    var s' := s.(steps := s.steps + 1, exec := r.st,
                 trace := s.trace.(calls := s.trace.calls + 1, deeds := s.trace.deeds + Deeds(obs, c, r.acts),
                                   typed := s.trace.typed + [(c.id, text)]));
    Recorded(s', r.fault, ActionKind.TypeText, AfterText)
  }

  function AfterTextStep(s: State): State {
    s.(pc := if s.session.status == Failed || s.session.status == Stopped then Closing else Top)
  }

  function FailStep(s: State, reason: Reason): State {
    Finished(s, Failed, Some(reason)).(pc := Closing)
  }

  function CloseStep(s: State): State {
    s.(exec := E.Closed(s.exec), pc := Ended)
  }

  function Advance(cfg: Config, s: State, i: Input): State {
    match s.pc
    case NotStarted => StartStep(s, i.now, E.Started(cfg.setup, s.exec, i.launch, i.io))
    case Top => LimitStep(cfg, s, i)
    case StopCheck => StopCheckStep(s)
    case Observing => ObserveStep(s, E.Refreshed(cfg.setup, s.exec, i.io.shot))
    case Judging(obs) => JudgeStep(s, obs, i)
    case Selecting(obs) => SelectStep(s, obs, Select(obs.candidates, cfg.caps, i.choose).outcome)
    case Decided(obs, c) => DecideStep(cfg, s, obs, c, i)
    case Acting(obs, c, action) => ActStep(s, obs, c, action, E.Executed(cfg.setup, s.exec, action, i.io))
    case Awaiting(obs, c, _) => AwaitStep(cfg, s, obs, c, i)
    case Typing(obs, c, text) => TypeStep(s, obs, c, text, E.Typed(cfg.setup, s.exec, c.id, text, i.io))
    case AfterText => AfterTextStep(s)
    case Failing(reason) => FailStep(s, reason)
    case Closing => CloseStep(s)
    case Ended => s
  }

  /** The run thread has nothing to do: it has ended, or it waits and nothing has come. */
  predicate Idle(cfg: Config, s: State, i: Input) {
    s.pc.Ended? || (s.pc.Awaiting? && AwaitStep(cfg, s, s.pc.obs, s.pc.chosen, i).pc == s.pc)
  }

  // ---- The other threads ----------------------------------------------------------------------

  predicate Accepts(s: State, id: string, text: string) {
    && s.session.status == NeedsText
    && s.pending.Some? && s.pending.value.kind == TextRequest && s.pending.value.id == id
    && !Blank(text) && |text| <= MAX_REPLY_CHARS
  }

  function ReplyStep(s: State, id: string, text: string): State {
    if !Accepts(s, id, text) then s
    else s.(replyText := Some(text), pending := None,
            session := s.session.(status := Running, pending := None),
            trace := s.trace.(accepted := s.trace.accepted + [(s.pending.value.candidateId, text)]))
  }

  function Step(cfg: Config, s: State, e: Event): State {
    match e
    case Thread(i) => Advance(cfg, s, i)
    case Reply(id, text) => ReplyStep(s, id, text)
    case Stop => s.(stop := true)
  }

  function Run(cfg: Config, s: State, events: seq<Event>): State
    decreases |events|
  {
    if events == [] then s else Run(cfg, Step(cfg, s, events[0]), events[1..])
  }
}
