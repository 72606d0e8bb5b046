/** The controller object: each atomic section of the program is one method, proved against the protocol. */
module Controller {
  import opened Wrappers
  import opened Text
  import opened Models
  import opened Observation
  import opened Selection
  import opened Protocol
  import opened ProtocolRuns
  import E = Executor

  class BrowserController {
    const cfg: Config
    const executor: E.BrowserExecutor
    var session: Session
    var pending: Option<Request>
    var executed: seq<Record>
    var steps: nat
    var stopFlag: bool
    var replyText: Option<string>
    var startTime: real
    var pc: Pc
    ghost var trace: Trace

    ghost function View(): State
      reads this, executor
    {
      State(session, pending, executed, steps, stopFlag, replyText, startTime, executor.View(), pc, trace)
    }

    ghost predicate Valid()
      reads this, executor
    {
      executor.cfg == cfg.setup && Inv(cfg, View())
    }

    constructor (cfg: Config, executor: E.BrowserExecutor)
      requires cfg.maxSteps >= 1 && (cfg.timeLimit.Some? ==> cfg.timeLimit.value > 0.0)
      requires executor.cfg == cfg.setup && executor.View() == E.IDLE
      ensures this.cfg == cfg && this.executor == executor && Valid() && View() == INITIAL
    {
      this.cfg, this.executor := cfg, executor;
      session, pending, executed := INITIAL.session, None, [];
      steps, stopFlag, replyText, startTime, pc := 0, false, None, 0.0, NotStarted;
      trace := INITIAL.trace;
    }

    // ---- Calls from other threads --------------------------------------------------------

    method Stop()
      requires Valid()
      modifies this
      ensures Valid() && View() == Step(cfg, old(View()), Event.Stop)
    {
      stopFlag := true;
      StopKeeps(cfg, old(View()));
    }

    /** A refused reply raises and changes nothing. */
    method Reply(id: string, text: string) returns (accepted: bool)
      requires Valid()
      modifies this
      ensures Valid() && View() == Step(cfg, old(View()), Event.Reply(id, text))
      ensures accepted <==> Accepts(old(View()), id, text)
    {
      StepKeeps(cfg, View(), Event.Reply(id, text));
      accepted := ReplyLocked(id, text);
    }

    /** What `reply` does under the lock. */
    method ReplyLocked(id: string, text: string) returns (accepted: bool)
      modifies this
      ensures View() == ReplyStep(old(View()), id, text)
      ensures accepted <==> Accepts(old(View()), id, text)
    {
      if session.status != NeedsText || pending.None? || pending.value.kind != TextRequest || pending.value.id != id {
        return false;
      }
      if Blank(text) || |text| > MAX_REPLY_CHARS { return false; }
      trace := trace.(accepted := trace.accepted + [(pending.value.candidateId, text)]);
      replyText := Some(text);
      pending := None;
      session := session.(status := Running, pending := None);
      accepted := true;
    }

    // ---- Shared pieces --------------------------------------------------------------------

    method FinishLocked(status: Status, failure: Option<Reason>)
      modifies this
      ensures View() == Finished(old(View()), status, failure)
    {
      pending := None;
      session := session.(status := status, failure := failure, pending := None);
    }

    method EnforceLimits(now: real) returns (breach: Option<Reason>)
      ensures breach == Limits(cfg, View(), now)
    {
      if cfg.timeLimit.Some? && now - startTime >= cfg.timeLimit.value { return Some(Deadline); }
      if steps >= cfg.maxSteps { return Some(MaxSteps); }
      breach := None;
    }

    /** The record of a call that did not raise, under the lock. */
    method RecordAction(fault: Option<E.Fault>, kind: ActionKind, next: Pc)
      modifies `executed, `session, `pc
      ensures View() == Recorded(old(View()), fault, kind, next)
    {
      if fault.None? && steps <= MAX_STEP_NUMBER {
        executed := executed + [Record(steps, kind)];
        session := session.(executed := executed);
      }
      pc := if fault.Some? then Failing(ReasonOf(fault.value))
            else if steps > MAX_STEP_NUMBER then Failing(Unexpected)
            else next;
    }

    method RecordObservation(fault: Option<E.Fault>, observation: Option<RuntimeObservation>)
      modifies `session, `pc
      ensures View() == Seen(old(View()), fault, observation)
    {
      if fault.None? && observation.Some? { session := session.(observed := observation); }
      pc := if fault.Some? then Failing(ReasonOf(fault.value))
            else if observation.Some? then Judging(observation.value)
            else Failing(ExecutorError);
    }

    // ---- The run thread ---------------------------------------------------------------------

    method StartExecutor(i: Input)
      requires executor.cfg == cfg.setup && pc.NotStarted?
      modifies this, executor
      ensures View() == StartStep(old(View()), i.now, E.Started(cfg.setup, old(executor.View()), i.launch, i.io))
    {
      startTime := i.now;
      var fault := executor.Start(i.launch, i.io);
      pc := if fault.Some? then Failing(ReasonOf(fault.value)) else Top;
    }

    method Observe(i: Input)
      requires executor.cfg == cfg.setup && pc.Observing?
      modifies this, executor
      ensures View() == ObserveStep(old(View()), E.Refreshed(cfg.setup, old(executor.View()), i.io.shot))
    {
      trace := trace.(observes := trace.observes + 1);
      var fault := executor.RefreshObservation(i.io.shot);
      RecordObservation(fault, executor.observation);
    }

    method AskGoal(i: Input)
      requires pc.Judging?
      modifies this
      ensures View() == JudgeStep(old(View()), old(pc.obs), i)
    {
      var obs := pc.obs;
      trace := trace.(questions := trace.questions + 1);
      match i.goal {
        case Says(true) =>
          FinishLocked(Done, None);
          pc := Closing;
        case Says(false) => pc := Selecting(obs);
        case DriverRaises => pc := Failing(DriverError);
        case OtherRaises => pc := Failing(Unexpected);
      }
    }

    method SelectNext(i: Input)
      requires pc.Selecting?
      modifies this
      ensures View() == SelectStep(old(View()), old(pc.obs), Select(old(pc.obs).candidates, cfg.caps, i.choose).outcome)
    {
      var obs := pc.obs;
      trace := trace.(selections := trace.selections + 1);
      var play := SelectCandidate(obs.candidates, cfg.caps, i.choose);
      match play.outcome {
        case Failure(_) => pc := Failing(DriverError);
        case Success(c) => pc := Decided(obs, c);
      }
    }

    method Decide(i: Input)
      requires pc.Decided?
      modifies this
      ensures View() == DecideStep(cfg, old(View()), old(pc.obs), old(pc.chosen), i)
    {
      var obs, c := pc.obs, pc.chosen;
      if c.kind == RequestReview || c.review.Some? {
        if c.review.None? {
          pc := Failing(InvalidAction);
        } else {
          pending := Some(Request(i.requestId, ReviewRequest, c.id, c.review));
          session := session.(status := NeedsReview, pending := pending);
          pc := Closing;
        }
      } else if c.kind == RequestText {
        var request := Request(i.requestId, TextRequest, c.id, None);
        pending := Some(request);
        session := session.(status := NeedsText, pending := pending);
        pc := Awaiting(obs, c, request);
      } else {
        var action := ActionFor(cfg, obs, c);
        if action.None? {
          pc := Failing(InvalidAction);
        } else {
          var breach := EnforceLimits(i.now);
          pc := if breach.Some? then Failing(breach.value) else Acting(obs, c, action.value);
        }
      }
    }

    method ExecuteAction(i: Input)
      requires executor.cfg == cfg.setup && pc.Acting?
      modifies this, executor
      ensures View() == ActStep(old(View()), old(pc.obs), old(pc.chosen), old(pc.action),
                                E.Executed(cfg.setup, old(executor.View()), old(pc.action), i.io))
    {
      var obs, c, action := pc.obs, pc.chosen, pc.action;
      ghost var before, r := View(), E.Executed(cfg.setup, executor.View(), action, i.io);
      steps := steps + 1;
      var fault := executor.Execute(action, i.io);
      trace := trace.(calls := trace.calls + 1, deeds := trace.deeds + Deeds(obs, c, r.acts));
      assert View() == before.(steps := steps, exec := r.st, trace := trace);
      RecordAction(fault, KindOf(action), Top);
    }

    /** One pass through the waiting loop of `_await_reply`, under the lock. */
    method AwaitReply(i: Input)
      requires pc.Awaiting?
      modifies this
      ensures View() == AwaitStep(cfg, old(View()), old(pc.obs), old(pc.chosen), i)
    {
      var obs, c := pc.obs, pc.chosen;
      if replyText.Some? {
        pc := Typing(obs, c, replyText.value);
        replyText := None;
      } else if stopFlag {
        FinishLocked(Stopped, None);
        pc := AfterText;
      } else if cfg.timeLimit.Some? && cfg.timeLimit.value - (i.now - startTime) <= 0.0 {
        FinishLocked(Failed, Some(ReplyTimeout));
        pc := AfterText;
      }
    }

    method TypeReply(i: Input)
      requires executor.cfg == cfg.setup && pc.Typing?
      modifies this, executor
      ensures View() == TypeStep(old(View()), old(pc.obs), old(pc.chosen), old(pc.text),
                                 E.Typed(cfg.setup, old(executor.View()), old(pc.chosen).id, old(pc.text), i.io))
    {
      var obs, c, text := pc.obs, pc.chosen, pc.text;
      ghost var before, r := View(), E.Typed(cfg.setup, executor.View(), c.id, text, i.io);
      steps := steps + 1;
      var fault := executor.TypeText(c.id, text, i.io);
      trace := trace.(calls := trace.calls + 1, deeds := trace.deeds + Deeds(obs, c, r.acts),
                      typed := trace.typed + [(c.id, text)]);
      assert View() == before.(steps := steps, exec := r.st, trace := trace);
      RecordAction(fault, ActionKind.TypeText, AfterText);
    }

    /** The run thread up to its next atomic section. */
    method RunThread(i: Input)
      requires Valid()
      modifies this, executor
      ensures Valid() && View() == Step(cfg, old(View()), Thread(i))
    {
      StepKeeps(cfg, View(), Thread(i));
      RunSection(i);
    }

    method RunSection(i: Input)
      requires executor.cfg == cfg.setup
      modifies this, executor
      ensures View() == Advance(cfg, old(View()), i)
    {
      if Calling(pc) {
        RunCall(i);
      } else if Deciding(pc) {
        match pc {
          case Judging(_) => AskGoal(i);
          case Selecting(_) => SelectNext(i);
          case Decided(_, _) => Decide(i);
        }
      } else {
        RunLocked(i);
      }
    }

    /** The sections that call the executor. */
    method RunCall(i: Input)
      requires executor.cfg == cfg.setup && Calling(pc)
      modifies this, executor
      ensures View() == Advance(cfg, old(View()), i)
    {
      match pc {
        case NotStarted => StartExecutor(i);
        case Observing => Observe(i);
        case Acting(_, _, _) => ExecuteAction(i);
        case Typing(_, _, _) => TypeReply(i);
      }
    }

    /** The sections between calls. */
    method RunLocked(i: Input)
      requires executor.cfg == cfg.setup && !Calling(pc) && !Deciding(pc)
      modifies this, executor
      ensures View() == Advance(cfg, old(View()), i)
    {
      match pc {
        case Top =>
          var breach := EnforceLimits(i.now);
          pc := if breach.Some? then Failing(breach.value) else StopCheck;
        case StopCheck =>
          if stopFlag {
            FinishLocked(Stopped, None);
            pc := Closing;
          } else {
            pc := Observing;
          }
        case Awaiting(_, _, _) => AwaitReply(i);
        case AfterText => pc := if session.status == Failed || session.status == Stopped then Closing else Top;
        case Failing(reason) =>
          FinishLocked(Failed, Some(reason));
          pc := Closing;
        case Closing =>
          executor.Close();
          pc := Ended;
        case Ended =>
      }
    }

    /** Any interleaving of the run thread with `reply` and `stop` is a run of the protocol. */
    method Interleave(events: seq<Event>)
      requires Valid()
      modifies this, executor
      ensures Valid() && View() == Run(cfg, old(View()), events)
    {
      for k := 0 to |events|
        invariant Valid()
        invariant Run(cfg, View(), events[k..]) == Run(cfg, old(View()), events)
      {
        assert events[k..][1..] == events[k + 1..];
        match events[k] {
          case Thread(i) => RunThread(i);
          case Reply(id, text) => var _ := Reply(id, text);
          case Stop => Stop();
        }
      }
    }
  }
}
