/** What a call of the executor refuses, leaves behind and never does, said of the page and of its candidates. */
module ExecutorMeaning {
  import opened Wrappers
  import opened Models
  import opened Observation
  import opened Extraction
  import opened Executor
  import opened Effects

  // ---- The verdict on a candidate -----------------------------------------------------------

  /** Both observations list the candidate, these two under its id. */
  predicate InBoth(
    previous: RuntimeObservation, current: RuntimeObservation, id: string, before: Candidate, now: Candidate)
  {
    before in previous.candidates && before.id == id && now in current.candidates && now.id == id
  }

  /** It passes: same fingerprint, the kind expected, no review gate, and an element behind it. */
  predicate Passes(current: RuntimeObservation, before: Candidate, now: Candidate, kind: ActionKind) {
    now.fingerprint == before.fingerprint && now.kind == kind && now.review.None? &&
    current.RawIndexFor(now.id).Some?
  }

  /** It is unchanged but gated, which is what pauses for a human. */
  predicate Pauses(before: Candidate, now: Candidate, kind: ActionKind) {
    now.fingerprint == before.fingerprint && now.kind == kind && now.review.Some?
  }

  /** A candidate passes, needs review, or is stale, and each exactly by what the two observations list. */
  lemma VerdictExact(previous: RuntimeObservation, current: RuntimeObservation, id: string, kind: ActionKind)
    requires DistinctIds(previous.candidates) && DistinctIds(current.candidates)
    ensures
      var v := Verdict(previous, current, id, kind);
      && (v.None? <==>
            exists before, now :: InBoth(previous, current, id, before, now) && Passes(current, before, now, kind))
      && (v == Some(BrowserFault(NeedsReview)) <==>
            exists before, now :: InBoth(previous, current, id, before, now) && Pauses(before, now, kind))
      && (v.Some? ==> v.value in {BrowserFault(NeedsReview), BrowserFault(Stale)})
  {
    FoundById(previous.candidates, id);
    FoundById(current.candidates, id);
    forall before, now | InBoth(previous, current, id, before, now)
      ensures FirstWithId(previous.candidates, id) == Some(before) && FirstWithId(current.candidates, id) == Some(now)
    {
      FoundIsUnique(previous.candidates, before);
      FoundIsUnique(current.candidates, now);
    }
    match (FirstWithId(previous.candidates, id), FirstWithId(current.candidates, id)) {
      case (Some(before), Some(now)) => assert InBoth(previous, current, id, before, now);
      case _ =>
    }
  }

  // ---- What a call leaves behind --------------------------------------------------------------

  /** The page was observed, and this is the state that its observation leaves. */
  predicate Observes(cfg: Setup, shot: Shot, st: State) {
    && shot.Loaded?
    && var p := shot.page;
       var found := Extracted(p.groups);
       && st.raws == Elements(found) && st.locations == Locators(found)
       && st.observation.Some?
       && cfg.build(p.url, p.title, p.text, Elements(found)) == Success(st.observation.value)
  }

  /** The page has left the origins that the session may be on. */
  predicate Astray(cfg: Setup, url: string) {
    !(cfg.lib.origin(url).Some? && cfg.lib.origin(cfg.initialUrl).Some? &&
      (cfg.lib.origin(url) == cfg.lib.origin(cfg.initialUrl) || cfg.lib.origin(url).value in cfg.allowedOrigins))
  }

  predicate Moves(act: Act) {
    act.Clicked? || act.WentTo?
  }

  /** A call that does not raise ends with the page observed anew; one that went astray raises. */
  predicate Settled(cfg: Setup, io: Io, r: Outcome) {
    && |r.acts| <= 1
    && (r.fault.None? ==> r.acts != [] && io.acted && Observes(cfg, io.after, r.st))
    && (r.acts != [] && !io.acted ==> r.fault in {Some(BrowserFault(ActionFailed)), Some(OtherFault)})
    && (r.acts != [] && Moves(r.acts[0]) && io.acted && Astray(cfg, io.landed) ==>
          r.fault == Some(BrowserFault(LeftOrigin)))
    && (r.fault == Some(BrowserFault(LeftOrigin)) && io.acted ==>
          r.acts != [] && Moves(r.acts[0]) && Astray(cfg, io.landed))
  }

  /** Only these faults come from anywhere but the checks made here. */
  predicate HonestIo(io: Io) {
    && (io.shot.Broken? ==> io.shot.fault == OtherFault) && (io.after.Broken? ==> io.after.fault == OtherFault)
  }

  lemma ValidatedFaults(cfg: Setup, st: State, id: string, kind: ActionKind, shot: Shot)
    requires shot.Broken? ==> shot.fault == OtherFault
    ensures
      var v := Validated(cfg, st, id, kind, shot);
      v.fault != Some(BrowserFault(LeftOrigin)) && v.acts == [] && (v.fault.None? ==> Validates(v, shot))
  {
  }

  lemma ClickSettled(cfg: Setup, v: Outcome, id: string, io: Io)
    requires v.acts == [] && v.fault != Some(BrowserFault(LeftOrigin)) && HonestIo(io)
    requires v.fault.None? ==> v.st.observation.Some? && io.shot.Loaded? && v.st.Usable()
    ensures Settled(cfg, io, ClickAfter(cfg, v, id, io))
  {
  }

  lemma GotoSettled(cfg: Setup, v: Outcome, id: string, url: string, io: Io)
    requires v.acts == [] && v.fault != Some(BrowserFault(LeftOrigin)) && HonestIo(io)
    requires v.fault.None? ==> v.st.observation.Some? && io.shot.Loaded? && v.st.Usable()
    ensures Settled(cfg, io, GotoAfter(cfg, v, id, url, io))
  {
  }

  lemma FillSettled(cfg: Setup, v: Outcome, id: string, text: string, io: Io)
    requires v.acts == [] && v.fault != Some(BrowserFault(LeftOrigin)) && HonestIo(io)
    requires v.fault.None? ==> v.st.observation.Some? && io.shot.Loaded? && v.st.Usable()
    ensures Settled(cfg, io, FillAfter(cfg, v, id, text, io))
  {
  }

  lemma StaysUsable(cfg: Setup, st: State, id: string, kind: ActionKind, shot: Shot)
    ensures Validated(cfg, st, id, kind, shot).fault.None? ==> Validated(cfg, st, id, kind, shot).st.Usable()
  {
  }

  lemma PlainSettled(cfg: Setup, st: State, action: Action, io: Io)
    requires (action.ScrollAction? || action.WaitAction?) && st.Usable() && HonestIo(io)
    ensures Settled(cfg, io, PlainOutcome(cfg, st, action, io))
  {
  }

  lemma ClickedSettled(cfg: Setup, st: State, id: string, io: Io)
    requires HonestIo(io)
    ensures Settled(cfg, io, ClickOutcome(cfg, st, id, io))
  {
    ValidatedFaults(cfg, st, id, Click, io.shot);
    StaysUsable(cfg, st, id, Click, io.shot);
    ClickSettled(cfg, Validated(cfg, st, id, Click, io.shot), id, io);
  }

  lemma WentSettled(cfg: Setup, st: State, id: string, url: string, io: Io)
    requires HonestIo(io)
    ensures Settled(cfg, io, GotoOutcome(cfg, st, id, url, io))
  {
    ValidatedFaults(cfg, st, id, Navigate, io.shot);
    StaysUsable(cfg, st, id, Navigate, io.shot);
    GotoSettled(cfg, Validated(cfg, st, id, Navigate, io.shot), id, url, io);
  }

  lemma FilledSettled(cfg: Setup, st: State, id: string, text: string, io: Io)
    requires HonestIo(io)
    ensures Settled(cfg, io, FillOutcome(cfg, st, id, text, io))
  {
    ValidatedFaults(cfg, st, id, RequestText, io.shot);
    StaysUsable(cfg, st, id, RequestText, io.shot);
    FillSettled(cfg, Validated(cfg, st, id, RequestText, io.shot), id, text, io);
  }

  lemma PerformedSettled(cfg: Setup, st: State, action: Action, io: Io)
    requires HonestIo(io) && st.Usable() && !action.RequestTextAction? && !action.RequestReviewAction?
    ensures Settled(cfg, io, Performed(cfg, st, action, io))
  {
    match action {
      case ClickAction(id) => ClickedSettled(cfg, st, id, io);
      case TypeAction(id, text) => if text.Some? { FilledSettled(cfg, st, id, text.value, io); }
      case NavigateAction(id, url) => WentSettled(cfg, st, id, url, io);
      case ScrollAction(_, _) => PlainSettled(cfg, st, action, io);
      case WaitAction(_) => PlainSettled(cfg, st, action, io);
    }
  }

  lemma ExecutedWhenCounted(cfg: Setup, st: State, action: Action, io: Io)
    requires st.Usable() && !action.RequestTextAction? && !action.RequestReviewAction?
    ensures Executed(cfg, st, action, io) == Performed(cfg, st.(step := st.step + 1), action, io)
  {
    assert Refusal(st, action).None?;
    var performed := Performed(cfg, st.(step := st.step + 1), action, io);
    assert Executed(cfg, st, action, io) == performed;
  }

  /**
   `execute`: a session that is not usable and a pause for a human are refused and nothing changes;
   otherwise the step is counted and the call settles.
   */
  lemma ExecutedSettled(cfg: Setup, st: State, action: Action, io: Io)
    requires HonestIo(io)
    ensures
      var r := Executed(cfg, st, action, io);
      if !st.started || st.closed then r == Outcome(st, Some(BrowserFault(Unusable)), [])
      else if action.RequestTextAction? || action.RequestReviewAction? then
        r == Outcome(st, Some(BrowserFault(NeedsReview)), [])
      else Settled(cfg, io, r)
  {
    if st.Usable() && !action.RequestTextAction? && !action.RequestReviewAction? {
      ExecutedWhenCounted(cfg, st, action, io);
      PerformedSettled(cfg, st.(step := st.step + 1), action, io);
    }
  }

  lemma TypedIsFilling(cfg: Setup, st: State, id: string, text: string, io: Io)
    ensures Typed(cfg, st, id, text, io) ==
            if st.Usable() then FillOutcome(cfg, st.(step := st.step + 1), id, text, io)
            else Outcome(st, Some(BrowserFault(Unusable)), [])
  {
    if st.Usable() {
      var filled := FillOutcome(cfg, st.(step := st.step + 1), id, text, io);
      assert Typed(cfg, st, id, text, io) == filled;
    }
  }

  /** `type_text`: the same. */
  lemma TypedSettled(cfg: Setup, st: State, id: string, text: string, io: Io)
    requires HonestIo(io)
    ensures
      var r := Typed(cfg, st, id, text, io);
      if !st.started || st.closed then r == Outcome(st, Some(BrowserFault(Unusable)), []) else Settled(cfg, io, r)
  {
    TypedIsFilling(cfg, st, id, text, io);
    FilledSettled(cfg, st.(step := st.step + 1), id, text, io);
  }

  // ---- Nothing secret is typed into ---------------------------------------------------------------

  /** Neither a password or file input, nor one to be completed with a card, a code or a password. */
  predicate TakesNoSecret(lib: Library, d: Data) {
    && lib.Normal(d.inputType) !in {"password", "file"}
    && lib.Normal(d.autocomplete) !in
       {"one-time-code", "one-time-code-paragraph", "current-password", "new-password"}
    && !("cc-" <= lib.Normal(d.autocomplete))
  }

  /** Each filling is at a place of the page shown whose element takes no secret. */
  ghost predicate NoSecrets(cfg: Setup, shot: Shot, acts: seq<Act>) {
    forall i :: 0 <= i < |acts| && acts[i].Filled? ==> NoSecretAt(cfg, shot, acts[i])
  }

  ghost predicate NoSecretAt(cfg: Setup, shot: Shot, act: Act)
    requires act.Filled?
  {
    shot == Loaded(act.page) && exists d :: At(act.page.groups, (act.at, d)) && TakesNoSecret(cfg.lib, d)
  }

  lemma FillTakesNoSecret(cfg: Setup, st: State, id: string, text: string, io: Io)
    ensures NoSecrets(cfg, io.shot, FillOutcome(cfg, st, id, text, io).acts)
  {
    var v, acts := Validated(cfg, st, id, RequestText, io.shot), FillOutcome(cfg, st, id, text, io).acts;
    forall i | 0 <= i < |acts| && acts[i].Filled?
      ensures NoSecretAt(cfg, io.shot, acts[i])
    {
      var found := Extracted(io.shot.page.groups);
      var place := Place(v.st, id).value;
      ExtractionSound(io.shot.page.groups);
      assert v.st.raws == Elements(found) && v.st.locations == Locators(found);
      assert At(io.shot.page.groups, (found[place].0, found[place].1)) by {
        assert found[place] in found;
      }
      assert TakesNoSecret(cfg.lib, found[place].1);
    }
  }

  /** Whatever is typed, by either call, goes into an element that takes no secret. */
  lemma NothingSecretTyped(cfg: Setup, st: State, action: Action, id: string, text: string, io: Io)
    ensures NoSecrets(cfg, io.shot, Executed(cfg, st, action, io).acts)
    ensures NoSecrets(cfg, io.shot, Typed(cfg, st, id, text, io).acts)
  {
    var st1 := st.(step := st.step + 1);
    TypedWhenCounted(cfg, st, id, text, io);
    FillTakesNoSecret(cfg, st1, id, text, io);
    ExecutedRegular(cfg, st, action, io);
    if action.TypeAction? && action.text.Some? {
      TypeCounted(cfg, st, action.id, action.text, io);
      FillTakesNoSecret(cfg, st1, action.id, action.text.value, io);
    }
  }

  // ---- Starting ---------------------------------------------------------------------------------------

  /**
   A fresh session has started exactly when the browser was launched, the initial page opened and stayed
   on its origin, and was observed; every failure after the launch closes it.
   */
  lemma StartedExact(cfg: Setup, st: State, launch: Option<Fault>, io: Io)
    requires !st.started && !st.closed
    ensures
      var r := Started(cfg, st, launch, io);
      && r.acts == []
      && (launch.Some? ==> r.fault == launch && r.st == st)
      && (launch.None? && r.fault.Some? ==> r.st.closed && !r.st.started && r.st.observation.None?)
      && (r.fault.None? <==>
            && launch.None? && io.acted && !Astray(cfg, io.landed)
            && io.after.Loaded? && ObservedOn(cfg, io.after.page).Success?)
      && (r.fault.None? ==> r.st.Usable() && Observes(cfg, io.after, r.st))
  {
  }

  /** A session is started at most once, and a closed one stays closed. */
  lemma StartedOnce(cfg: Setup, st: State, launch: Option<Fault>, io: Io)
    ensures st.started ==> Started(cfg, st, launch, io) == Outcome(st, Some(BrowserFault(AlreadyStarted)), [])
    ensures st.closed ==> Started(cfg, st, launch, io).fault.Some? && !Started(cfg, st, launch, io).st.Usable()
  {
  }
}
