/** The executor: acts on a candidate only after observing the page again. */
module Executor {
  import opened Wrappers
  import opened Models
  import opened Observation
  import opened ObservationIndex
  import opened Extraction

  const MAX_SCROLL_AMOUNT: int := 3000
  const MAX_WAIT_SECONDS: real := 10.0

  datatype BrowserErrorKind =
    | Unusable
    | AlreadyStarted
    | NoObservation
    | Stale
    | NeedsReview
    | DisallowedNavigation
    | SensitiveField
    | ActionFailed
    | LeftOrigin

  /** A BrowserError of the executor's own, or any other exception. */
  datatype Fault = BrowserFault(kind: BrowserErrorKind) | OtherFault

  /** The text of a type action is what its reference resolves to, if anything. */
  datatype Action =
    | ClickAction(id: string)
    | TypeAction(id: string, text: Option<string>)
    | NavigateAction(id: string, url: string)
    | ScrollAction(down: bool, amount: nat)
    | WaitAction(seconds: real)
    | RequestTextAction
    | RequestReviewAction

  /** The observation builder's `build`: URL, title, text and elements to an observation. */
  type ObservationBuild = (string, string, string, seq<RawElement>) -> Result<RuntimeObservation, BuildError>

  /** Fixed for a session. */
  datatype Setup = Setup(lib: Library, build: ObservationBuild, initialUrl: string, allowedOrigins: set<string>)

  /** The session's builder is the one of the observation module. */
  ghost predicate BuildsAs(cfg: Setup, b: Builder) {
    forall url, title, text, elements ::
      cfg.build(url, title, text, elements) == Built(cfg.lib, b, url, title, text, elements)
  }

  /** What the live page gives when it is extracted, or the exception it raises. */
  datatype Shot = Loaded(page: Page) | Broken(fault: Fault)

  /** Everything the page and the browser decide during one call. */
  datatype Io = Io(
    shot: Shot, // the re-observation before acting
    acted: bool, // whether the browser call succeeds
    landed: string, // the page URL afterwards
    after: Shot) // the observation after acting

  /** One effect on the page. Effects on an element carry what was known of it at that moment. */
  datatype Act =
    | Clicked(id: string, at: Locator, page: Page, seen: RuntimeObservation)
    | Filled(id: string, at: Locator, text: string, page: Page, seen: RuntimeObservation)
    | WentTo(id: string, url: string, page: Page, seen: RuntimeObservation)
    | Scrolled(delta: int)
    | Waited(seconds: real)

  /** A session that was closed stays closed, even if it is started again. */
  datatype State = State(
    started: bool, closed: bool, observation: Option<RuntimeObservation>, raws: seq<RawElement>,
    locations: seq<Locator>, step: nat)
  {
    predicate Usable() {
      started && !closed
    }
  }

  /** A call's new state, its fault if it raised, and its effects. */
  datatype Outcome = Outcome(st: State, fault: Option<Fault>, acts: seq<Act>)

  const IDLE := State(false, false, None, [], [], 0)

  // ---- Observing -----------------------------------------------------------------------

  function ObservedOn(cfg: Setup, p: Page): Result<RuntimeObservation, BuildError> {
    cfg.build(p.url, p.title, p.text, Elements(Extracted(p.groups)))
  }

  /** Elements and places are replaced before the observation is built, so a failed build leaves the old one. */
  function Refreshed(cfg: Setup, st: State, shot: Shot): (r: Outcome)
    ensures r.acts == []
    ensures r.fault.None? ==> shot.Loaded? && r.st.observation.Some?
  {
    if !st.Usable() then Outcome(st, Some(BrowserFault(Unusable)), [])
    else match shot
      case Broken(f) => Outcome(st, Some(f), [])
      case Loaded(p) =>
        var found := Extracted(p.groups);
        var st' := st.(raws := Elements(found), locations := Locators(found));
        match ObservedOn(cfg, p)
        case Failure(_) => Outcome(st', Some(OtherFault), [])
        case Success(o) => Outcome(st'.(observation := Some(o)), None, [])
  }

  // ---- Validating a candidate ------------------------------------------------------------

  /** The verdict on a candidate chosen from `previous` and looked up again in `current`. */
  function Verdict(previous: RuntimeObservation, current: RuntimeObservation, id: string, kind: ActionKind)
    : Option<Fault>
  {
    match (FirstWithId(previous.candidates, id), FirstWithId(current.candidates, id))
    case (Some(then_), Some(now)) =>
      if now.fingerprint != then_.fingerprint then Some(BrowserFault(Stale))
      else if now.kind != kind then Some(BrowserFault(Stale))
      else if now.review.Some? then Some(BrowserFault(NeedsReview))
      else if current.RawIndexFor(id).None? then Some(BrowserFault(Stale))
      else None
    case _ => Some(BrowserFault(Stale))
  }

  function Validated(cfg: Setup, st: State, id: string, kind: ActionKind, shot: Shot): (r: Outcome)
    ensures r.acts == []
    ensures r.fault.None? ==> st.observation.Some? && shot.Loaded? && r.st.observation.Some?
  {
    if st.observation.None? then Outcome(st, Some(BrowserFault(NoObservation)), [])
    else
      var r := Refreshed(cfg, st, shot);
      if r.fault.Some? then r
      else r.(fault := Verdict(st.observation.value, r.st.observation.value, id, kind))
  }

  /** The place of a candidate's element, through the index. */
  function Place(st: State, id: string): Option<nat> {
    if st.observation.None? then None
    else match st.observation.value.RawIndexFor(id)
      case None => None
      case Some(i) => if i < |st.raws| && i < |st.locations| then Some(i) else None
  }

  predicate SensitiveElement(lib: Library, e: RawElement) {
    lib.Normal(e.inputType) in {"password", "file"} || SensitiveAutocomplete(lib, e.autocomplete)
  }

  predicate AllowedOrigin(cfg: Setup, url: string) {
    cfg.lib.origin(url).Some? && cfg.lib.origin(cfg.initialUrl).Some? &&
    cfg.lib.origin(url).value in {cfg.lib.origin(cfg.initialUrl).value} + cfg.allowedOrigins
  }

  /** The end of a call whose effects are done: re-observe unless the browser call raised. */
  function Settled(cfg: Setup, st: State, fault: Option<Fault>, acts: seq<Act>, after: Shot): (r: Outcome)
    ensures r.acts == acts && (fault.Some? ==> r.fault == fault)
  {
    if fault.Some? then Outcome(st, fault, acts) else Refreshed(cfg, st, after).(acts := acts)
  }

  function ActionFault(cfg: Setup, io: Io): Option<Fault> {
    if !io.acted then Some(BrowserFault(ActionFailed))
    else if !AllowedOrigin(cfg, io.landed) then Some(BrowserFault(LeftOrigin))
    else None
  }

  /** A click once the candidate has been validated with this outcome. */
  function ClickAfter(cfg: Setup, v: Outcome, id: string, io: Io): Outcome {
    if v.fault.Some? || v.st.observation.None? || !io.shot.Loaded? then v
    else match Place(v.st, id)
      case None => v.(fault := Some(BrowserFault(Stale)))
      case Some(i) =>
        Settled(cfg, v.st, ActionFault(cfg, io),
                [Clicked(id, v.st.locations[i], io.shot.page, v.st.observation.value)], io.after)
  }

  function ClickOutcome(cfg: Setup, st: State, id: string, io: Io): Outcome {
    ClickAfter(cfg, Validated(cfg, st, id, Click, io.shot), id, io)
  }

  function GotoAfter(cfg: Setup, v: Outcome, id: string, url: string, io: Io): Outcome {
    if v.fault.Some? || v.st.observation.None? || !io.shot.Loaded? then v
    else if v.st.observation.value.TargetFor(id) != Some(url) then v.(fault := Some(BrowserFault(DisallowedNavigation)))
    else if !AllowedOrigin(cfg, url) then v.(fault := Some(BrowserFault(DisallowedNavigation)))
    else Settled(cfg, v.st, ActionFault(cfg, io), [WentTo(id, url, io.shot.page, v.st.observation.value)], io.after)
  }

  function GotoOutcome(cfg: Setup, st: State, id: string, url: string, io: Io): Outcome {
    GotoAfter(cfg, Validated(cfg, st, id, Navigate, io.shot), id, url, io)
  }

  function FillAfter(cfg: Setup, v: Outcome, id: string, text: string, io: Io): Outcome {
    if v.fault.Some? || v.st.observation.None? || !io.shot.Loaded? then v
    else match Place(v.st, id)
      case None => v.(fault := Some(BrowserFault(Stale)))
      case Some(i) =>
        if SensitiveElement(cfg.lib, v.st.raws[i]) then v.(fault := Some(BrowserFault(SensitiveField)))
        else
          Settled(cfg, v.st, if io.acted then None else Some(BrowserFault(ActionFailed)),
                  [Filled(id, v.st.locations[i], text, io.shot.page, v.st.observation.value)], io.after)
  }

  function FillOutcome(cfg: Setup, st: State, id: string, text: string, io: Io): Outcome {
    FillAfter(cfg, Validated(cfg, st, id, RequestText, io.shot), id, text, io)
  }

  /** Down is positive, and no way further than 3000. */
  predicate ScrollsBy(down: bool, amount: nat, delta: int) {
    if down then 0 <= delta <= amount && delta <= 3000 && (delta == amount || delta == 3000)
    else -3000 <= delta <= 0 && amount + delta >= 0 && (amount + delta == 0 || delta == -3000)
  }

  /** As long as asked, but no longer than ten seconds. */
  predicate WaitsFor(asked: real, seconds: real) {
    seconds <= asked && seconds <= 10.0 && (seconds == asked || seconds == 10.0)
  }

  /** Scrolling and waiting are bounded and need no candidate. */
  function PlainOutcome(cfg: Setup, st: State, action: Action, io: Io): (r: Outcome)
    requires action.ScrollAction? || action.WaitAction?
    ensures |r.acts| == 1
    ensures match r.acts[0]
            case Scrolled(delta) => action.ScrollAction? && ScrollsBy(action.down, action.amount, delta)
            case Waited(seconds) => action.WaitAction? && WaitsFor(action.seconds, seconds)
            case _ => false
  {
    var raised := if io.acted then None else Some(OtherFault);
    match action
    case ScrollAction(down, amount) =>
      var size := if amount < MAX_SCROLL_AMOUNT then amount else MAX_SCROLL_AMOUNT;
      Settled(cfg, st, raised, [Scrolled(if down then size else -size)], io.after)
    case WaitAction(seconds) =>
      Settled(cfg, st, raised, [Waited(if seconds < MAX_WAIT_SECONDS then seconds else MAX_WAIT_SECONDS)], io.after)
  }

  /** `execute`, once the action is counted as a step. */
  function Performed(cfg: Setup, st: State, action: Action, io: Io): Outcome {
    match action
    case ClickAction(id) => ClickOutcome(cfg, st, id, io)
    case TypeAction(id, text) =>
      if text.None? then Outcome(st, Some(BrowserFault(ActionFailed)), [])
      else FillOutcome(cfg, st, id, text.value, io)
    case NavigateAction(id, url) => GotoOutcome(cfg, st, id, url, io)
    case ScrollAction(_, _) => PlainOutcome(cfg, st, action, io)
    case WaitAction(_) => PlainOutcome(cfg, st, action, io)
    case RequestTextAction => Outcome(st, Some(BrowserFault(NeedsReview)), [])
    case RequestReviewAction => Outcome(st, Some(BrowserFault(NeedsReview)), [])
  }

  /** What is refused before it counts as a step; what pauses for a human is never executed. */
  function Refusal(st: State, action: Action): Option<Fault> {
    if !st.Usable() then Some(BrowserFault(Unusable))
    else if action.RequestTextAction? || action.RequestReviewAction? then Some(BrowserFault(NeedsReview))
    else None
  }

  /** `execute`. */
  function Executed(cfg: Setup, st: State, action: Action, io: Io): Outcome {
    if Refusal(st, action).Some? then Outcome(st, Refusal(st, action), [])
    else Performed(cfg, st.(step := st.step + 1), action, io)
  }

  /** `type_text`. */
  function Typed(cfg: Setup, st: State, id: string, text: string, io: Io): Outcome {
    if !st.Usable() then Outcome(st, Some(BrowserFault(Unusable)), [])
    else FillOutcome(cfg, st.(step := st.step + 1), id, text, io)
  }

  /** `close`; a second time it does nothing. */
  function Closed(st: State): State {
    if st.closed then st else State(false, true, None, [], [], st.step)
  }

  /** `start`: launch, open the initial page, observe it; a failure on the way closes the session. */
  function Started(cfg: Setup, st: State, launch: Option<Fault>, io: Io): Outcome {
    if st.started then Outcome(st, Some(BrowserFault(AlreadyStarted)), [])
    else if launch.Some? then Outcome(st, launch, [])
    else
      var st1 := st.(started := true);
      if !io.acted then Outcome(Closed(st1), Some(OtherFault), [])
      else if !AllowedOrigin(cfg, io.landed) then Outcome(Closed(st1), Some(BrowserFault(LeftOrigin)), [])
      else
        var r := Refreshed(cfg, st1, io.after);
        if r.fault.Some? then r.(st := Closed(r.st)) else r
  }

  /** The executor object; `acts` records its effects on the page. */
  class BrowserExecutor {
    const cfg: Setup
    var started: bool
    var closed: bool
    var observation: Option<RuntimeObservation>
    var raws: seq<RawElement>
    var locations: seq<Locator>
    var step: nat
    ghost var acts: seq<Act>

    ghost function View(): State
      reads this
    {
      State(started, closed, observation, raws, locations, step)
    }

    constructor (cfg: Setup)
      ensures this.cfg == cfg && View() == IDLE && acts == []
    {
      this.cfg := cfg;
      started, closed, observation, raws, locations, step, acts := false, false, None, [], [], 0, [];
    }

    method Start(launch: Option<Fault>, io: Io) returns (fault: Option<Fault>)
      modifies this
      ensures acts == old(acts) && Outcome(View(), fault, []) == Started(cfg, old(View()), launch, io)
    {
      if started { return Some(BrowserFault(AlreadyStarted)); }
      if launch.Some? { return launch; }
      started := true;
      if !io.acted {
        Close();
        return Some(OtherFault);
      }
      if !AllowedOrigin(cfg, io.landed) {
        Close();
        return Some(BrowserFault(LeftOrigin));
      }
      fault := RefreshObservation(io.after);
      if fault.Some? { Close(); }
    }

    method Close()
      modifies this
      ensures acts == old(acts) && View() == Closed(old(View()))
    {
      if closed { return; }
      closed := true;
      started, observation, raws, locations := false, None, [], [];
    }

    method RefreshObservation(shot: Shot) returns (fault: Option<Fault>)
      modifies this
      ensures acts == old(acts) && Outcome(View(), fault, []) == Refreshed(cfg, old(View()), shot)
    {
      if !started || closed { return Some(BrowserFault(Unusable)); }
      match shot {
        case Broken(f) => return Some(f);
        case Loaded(p) =>
          var elements, places := ExtractElements(p.groups);
          raws, locations := elements, places;
          var built := cfg.build(p.url, p.title, p.text, elements);
          if built.Failure? { return Some(OtherFault); }
          observation := Some(built.value);
          fault := None;
      }
    }

    method ValidateCandidate(id: string, kind: ActionKind, shot: Shot) returns (fault: Option<Fault>)
      modifies this
      ensures acts == old(acts) && Outcome(View(), fault, []) == Validated(cfg, old(View()), id, kind, shot)
    {
      if observation.None? { return Some(BrowserFault(NoObservation)); }
      var previous := observation.value;
      fault := RefreshObservation(shot);
      if fault.None? { fault := Verdict(previous, observation.value, id, kind); }
    }

    method RawIndex(id: string) returns (place: Option<nat>)
      ensures place == Place(View(), id)
    {
      if observation.None? { return None; }
      place := observation.value.RawIndexFor(id);
      if place.Some? && (place.value >= |raws| || place.value >= |locations|) { place := None; }
    }

    method Execute(action: Action, io: Io) returns (fault: Option<Fault>)
      modifies this
      ensures acts == old(acts) + Executed(cfg, old(View()), action, io).acts
      ensures Outcome(View(), fault, Executed(cfg, old(View()), action, io).acts) ==
              Executed(cfg, old(View()), action, io)
    {
      if !started || closed { return Some(BrowserFault(Unusable)); }
      if action.RequestTextAction? || action.RequestReviewAction? { return Some(BrowserFault(NeedsReview)); }
      ghost var before := View();
      step := step + 1;
      assert View() == before.(step := before.step + 1);
      fault := Perform(action, io);
    }

    method Perform(action: Action, io: Io) returns (fault: Option<Fault>)
      requires !action.RequestTextAction? && !action.RequestReviewAction?
      modifies this
      ensures acts == old(acts) + Performed(cfg, old(View()), action, io).acts
      ensures Outcome(View(), fault, Performed(cfg, old(View()), action, io).acts) ==
              Performed(cfg, old(View()), action, io)
    {
      match action {
        case ClickAction(id) => fault := ExecuteClick(id, io);
        case TypeAction(id, text) => fault := ExecuteType(id, text, io);
        case NavigateAction(id, url) => fault := ExecuteNavigate(id, url, io);
        case ScrollAction(_, _) => fault := ExecutePlain(action, io);
        case WaitAction(_) => fault := ExecutePlain(action, io);
      }
    }

    method ExecuteType(id: string, text: Option<string>, io: Io) returns (fault: Option<Fault>)
      modifies this
      ensures acts == old(acts) + Performed(cfg, old(View()), TypeAction(id, text), io).acts
      ensures Outcome(View(), fault, Performed(cfg, old(View()), TypeAction(id, text), io).acts) ==
              Performed(cfg, old(View()), TypeAction(id, text), io)
    {
      if text.None? { return Some(BrowserFault(ActionFailed)); }
      fault := PerformType(id, text.value, io);
    }

    method ExecutePlain(action: Action, io: Io) returns (fault: Option<Fault>)
      requires action.ScrollAction? || action.WaitAction?
      modifies this
      ensures acts == old(acts) + PlainOutcome(cfg, old(View()), action, io).acts
      ensures Outcome(View(), fault, PlainOutcome(cfg, old(View()), action, io).acts)
           == PlainOutcome(cfg, old(View()), action, io)
    {
      if action.ScrollAction? {
        var size := if action.amount < MAX_SCROLL_AMOUNT then action.amount else MAX_SCROLL_AMOUNT;
        acts := acts + [Scrolled(if action.down then size else -size)];
      } else {
        acts := acts + [Waited(if action.seconds < MAX_WAIT_SECONDS then action.seconds else MAX_WAIT_SECONDS)];
      }
      if !io.acted { return Some(OtherFault); }
      fault := RefreshObservation(io.after);
    }

    method ExecuteClick(id: string, io: Io) returns (fault: Option<Fault>)
      modifies this
      ensures acts == old(acts) + ClickOutcome(cfg, old(View()), id, io).acts
      ensures Outcome(View(), fault, ClickOutcome(cfg, old(View()), id, io).acts) ==
              ClickOutcome(cfg, old(View()), id, io)
    {
      fault := ValidateCandidate(id, Click, io.shot);
      if fault.Some? { return; }
      var place := RawIndex(id);
      if place.None? { return Some(BrowserFault(Stale)); }
      acts := acts + [Clicked(id, locations[place.value], io.shot.page, observation.value)];
      if !io.acted { return Some(BrowserFault(ActionFailed)); }
      if !AllowedOrigin(cfg, io.landed) { return Some(BrowserFault(LeftOrigin)); }
      fault := RefreshObservation(io.after);
    }

    method ExecuteNavigate(id: string, url: string, io: Io) returns (fault: Option<Fault>)
      modifies this
      ensures acts == old(acts) + GotoOutcome(cfg, old(View()), id, url, io).acts
      ensures Outcome(View(), fault, GotoOutcome(cfg, old(View()), id, url, io).acts)
           == GotoOutcome(cfg, old(View()), id, url, io)
    {
      fault := ValidateCandidate(id, Navigate, io.shot);
      if fault.Some? { return; }
      if observation.value.TargetFor(id) != Some(url) { return Some(BrowserFault(DisallowedNavigation)); }
      if !AllowedOrigin(cfg, url) { return Some(BrowserFault(DisallowedNavigation)); }
      acts := acts + [WentTo(id, url, io.shot.page, observation.value)];
      if !io.acted { return Some(BrowserFault(ActionFailed)); }
      if !AllowedOrigin(cfg, io.landed) { return Some(BrowserFault(LeftOrigin)); }
      fault := RefreshObservation(io.after);
    }

    method TypeText(id: string, text: string, io: Io) returns (fault: Option<Fault>)
      modifies this
      ensures acts == old(acts) + Typed(cfg, old(View()), id, text, io).acts
      ensures Outcome(View(), fault, Typed(cfg, old(View()), id, text, io).acts) ==
              Typed(cfg, old(View()), id, text, io)
    {
      if !started || closed { return Some(BrowserFault(Unusable)); }
      ghost var before := View();
      step := step + 1;
      assert View() == before.(step := before.step + 1);
      assert Typed(cfg, before, id, text, io) == FillOutcome(cfg, View(), id, text, io);
      fault := PerformType(id, text, io);
    }

    method PerformType(id: string, text: string, io: Io) returns (fault: Option<Fault>)
      modifies this
      ensures acts == old(acts) + FillOutcome(cfg, old(View()), id, text, io).acts
      ensures Outcome(View(), fault, FillOutcome(cfg, old(View()), id, text, io).acts)
           == FillOutcome(cfg, old(View()), id, text, io)
    {
      fault := ValidateCandidate(id, RequestText, io.shot);
      if fault.Some? { return; }
      var place := RawIndex(id);
      if place.None? { return Some(BrowserFault(Stale)); }
      if SensitiveElement(cfg.lib, raws[place.value]) { return Some(BrowserFault(SensitiveField)); }
      acts := acts + [Filled(id, locations[place.value], text, io.shot.page, observation.value)];
      if !io.acted { return Some(BrowserFault(ActionFailed)); }
      fault := RefreshObservation(io.after);
    }
  }

  // ---- What an effect on an element is known to be ------------------------------------------

  /** The candidate was made from this element, which is harmless unless the candidate is review-gated. */
  predicate Stands(lib: Library, e: RawElement, c: Candidate) {
    Behind(lib, e, c.fingerprint) && (c.review.None? ==> Harmless(lib, e, c.kind))
  }

  /** At this place of the page is the element that the candidate stands for. */
  ghost predicate Located(lib: Library, page: Page, at: Locator, c: Candidate) {
    exists d, i :: At(page.groups, (at, d)) && Stands(lib, ElementOf(d, i), c)
  }

  /**
   A candidate acted on: in the observation it was chosen from and in the one taken just before
   acting it has the same id and fingerprint; there it has the expected kind and is not review-gated.
   */
  ghost predicate Confirmed(previous: RuntimeObservation, now: RuntimeObservation, id: string, kind: ActionKind) {
    match (FirstWithId(previous.candidates, id), FirstWithId(now.candidates, id))
    case (Some(c), Some(d)) => c.fingerprint == d.fingerprint && d.kind == kind && d.review.None?
    case _ => false
  }

  ghost predicate Trusted(cfg: Setup, previous: RuntimeObservation, act: Act) {
    match act
    case Clicked(id, at, page, seen) =>
      && ObservedOn(cfg, page) == Success(seen) && Confirmed(previous, seen, id, Click)
      && Located(cfg.lib, page, at, FirstWithId(seen.candidates, id).value)
    case Filled(id, at, _, page, seen) =>
      && ObservedOn(cfg, page) == Success(seen) && Confirmed(previous, seen, id, RequestText)
      && Located(cfg.lib, page, at, FirstWithId(seen.candidates, id).value)
    case WentTo(id, url, page, seen) =>
      && ObservedOn(cfg, page) == Success(seen) && Confirmed(previous, seen, id, Navigate)
      && seen.TargetFor(id) == Some(url) && AllowedOrigin(cfg, url)
      && exists at :: Located(cfg.lib, page, at, FirstWithId(seen.candidates, id).value)
    case _ => true
  }

  lemma SightingLocated(lib: Library, p: Page, i: nat, c: Candidate)
    requires i < |Extracted(p.groups)| && Stands(lib, Elements(Extracted(p.groups))[i], c)
    ensures Located(lib, p, Locators(Extracted(p.groups))[i], c)
  {
    var found := Extracted(p.groups);
    ExtractionSound(p.groups);
    assert At(p.groups, (found[i].0, found[i].1));
  }

  lemma CandidateElement(cfg: Setup, b: Builder, p: Page, id: string) returns (c: Candidate, e: RawElement)
    requires BuildsAs(cfg, b) && ObservedOn(cfg, p).Success? && ObservedOn(cfg, p).value.RawIndexFor(id).Some?
    ensures FirstWithId(ObservedOn(cfg, p).value.candidates, id) == Some(c)
    ensures e in Elements(Extracted(p.groups)) && ObservedOn(cfg, p).value.RawIndexFor(id) == Some(e.index)
    ensures Stands(cfg.lib, e, c)
  {
    c, e := IndexedCandidate(cfg.lib, b, p.url, p.title, p.text, Elements(Extracted(p.groups)), id);
    CandidatesSelectable(cfg.lib, b, p.url, p.title, p.text, Elements(Extracted(p.groups)));
    FoundIsUnique(ObservedOn(cfg, p).value.candidates, c);
  }

  /** The observation of a page finds the id at this place, where the candidate's element is. */
  ghost predicate FoundAt(cfg: Setup, p: Page, o: RuntimeObservation, id: string, i: nat) {
    && i < |Extracted(p.groups)| && FirstWithId(o.candidates, id).Some?
    && Located(cfg.lib, p, Extracted(p.groups)[i].0, FirstWithId(o.candidates, id).value)
  }

  /** Whatever id this page's observation indexes is found where its candidate's element is. */
  ghost predicate AgreesOn(cfg: Setup, p: Page, o: RuntimeObservation, id: string) {
    ObservedOn(cfg, p) == Success(o) && o.RawIndexFor(id).Some? ==> FoundAt(cfg, p, o, id, o.RawIndexFor(id).value)
  }

  ghost predicate Agrees(cfg: Setup) {
    forall p, o, id :: AgreesOn(cfg, p, o, id)
  }

  /** Index agreement on every page: the place found through the index is that of the candidate's element. */
  lemma PlaceAgrees(cfg: Setup, b: Builder)
    requires BuildsAs(cfg, b)
    ensures Agrees(cfg)
  {
    forall p, o, id
      ensures AgreesOn(cfg, p, o, id)
    {
      if ObservedOn(cfg, p) == Success(o) && o.RawIndexFor(id).Some? {
        var c, e := CandidateElement(cfg, b, p, id);
        ElementFoundAt(cfg, p, c, e);
      }
    }
  }

  lemma ElementFoundAt(cfg: Setup, p: Page, c: Candidate, e: RawElement)
    requires e in Elements(Extracted(p.groups)) && Stands(cfg.lib, e, c)
    ensures e.index < |Extracted(p.groups)| && Located(cfg.lib, p, Extracted(p.groups)[e.index].0, c)
  {
    var found := Extracted(p.groups);
    var i :| 0 <= i < |found| && Elements(found)[i] == e;
    SightingLocated(cfg.lib, p, i, c);
  }

  /** Validation has just seen this page and confirmed the candidate on it. */
  ghost predicate Vouched(cfg: Setup, previous: RuntimeObservation, st: State, id: string, kind: ActionKind, p: Page) {
    && st.observation.Some? && ObservedOn(cfg, p) == Success(st.observation.value)
    && Confirmed(previous, st.observation.value, id, kind)
    && Place(st, id).Some? && FoundAt(cfg, p, st.observation.value, id, Place(st, id).value)
    && st.locations == Locators(Extracted(p.groups)) && st.raws == Elements(Extracted(p.groups))
  }

  /** A candidate that passes validation is vouched for. */
  lemma ValidatedConfirms(cfg: Setup, st: State, id: string, kind: ActionKind, shot: Shot)
    requires Agrees(cfg) && Validated(cfg, st, id, kind, shot).fault.None?
    ensures Vouched(cfg, st.observation.value, Validated(cfg, st, id, kind, shot).st, id, kind, shot.page)
  {
    VerdictConfirms(st.observation.value, ObservedOn(cfg, shot.page).value, id, kind);
    assert AgreesOn(cfg, shot.page, ObservedOn(cfg, shot.page).value, id);
  }

  lemma VerdictConfirms(previous: RuntimeObservation, current: RuntimeObservation, id: string, kind: ActionKind)
    requires Verdict(previous, current, id, kind).None?
    ensures Confirmed(previous, current, id, kind) && current.RawIndexFor(id).Some?
  {
  }

  /** No effect, or one of this kind that is trusted. */
  ghost predicate AtMostOne(cfg: Setup, previous: Option<RuntimeObservation>, action: Action, acts: seq<Act>) {
    acts == [] || (|acts| == 1 && Answers(cfg, previous, action, acts[0]))
  }

  /** The outcome of validation that the rest of an action goes on with. */
  ghost predicate Settles(
    cfg: Setup, previous: Option<RuntimeObservation>, v: Outcome, id: string, kind: ActionKind, shot: Shot)
  {
    && v.acts == []
    && (v.fault.None? ==>
          shot.Loaded? && previous.Some? && Vouched(cfg, previous.value, v.st, id, kind, shot.page))
  }

  lemma ClickTrusted(cfg: Setup, previous: Option<RuntimeObservation>, v: Outcome, id: string, io: Io)
    requires Settles(cfg, previous, v, id, Click, io.shot)
    ensures AtMostOne(cfg, previous, ClickAction(id), ClickAfter(cfg, v, id, io).acts)
  {
  }

  lemma GotoTrusted(cfg: Setup, previous: Option<RuntimeObservation>, v: Outcome, id: string, url: string, io: Io)
    requires Settles(cfg, previous, v, id, Navigate, io.shot)
    ensures AtMostOne(cfg, previous, NavigateAction(id, url), GotoAfter(cfg, v, id, url, io).acts)
  {
    if v.fault.None? {
      var c := FirstWithId(v.st.observation.value.candidates, id).value;
      assert Located(cfg.lib, io.shot.page, Extracted(io.shot.page.groups)[Place(v.st, id).value].0, c);
    }
  }

  lemma FillTrusted(cfg: Setup, previous: Option<RuntimeObservation>, v: Outcome, id: string, text: string, io: Io)
    requires Settles(cfg, previous, v, id, RequestText, io.shot)
    ensures AtMostOne(cfg, previous, TypeAction(id, Some(text)), FillAfter(cfg, v, id, text, io).acts)
  {
  }

  /** The effect that an action may have, given the observation it was chosen from. */
  ghost predicate Answers(cfg: Setup, previous: Option<RuntimeObservation>, action: Action, act: Act) {
    match action
    case ClickAction(id) =>
      act.Clicked? && act.id == id && previous.Some? && Trusted(cfg, previous.value, act)
    case TypeAction(id, text) =>
      act.Filled? && act.id == id && text == Some(act.text) && previous.Some? && Trusted(cfg, previous.value, act)
    case NavigateAction(id, url) =>
      act.WentTo? && act.id == id && act.url == url && previous.Some? && Trusted(cfg, previous.value, act)
    case ScrollAction(down, amount) => act.Scrolled? && ScrollsBy(down, amount, act.delta)
    case WaitAction(seconds) => act.Waited? && WaitsFor(seconds, act.seconds)
    case _ => false
  }

  lemma ValidatedSettles(cfg: Setup, st: State, id: string, kind: ActionKind, shot: Shot)
    requires Agrees(cfg)
    ensures Settles(cfg, st.observation, Validated(cfg, st, id, kind, shot), id, kind, shot)
  {
    if Validated(cfg, st, id, kind, shot).fault.None? { ValidatedConfirms(cfg, st, id, kind, shot); }
  }

  lemma FilledTrusted(cfg: Setup, st: State, id: string, text: string, io: Io)
    requires Agrees(cfg)
    ensures AtMostOne(cfg, st.observation, TypeAction(id, Some(text)), FillOutcome(cfg, st, id, text, io).acts)
  {
    ValidatedSettles(cfg, st, id, RequestText, io.shot);
    FillTrusted(cfg, st.observation, Validated(cfg, st, id, RequestText, io.shot), id, text, io);
  }

  /**
   Whatever the page does, an executed action has at most one effect, a trusted one of its kind,
   where the builder's index agrees with its pages, as that of `PlaceAgrees` does.
   */
  lemma ExecutedTrusted(cfg: Setup, st: State, action: Action, io: Io)
    requires Agrees(cfg)
    ensures AtMostOne(cfg, st.observation, action, Executed(cfg, st, action, io).acts)
  {
    var st1, acts := st.(step := st.step + 1), Executed(cfg, st, action, io).acts;
    match action {
      case ClickAction(id) =>
        ClickCounted(cfg, st, id, io);
        ClickedTrusted(cfg, st1, id, io);
        TrustedOrNothing(cfg, st.observation, action, ClickOutcome(cfg, st1, id, io).acts, acts);
      case TypeAction(id, text) =>
        TypeCounted(cfg, st, id, text, io);
        if text.Some? {
          FilledTrusted(cfg, st1, id, text.value, io);
          TrustedOrNothing(cfg, st.observation, action, FillOutcome(cfg, st1, id, text.value, io).acts, acts);
        }
      case NavigateAction(id, url) =>
        GotoCounted(cfg, st, id, url, io);
        WentTrusted(cfg, st1, id, url, io);
        TrustedOrNothing(cfg, st.observation, action, GotoOutcome(cfg, st1, id, url, io).acts, acts);
      case _ => RestCounted(cfg, st, action, io);
    }
  }

  lemma ClickedTrusted(cfg: Setup, st: State, id: string, io: Io)
    requires Agrees(cfg)
    ensures AtMostOne(cfg, st.observation, ClickAction(id), ClickOutcome(cfg, st, id, io).acts)
  {
    ValidatedSettles(cfg, st, id, Click, io.shot);
    ClickTrusted(cfg, st.observation, Validated(cfg, st, id, Click, io.shot), id, io);
  }

  lemma WentTrusted(cfg: Setup, st: State, id: string, url: string, io: Io)
    requires Agrees(cfg)
    ensures AtMostOne(cfg, st.observation, NavigateAction(id, url), GotoOutcome(cfg, st, id, url, io).acts)
  {
    ValidatedSettles(cfg, st, id, Navigate, io.shot);
    GotoTrusted(cfg, st.observation, Validated(cfg, st, id, Navigate, io.shot), id, url, io);
  }

  lemma ClickCounted(cfg: Setup, st: State, id: string, io: Io)
    ensures
      Executed(cfg, st, ClickAction(id), io).acts ==
      if st.Usable() then ClickOutcome(cfg, st.(step := st.step + 1), id, io).acts else []
  {
  }

  lemma TypeCounted(cfg: Setup, st: State, id: string, text: Option<string>, io: Io)
    ensures
      Executed(cfg, st, TypeAction(id, text), io).acts ==
      if st.Usable() && text.Some? then FillOutcome(cfg, st.(step := st.step + 1), id, text.value, io).acts else []
  {
  }

  lemma GotoCounted(cfg: Setup, st: State, id: string, url: string, io: Io)
    ensures
      Executed(cfg, st, NavigateAction(id, url), io).acts ==
      if st.Usable() then GotoOutcome(cfg, st.(step := st.step + 1), id, url, io).acts else []
  {
  }

  /** Scrolling and waiting have their bounded effect, and requests for a human none. */
  lemma RestCounted(cfg: Setup, st: State, action: Action, io: Io)
    requires !action.ClickAction? && !action.TypeAction? && !action.NavigateAction?
    ensures AtMostOne(cfg, st.observation, action, Executed(cfg, st, action, io).acts)
  {
  }

  lemma TypedWhenCounted(cfg: Setup, st: State, id: string, text: string, io: Io)
    ensures
      Typed(cfg, st, id, text, io).acts ==
      if st.Usable() then FillOutcome(cfg, st.(step := st.step + 1), id, text, io).acts else []
  {
  }

  lemma TrustedOrNothing(
    cfg: Setup, previous: Option<RuntimeObservation>, action: Action, some: seq<Act>, acts: seq<Act>)
    requires AtMostOne(cfg, previous, action, some) && (acts == [] || acts == some)
    ensures AtMostOne(cfg, previous, action, acts)
  {
  }

  /** Whatever the page does, a typing call fills at most once: this text, in a trusted place. */
  lemma TypedTrusted(cfg: Setup, st: State, id: string, text: string, io: Io)
    requires Agrees(cfg)
    ensures AtMostOne(cfg, st.observation, TypeAction(id, Some(text)), Typed(cfg, st, id, text, io).acts)
  {
    var st1, action := st.(step := st.step + 1), TypeAction(id, Some(text));
    TypedWhenCounted(cfg, st, id, text, io);
    FilledTrusted(cfg, st1, id, text, io);
    TrustedOrNothing(cfg, st.observation, action, FillOutcome(cfg, st1, id, text, io).acts,
                     Typed(cfg, st, id, text, io).acts);
  }
}
