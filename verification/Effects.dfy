/** When a call of the executor acts on an element, where, and with what: said by its guards. */
module Effects {
  import opened Wrappers
  import opened Models
  import opened Executor

  predicate OnElement(act: Act) {
    act.Clicked? || act.Filled?
  }

  /** The effect is what the action asks for. */
  predicate Asked(action: Action, act: Act) {
    match action
    case ClickAction(id) => act.Clicked? && act.id == id
    case TypeAction(id, text) => act.Filled? && act.id == id && text == Some(act.text)
    case NavigateAction(id, url) => act.WentTo? && act.id == id && act.url == url
    case ScrollAction(down, amount) => act.Scrolled? && ScrollsBy(down, amount, act.delta)
    case WaitAction(seconds) => act.Waited? && WaitsFor(seconds, act.seconds)
    case _ => false
  }

  // ---- The guards -------------------------------------------------------------------------

  /** The page shown at the beginning of the call confirms the candidate, and its element has a place. */
  predicate Confirms(cfg: Setup, st: State, id: string, kind: ActionKind, shot: Shot) {
    var v := Validated(cfg, st, id, kind, shot);
    v.fault.None? && Place(v.st, id).Some?
  }

  /** That element takes no secret. */
  predicate TakesText(cfg: Setup, st: State, id: string, shot: Shot)
    requires Confirms(cfg, st, id, RequestText, shot)
  {
    var v := Validated(cfg, st, id, RequestText, shot);
    !SensitiveElement(cfg.lib, v.st.raws[Place(v.st, id).value])
  }

  predicate FillReaches(cfg: Setup, st: State, id: string, shot: Shot) {
    Confirms(cfg, st, id, RequestText, shot) && TakesText(cfg, st, id, shot)
  }

  /** What `execute` checks before it acts on an element. */
  predicate ExecuteReaches(cfg: Setup, st: State, action: Action, shot: Shot) {
    && st.Usable()
    && match action
       case ClickAction(id) => Confirms(cfg, st.(step := st.step + 1), id, Click, shot)
       case TypeAction(id, text) => text.Some? && FillReaches(cfg, st.(step := st.step + 1), id, shot)
       case _ => false
  }

  /** What `type_text` checks before it fills. */
  predicate TypeReaches(cfg: Setup, st: State, id: string, shot: Shot) {
    st.Usable() && FillReaches(cfg, st.(step := st.step + 1), id, shot)
  }

  // ---- One call ---------------------------------------------------------------------------

  predicate Touches(acts: seq<Act>) {
    exists i :: 0 <= i < |acts| && OnElement(acts[i])
  }

  /**
   At most one effect, of the kind asked for; on an element exactly when the guards hold, and
   then on the page that the call was shown.
   */
  predicate Regular(action: Action, shot: Shot, reaches: bool, acts: seq<Act>) {
    && |acts| <= 1
    && (forall i :: 0 <= i < |acts| ==> Asked(action, acts[i]))
    && (forall i :: 0 <= i < |acts| && OnElement(acts[i]) ==> shot == Loaded(acts[i].page))
    && (Touches(acts) <==> reaches)
  }

  /** The outcome of validation that an action goes on with. */
  predicate Validates(v: Outcome, shot: Shot) {
    v.acts == [] && (v.fault.None? ==> v.st.observation.Some? && shot.Loaded?)
  }

  lemma ClickRegular(cfg: Setup, v: Outcome, id: string, io: Io)
    requires Validates(v, io.shot)
    ensures Regular(ClickAction(id), io.shot, v.fault.None? && Place(v.st, id).Some?, ClickAfter(cfg, v, id, io).acts)
  {
    var acts := ClickAfter(cfg, v, id, io).acts;
    if v.fault.None? && Place(v.st, id).Some? { assert OnElement(acts[0]); }
  }

  lemma FillRegular(cfg: Setup, v: Outcome, id: string, text: string, io: Io)
    requires Validates(v, io.shot)
    ensures
      var place := Place(v.st, id);
      Regular(TypeAction(id, Some(text)), io.shot,
              v.fault.None? && place.Some? && !SensitiveElement(cfg.lib, v.st.raws[place.value]),
              FillAfter(cfg, v, id, text, io).acts)
  {
    var acts, place := FillAfter(cfg, v, id, text, io).acts, Place(v.st, id);
    if v.fault.None? && place.Some? && !SensitiveElement(cfg.lib, v.st.raws[place.value]) { assert OnElement(acts[0]); }
  }

  lemma GotoRegular(cfg: Setup, v: Outcome, id: string, url: string, io: Io)
    requires Validates(v, io.shot)
    ensures Regular(NavigateAction(id, url), io.shot, false, GotoAfter(cfg, v, id, url, io).acts)
  {
  }

  lemma FilledRegular(cfg: Setup, st: State, id: string, text: string, io: Io)
    ensures Regular(TypeAction(id, Some(text)), io.shot, FillReaches(cfg, st, id, io.shot),
                    FillOutcome(cfg, st, id, text, io).acts)
  {
    FillRegular(cfg, Validated(cfg, st, id, RequestText, io.shot), id, text, io);
  }

  lemma NothingRegular(action: Action, shot: Shot)
    ensures Regular(action, shot, false, [])
  {
  }

  lemma PlainRegular(cfg: Setup, st: State, action: Action, io: Io)
    requires !action.ClickAction? && !action.TypeAction? && !action.NavigateAction?
    ensures Regular(action, io.shot, false, Executed(cfg, st, action, io).acts)
  {
  }

  /** `execute` acts on an element exactly when its guards hold, as asked, on the page it was shown. */
  lemma ExecutedRegular(cfg: Setup, st: State, action: Action, io: Io)
    ensures Regular(action, io.shot, ExecuteReaches(cfg, st, action, io.shot), Executed(cfg, st, action, io).acts)
  {
    var st1 := st.(step := st.step + 1);
    NothingRegular(action, io.shot);
    match action {
      case ClickAction(id) =>
        ClickCounted(cfg, st, id, io);
        ClickRegular(cfg, Validated(cfg, st1, id, Click, io.shot), id, io);
      case TypeAction(id, text) =>
        TypeCounted(cfg, st, id, text, io);
        if text.Some? { FilledRegular(cfg, st1, id, text.value, io); }
      case NavigateAction(id, url) =>
        GotoCounted(cfg, st, id, url, io);
        GotoRegular(cfg, Validated(cfg, st1, id, Navigate, io.shot), id, url, io);
      case _ => PlainRegular(cfg, st, action, io);
    }
  }

  /** `type_text` fills exactly when its guards hold: this text, on the page it was shown. */
  lemma TypedRegular(cfg: Setup, st: State, id: string, text: string, io: Io)
    ensures Regular(TypeAction(id, Some(text)), io.shot, TypeReaches(cfg, st, id, io.shot),
                    Typed(cfg, st, id, text, io).acts)
  {
    TypedWhenCounted(cfg, st, id, text, io);
    FilledRegular(cfg, st.(step := st.step + 1), id, text, io);
    NothingRegular(TypeAction(id, Some(text)), io.shot);
  }

  // ---- The origin of a call ----------------------------------------------------------------

  predicate AllAllowed(cfg: Setup, acts: seq<Act>) {
    forall i :: 0 <= i < |acts| && OnElement(acts[i]) ==> AllowedOrigin(cfg, acts[i].page.url)
  }

  predicate ShownAllowed(cfg: Setup, shot: Shot) {
    shot.Loaded? && AllowedOrigin(cfg, shot.page.url)
  }

  /**
   The origin is checked after acting and not before. So a call keeps to allowed origins exactly
   when the page it is shown is on one, or its guards stop it.
   */
  lemma CallAllowed(cfg: Setup, action: Action, shot: Shot, reaches: bool, acts: seq<Act>)
    requires Regular(action, shot, reaches, acts)
    ensures AllAllowed(cfg, acts) <==> (reaches ==> ShownAllowed(cfg, shot))
  {
    if reaches {
      var i :| 0 <= i < |acts| && OnElement(acts[i]);
      assert shot == Loaded(acts[i].page);
    }
  }

  lemma ExecutedAllowed(cfg: Setup, st: State, action: Action, io: Io)
    ensures AllAllowed(cfg, Executed(cfg, st, action, io).acts) <==>
            (ExecuteReaches(cfg, st, action, io.shot) ==> ShownAllowed(cfg, io.shot))
  {
    ExecutedRegular(cfg, st, action, io);
    CallAllowed(cfg, action, io.shot, ExecuteReaches(cfg, st, action, io.shot), Executed(cfg, st, action, io).acts);
  }

  lemma TypedAllowed(cfg: Setup, st: State, id: string, text: string, io: Io)
    ensures AllAllowed(cfg, Typed(cfg, st, id, text, io).acts) <==>
            (TypeReaches(cfg, st, id, io.shot) ==> ShownAllowed(cfg, io.shot))
  {
    TypedRegular(cfg, st, id, text, io);
    CallAllowed(cfg, TypeAction(id, Some(text)), io.shot, TypeReaches(cfg, st, id, io.shot),
                Typed(cfg, st, id, text, io).acts);
  }
}
