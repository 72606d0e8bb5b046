/** Over every run: where elements are acted on, and what is typed into them. */
module RunEffects {
  import opened Wrappers
  import opened Models
  import opened Observation
  import opened Protocol
  import opened ProtocolRuns
  import opened Effects
  import E = Executor

  // ---- What one step adds -----------------------------------------------------------------

  /** The action that a call of the run thread stands for. */
  function ActionOf(pc: Pc): E.Action
    requires pc.Acting? || pc.Typing?
  {
    if pc.Acting? then pc.action else E.TypeAction(pc.chosen.id, Some(pc.text))
  }

  function ActsOf(cfg: Config, s: State, i: Input): seq<E.Act>
    requires s.pc.Acting? || s.pc.Typing?
  {
    if s.pc.Acting? then E.Executed(cfg.setup, s.exec, s.pc.action, i.io).acts
    else E.Typed(cfg.setup, s.exec, s.pc.chosen.id, s.pc.text, i.io).acts
  }

  /** Before the event: it makes the run act on an element. */
  predicate Reaches(cfg: Config, s: State, e: Event) {
    && e.Thread?
    && match s.pc
       case Acting(_, _, action) => ExecuteReaches(cfg.setup, s.exec, action, e.input.io.shot)
       case Typing(_, c, _) => TypeReaches(cfg.setup, s.exec, c.id, e.input.io.shot)
       case _ => false
  }

  lemma ActAdds(cfg: Config, s: State, i: Input)
    requires s.pc.Acting?
    ensures Advance(cfg, s, i).trace.deeds == s.trace.deeds + Deeds(s.pc.obs, s.pc.chosen, ActsOf(cfg, s, i))
  {
  }

  lemma TypeStepAdds(s: State, obs: RuntimeObservation, c: Candidate, text: string, r: E.Outcome)
    ensures TypeStep(s, obs, c, text, r).trace.deeds == s.trace.deeds + Deeds(obs, c, r.acts)
  {
  }

  lemma TypeAdds(cfg: Config, s: State, i: Input)
    requires s.pc.Typing?
    ensures Advance(cfg, s, i).trace.deeds == s.trace.deeds + Deeds(s.pc.obs, s.pc.chosen, ActsOf(cfg, s, i))
  {
    var obs, c, text := s.pc.obs, s.pc.chosen, s.pc.text;
    var r := E.Typed(cfg.setup, s.exec, c.id, text, i.io);
    TypeStepAdds(s, obs, c, text, r);
    assert Advance(cfg, s, i).trace.deeds == TypeStep(s, obs, c, text, r).trace.deeds;
  }

  lemma CallAdds(cfg: Config, s: State, i: Input)
    requires s.pc.Acting? || s.pc.Typing?
    ensures Advance(cfg, s, i).trace.deeds == s.trace.deeds + Deeds(s.pc.obs, s.pc.chosen, ActsOf(cfg, s, i))
  {
    if s.pc.Acting? {
      ActAdds(cfg, s, i);
    } else {
      TypeAdds(cfg, s, i);
    }
  }

  lemma CallRegular(cfg: Config, s: State, i: Input)
    requires s.pc.Acting? || s.pc.Typing?
    ensures Regular(ActionOf(s.pc), i.io.shot, Reaches(cfg, s, Thread(i)), ActsOf(cfg, s, i))
  {
    if s.pc.Acting? {
      ExecutedRegular(cfg.setup, s.exec, s.pc.action, i.io);
    } else {
      TypedRegular(cfg.setup, s.exec, s.pc.chosen.id, s.pc.text, i.io);
    }
  }

  /** Nothing but a call of the executor touches the page. */
  lemma OnlyCallsAdd(cfg: Config, s: State, e: Event)
    requires !e.Thread? || (!s.pc.Acting? && !s.pc.Typing?)
    ensures Step(cfg, s, e).trace.deeds == s.trace.deeds && !Reaches(cfg, s, e)
  {
    if e.Thread? { DeedsOnlyByCalls(cfg, s, e.input); }
  }

  /** Between these deeds and those an element was clicked or filled. */
  predicate Touched(before: seq<Deed>, after: seq<Deed>) {
    exists i :: |before| <= i < |after| && OnElement(after[i].act)
  }

  lemma DeedsTouch(before: seq<Deed>, obs: RuntimeObservation, c: Candidate, acts: seq<E.Act>)
    ensures Touched(before, before + Deeds(obs, c, acts)) <==> Touches(acts)
  {
    var after := before + Deeds(obs, c, acts);
    if Touches(acts) {
      var i :| 0 <= i < |acts| && OnElement(acts[i]);
      assert after[|before| + i].act == acts[i];
    }
    if Touched(before, after) {
      var i :| |before| <= i < |after| && OnElement(after[i].act);
      assert after[i].act == acts[i - |before|];
    }
  }

  /** The guards are exact: an event leads to an effect on an element if and only if it reaches one. */
  lemma StepReaches(cfg: Config, s: State, e: Event)
    ensures Touched(s.trace.deeds, Step(cfg, s, e).trace.deeds) <==> Reaches(cfg, s, e)
  {
    if e.Thread? && (s.pc.Acting? || s.pc.Typing?) {
      CallAdds(cfg, s, e.input);
      CallRegular(cfg, s, e.input);
      DeedsTouch(s.trace.deeds, s.pc.obs, s.pc.chosen, ActsOf(cfg, s, e.input));
    } else {
      OnlyCallsAdd(cfg, s, e);
    }
  }

  // ---- On allowed origins -------------------------------------------------------------------

  predicate OnAllowed(cfg: Config, d: Deed) {
    OnElement(d.act) ==> E.AllowedOrigin(cfg.setup, d.act.page.url)
  }

  predicate AllOnAllowed(cfg: Config, deeds: seq<Deed>) {
    forall i :: 0 <= i < |deeds| ==> OnAllowed(cfg, deeds[i])
  }

  /** Whenever an event of the run reaches an element, the page it is shown is on an allowed origin. */
  predicate AlwaysAllowed(cfg: Config, s: State, events: seq<Event>)
    decreases |events|
  {
    events == [] ||
    ((Reaches(cfg, s, events[0]) ==> ShownAllowed(cfg.setup, events[0].input.io.shot)) &&
     AlwaysAllowed(cfg, Step(cfg, s, events[0]), events[1..]))
  }

  lemma DeedsAllowed(cfg: Config, before: seq<Deed>, obs: RuntimeObservation, c: Candidate, acts: seq<E.Act>)
    ensures AllOnAllowed(cfg, before + Deeds(obs, c, acts)) <==>
            AllOnAllowed(cfg, before) && AllAllowed(cfg.setup, acts)
  {
    var after := before + Deeds(obs, c, acts);
    assert forall i :: 0 <= i < |before| ==> after[i] == before[i];
    assert forall i :: 0 <= i < |acts| ==> after[|before| + i].act == acts[i];
    if AllOnAllowed(cfg, after) {
      forall i | 0 <= i < |acts| && OnElement(acts[i])
        ensures E.AllowedOrigin(cfg.setup, acts[i].page.url)
      {
        assert OnAllowed(cfg, after[|before| + i]);
      }
    }
    if AllOnAllowed(cfg, before) && AllAllowed(cfg.setup, acts) {
      forall i | 0 <= i < |after|
        ensures OnAllowed(cfg, after[i])
      {
        if i < |before| { assert OnAllowed(cfg, before[i]); }
      }
    }
  }

  lemma StepAllowed(cfg: Config, s: State, e: Event)
    ensures AllOnAllowed(cfg, Step(cfg, s, e).trace.deeds) <==>
            AllOnAllowed(cfg, s.trace.deeds) && (Reaches(cfg, s, e) ==> ShownAllowed(cfg.setup, e.input.io.shot))
  {
    if e.Thread? && (s.pc.Acting? || s.pc.Typing?) {
      var acts := ActsOf(cfg, s, e.input);
      CallAdds(cfg, s, e.input);
      CallRegular(cfg, s, e.input);
      CallAllowed(cfg.setup, ActionOf(s.pc), e.input.io.shot, Reaches(cfg, s, e), acts);
      DeedsAllowed(cfg, s.trace.deeds, s.pc.obs, s.pc.chosen, acts);
    } else {
      OnlyCallsAdd(cfg, s, e);
    }
  }

  lemma {:induction false} RunAllowed(cfg: Config, s: State, events: seq<Event>)
    ensures AllOnAllowed(cfg, Run(cfg, s, events).trace.deeds) <==>
            AllOnAllowed(cfg, s.trace.deeds) && AlwaysAllowed(cfg, s, events)
    decreases |events|
  {
    if events != [] {
      StepAllowed(cfg, s, events[0]);
      RunAllowed(cfg, Step(cfg, s, events[0]), events[1..]);
    }
  }

  /**
   The origin is enforced after clicks and navigations, not before acting. So a run clicks and
   fills only on allowed origins if and only if the page is on one whenever the checks made
   before acting let an action or a text through.
   */
  lemma OriginsExact(cfg: Config, events: seq<Event>)
    ensures AllOnAllowed(cfg, After(cfg, events).trace.deeds) <==> AlwaysAllowed(cfg, INITIAL, events)
  {
    RunAllowed(cfg, INITIAL, events);
  }

  // ---- Nothing but replies is typed -----------------------------------------------------------

  /** a is b with some entries left out. */
  predicate Part<T(==)>(a: seq<T>, b: seq<T>)
    decreases |b|
  {
    if a == [] then true
    else if b == [] then false
    else (a[|a| - 1] == b[|b| - 1] && Part(a[..|a| - 1], b[..|b| - 1])) || Part(a, b[..|b| - 1])
  }

  lemma PartGrows<T>(a: seq<T>, b: seq<T>, x: T)
    requires Part(a, b)
    ensures Part(a, b + [x]) && Part(a + [x], b + [x])
  {
    assert (b + [x])[..|b|] == b && (a + [x])[..|a|] == a;
  }

  lemma {:induction false} PartMembers<T>(a: seq<T>, b: seq<T>)
    requires Part(a, b)
    ensures forall x | x in a :: x in b
    decreases |b|
  {
    if a != [] {
      assert a == a[..|a| - 1] + [a[|a| - 1]] && b == b[..|b| - 1] + [b[|b| - 1]];
      if a[|a| - 1] == b[|b| - 1] && Part(a[..|a| - 1], b[..|b| - 1]) {
        PartMembers(a[..|a| - 1], b[..|b| - 1]);
      } else {
        PartMembers(a, b[..|b| - 1]);
      }
    }
  }

  /** The texts filled in, each with its candidate. */
  function FilledOf(deeds: seq<Deed>): seq<(string, string)> {
    if deeds == [] then []
    else
      var init, act := FilledOf(deeds[..|deeds| - 1]), deeds[|deeds| - 1].act;
      if act.Filled? then init + [(act.id, act.text)] else init
  }

  lemma FilledByCall(before: seq<Deed>, obs: RuntimeObservation, c: Candidate, acts: seq<E.Act>)
    requires |acts| <= 1
    ensures FilledOf(before + Deeds(obs, c, acts)) ==
            if acts != [] && acts[0].Filled? then FilledOf(before) + [(acts[0].id, acts[0].text)] else FilledOf(before)
  {
    var after := before + Deeds(obs, c, acts);
    if acts == [] {
      assert after == before;
    } else {
      assert after[..|before|] == before && after[|before|].act == acts[0];
    }
  }

  lemma OtherActionFills(
    before: seq<Deed>, obs: RuntimeObservation, c: Candidate, action: E.Action, shot: E.Shot, reaches: bool,
    acts: seq<E.Act>)
    requires Regular(action, shot, reaches, acts) && !action.TypeAction?
    ensures FilledOf(before + Deeds(obs, c, acts)) == FilledOf(before)
  {
    FilledByCall(before, obs, c, acts);
  }

  lemma TypingFills(
    before: seq<Deed>, typed: seq<(string, string)>, obs: RuntimeObservation, c: Candidate, text: string,
    shot: E.Shot, reaches: bool, acts: seq<E.Act>)
    requires Regular(E.TypeAction(c.id, Some(text)), shot, reaches, acts) && Part(FilledOf(before), typed)
    ensures Part(FilledOf(before + Deeds(obs, c, acts)), typed + [(c.id, text)])
  {
    FilledByCall(before, obs, c, acts);
    PartGrows(FilledOf(before), typed, (c.id, text));
  }

  lemma StepFills(cfg: Config, s: State, e: Event)
    requires Inv(cfg, s) && Part(FilledOf(s.trace.deeds), s.trace.typed)
    ensures var s' := Step(cfg, s, e); Part(FilledOf(s'.trace.deeds), s'.trace.typed)
  {
    if e.Thread? && (s.pc.Acting? || s.pc.Typing?) {
      CallFills(cfg, s, e.input);
    } else {
      OnlyCallsAdd(cfg, s, e);
      TypedOnlyByCalls(cfg, s, e);
    }
  }

  lemma CallFills(cfg: Config, s: State, i: Input)
    requires Inv(cfg, s) && Part(FilledOf(s.trace.deeds), s.trace.typed) && (s.pc.Acting? || s.pc.Typing?)
    ensures var s' := Advance(cfg, s, i); Part(FilledOf(s'.trace.deeds), s'.trace.typed)
  {
    var acts, reaches := ActsOf(cfg, s, i), Reaches(cfg, s, Thread(i));
    CallAdds(cfg, s, i);
    CallRegular(cfg, s, i);
    TypedByCall(cfg, s, i);
    if s.pc.Acting? {
      OtherActionFills(s.trace.deeds, s.pc.obs, s.pc.chosen, s.pc.action, i.io.shot, reaches, acts);
    } else {
      TypingFills(s.trace.deeds, s.trace.typed, s.pc.obs, s.pc.chosen, s.pc.text, i.io.shot, reaches, acts);
    }
  }

  lemma TypedByCall(cfg: Config, s: State, i: Input)
    ensures s.pc.Acting? ==> Advance(cfg, s, i).trace.typed == s.trace.typed
    ensures s.pc.Typing? ==> Advance(cfg, s, i).trace.typed == s.trace.typed + [(s.pc.chosen.id, s.pc.text)]
  {
  }

  lemma TypedOnlyByCalls(cfg: Config, s: State, e: Event)
    requires !e.Thread? || (!s.pc.Acting? && !s.pc.Typing?)
    ensures Step(cfg, s, e).trace.typed == s.trace.typed
  {
  }

  lemma {:induction false} RunFills(cfg: Config, s: State, events: seq<Event>)
    requires Inv(cfg, s) && Part(FilledOf(s.trace.deeds), s.trace.typed)
    ensures var s' := Run(cfg, s, events); Part(FilledOf(s'.trace.deeds), s'.trace.typed)
    decreases |events|
  {
    if events != [] {
      StepFills(cfg, s, events[0]);
      StepKeeps(cfg, s, events[0]);
      RunFills(cfg, Step(cfg, s, events[0]), events[1..]);
    }
  }

  /**
   In every run the texts filled into elements are, in order and each at most once, texts of
   accepted replies, each with the candidate of its own request; nothing else is ever typed.
   */
  lemma OnlyRepliesFilled(cfg: Config, events: seq<Event>)
    ensures
      var t := After(cfg, events).trace;
      && Part(FilledOf(t.deeds), t.typed) && t.typed <= t.accepted
      && forall x | x in FilledOf(t.deeds) :: x in t.accepted
  {
    var t := After(cfg, events).trace;
    RunFills(cfg, INITIAL, events);
    RepliesTypedOnce(cfg, events);
    PartMembers(FilledOf(t.deeds), t.typed);
  }
}
