/** Concrete pages on which two plausible properties of browser runs fail. */
module PageCounterexamples {
  import opened Wrappers
  import opened Text
  import opened Models
  import opened Questions
  import opened Validation
  import opened Registry
  import opened Observation
  import opened ObservationIndex
  import opened Extraction
  import opened Selection
  import opened Tournament
  import opened Driver
  import opened Composition
  import P = Protocol
  import ProtocolRuns
  import RunEffects
  import E = Executor

  // ---- A page with one control -------------------------------------------------------------

  const HOME: string := "https://a.test"
  const AWAY: string := "https://b.test"

  /** An absolute http(s) URL that is its own origin. */
  predicate PlainUrl(lib: Library, url: string) {
    lib.strip(url) == url && lib.isHttp(url) && lib.origin(url) == Some(url)
  }

  /** Text with no white space to collapse and nothing that asks for review. */
  predicate PlainText(lib: Library, text: string) {
    && lib.collapse(text) == text && lib.collapse("button: " + text) == "button: " + text
    && |lib.normalize(text)| <= 200 && lib.reviewKinds(lib.normalize(text + " ")) == {}
  }

  /** What Python's functions do on the strings of these pages. Nothing else of them matters. */
  predicate AsInPython(lib: Library) {
    && PlainUrl(lib, HOME) && PlainUrl(lib, AWAY)
    && PlainText(lib, "go") && PlainText(lib, SEP_MARKER)
    && lib.normalize("select") == "select"
  }

  function SimplestLibrary(): Library {
    Library(s => s, s => s, s => s, _ => "", _ => true, (href, _) => href, s => Some(s), _ => [],
            (shape: Shape) => shape.tag, _ => seq(64, _ => '0'), _ => {})
  }

  type PythonLibrary = lib: Library | AsInPython(lib) witness SimplestLibrary()

  function SampleBuilder(): Builder {
    Builder(120, 6000, {})
  }

  function SampleData(text: string): Data {
    Data(Some("select"), None, Some(text), None, None, None, map[], true, false)
  }

  /** One visible select element with this text. */
  function SamplePage(url: string, text: string): Page {
    Page(url, "", "", [[Some(SampleData(text))]])
  }

  function SampleElement(text: string): RawElement {
    ElementOf(SampleData(text), 0)
  }

  function SampleCandidate(lib: Library, text: string): Candidate {
    var e := SampleElement(text);
    CandidateOf(lib, Kept(e, Control, None), CandidateId(0), FingerprintOf(lib, e, FingerprintId(lib.Digested(e), {})),
                false)
  }

  lemma SampleExtracted(url: string, text: string)
    ensures Extracted(SamplePage(url, text).groups) == [(Locator(0, 0), SampleData(text))]
  {
    var groups := SamplePage(url, text).groups;
    var sighting := (Locator(0, 0), SampleData(text));
    assert ScanFrom(groups, 1, 0) == [];
    assert ScanFrom(groups, 0, 1) == [];
    assert ScanFrom(groups, 0, 0) == [sighting] + ScanFrom(groups, 0, 1);
    var scan := [sighting];
    assert Dedup(scan, {}, []) == Dedup(scan[1..], {} + {KeyOf(sighting.1)}, [] + [sighting]);
  }

  lemma SampleElements(url: string, text: string)
    ensures Elements(Extracted(SamplePage(url, text).groups)) == [SampleElement(text)]
    ensures Locators(Extracted(SamplePage(url, text).groups)) == [Locator(0, 0)]
  {
    SampleExtracted(url, text);
  }

  lemma SelectIsControl()
    ensures "select" != "input" && "select" != "textarea" && "select" != "button" && "select" != "submit"
    ensures "select" != ""
  {
    assert |"select"| == 6 && |"input"| == 5 && |"textarea"| == 8 && "select"[0] == 's' && "button"[0] == 'b';
    assert "select"[1] == 'e' && "submit"[1] == 'u';
  }

  lemma SampleKept(lib: Library, text: string, base: string, allowed: set<string>)
    requires lib.normalize("select") == "select" && text != ""
    ensures Keep(lib, SampleElement(text), base, allowed) == Some(Kept(SampleElement(text), Control, None))
  {
    SelectIsControl();
  }

  lemma SampleRanked(lib: Library, text: string, url: string)
    requires lib.normalize("select") == "select" && text != "" && lib.origin(url).Some?
    ensures KeptOf(lib, SampleBuilder(), url, [SampleElement(text)]) == [Kept(SampleElement(text), Control, None)]
  {
    var e := SampleElement(text);
    var allowed := {lib.origin(url).value} + SampleBuilder().allowedOrigins;
    var k := Kept(e, Control, None);
    SampleKept(lib, text, url, allowed);
    assert [e][1..] == [] && KeepAll(lib, [], url, allowed) == [];
    assert KeepAll(lib, [e], url, allowed) == [k] + [];
    assert [k][1..] == [] && Ranked([]) == [];
    assert Ranked([k]) == Insert(k, []);
  }

  lemma SampleItems(lib: Library, text: string, url: string)
    requires lib.normalize("select") == "select" && text != "" && lib.origin(url).Some?
    ensures
      ItemsOf(lib, SampleBuilder(), url, [SampleElement(text)]) ==
      [Item(SampleCandidate(lib, text), Kept(SampleElement(text), Control, None))]
  {
    var k := Kept(SampleElement(text), Control, None);
    SampleRanked(lib, text, url);
    assert !PasswordPresent(lib, [SampleElement(text)]) by { assert "password"[0] == 'p'; }
    var item := ItemAt(lib, [k], 0, {}, false);
    assert ItemsFrom(lib, [k], 1, {item.candidate.fingerprint.id}, false) == [];
    assert {} + {item.candidate.fingerprint.id} == {item.candidate.fingerprint.id};
  }

  lemma SampleValid(lib: Library, text: string)
    requires lib.normalize("select") == "select" && text != "" && |lib.normalize(text)| <= 200
    ensures ValidFingerprint(SampleCandidate(lib, text).fingerprint)
  {
    SelectIsControl();
  }

  /** The observation of the sample page. */
  function Sampled(lib: Library, url: string, text: string): RuntimeObservation {
    Assembled(lib, SampleBuilder(), url, "", "",
              [Item(SampleCandidate(lib, text), Kept(SampleElement(text), Control, None))])
  }

  lemma SampleLists(lib: Library, url: string, text: string)
    ensures |Sampled(lib, url, text).elements| == 1
    ensures Sampled(lib, url, text).candidates == [SampleCandidate(lib, text)] + Synthetic(lib)
    ensures Sampled(lib, url, text).RawIndexFor(CandidateId(0)) == Some(0)
  {
    var items := [Item(SampleCandidate(lib, text), Kept(SampleElement(text), Control, None))];
    AssembledLists(lib, SampleBuilder(), url, "", "", items);
    OneListed(lib, Sampled(lib, url, text), items[0]);
  }

  lemma OneListed(lib: Library, o: RuntimeObservation, item: Item)
    requires Lists(lib, o, [item]) && item.candidate.id == CandidateId(0)
    ensures o.candidates == [item.candidate] + Synthetic(lib)
    ensures o.RawIndexFor(CandidateId(0)) == Some(item.kept.raw.index)
  {
    ListsLookup(lib, o, [item], 0);
    assert CandidatesOf([item]) == [item.candidate];
  }

  lemma SampleChecked(lib: Library, url: string, text: string)
    requires lib.normalize("select") == "select" && text != "" && |lib.normalize(text)| <= 200
    requires !Blank(url) && |url| <= MAX_SUMMARY_URL
    ensures
      var items := [Item(SampleCandidate(lib, text), Kept(SampleElement(text), Control, None))];
      Checked(url, items, Sampled(lib, url, text)) == Success(Sampled(lib, url, text))
  {
    SampleValid(lib, text);
    SampleLists(lib, url, text);
  }

  lemma UrlsUsable()
    ensures !Blank(HOME) && !Blank(AWAY) && |HOME| == |AWAY| == 14 && HOME != AWAY
  {
    assert HOME[0] == 'h' && AWAY[0] == 'h' && !IsSpace('h') && HOME[8] == 'a' && AWAY[8] == 'b';
  }

  /** The build accepts the page at either URL. */
  lemma SampleBuilt(lib: PythonLibrary, url: string, text: string)
    requires url == HOME || url == AWAY
    requires text == "go" || text == SEP_MARKER
    ensures Built(lib, SampleBuilder(), url, "", "", [SampleElement(text)]) == Success(Sampled(lib, url, text))
  {
    UrlsUsable();
    assert |"go"| == 2 && |SEP_MARKER| == 7;
    SampleItems(lib, text, url);
    SampleChecked(lib, url, text);
  }

  /** The candidate of the sample page is an ungated click. */
  lemma SampleClick(lib: Library, text: string)
    requires lib.normalize("select") == "select" && text != "" && |text| <= 120 && PlainText(lib, text)
    ensures SampleCandidate(lib, text).kind == Click && SampleCandidate(lib, text).review.None?
  {
    var e := SampleElement(text);
    SelectIsControl();
    SampleKept(lib, text, "", {});
    assert ReviewText(lib, e) == text + " " + "" == text + " ";
    GatingExact(lib, Kept(e, Control, None), "", {}, CandidateId(0), SampleCandidate(lib, text).fingerprint, false);
    assert "reset"[0] == 'r';
  }

  // ---- A page that shows a marker blocks selection ---------------------------------------------

  const MARKED: string := "button: <<SEP>>"

  lemma MarkedDescription(lib: Library)
    requires PlainText(lib, SEP_MARKER)
    ensures SampleCandidate(lib, SEP_MARKER).description == MARKED == lib.collapse(MARKED)
    ensures Contains(MARKED, SEP_MARKER)
  {
    assert "button" + ": " + SEP_MARKER == MARKED == "button: " + SEP_MARKER;
    assert MARKED[8..15] == SEP_MARKER;
    assert OccursAt(MARKED, SEP_MARKER, 8);
  }

  lemma MarkedNotClean(lib: Library, d: Driver, s: Situation)
    requires PlainText(lib, SEP_MARKER) && d.caps == RLCD && d.collapse == lib.collapse
    requires s.observation == Sampled(lib, HOME, SEP_MARKER)
    ensures !CleanBatch(d, s.observation.candidates)
  {
    SampleLists(lib, HOME, SEP_MARKER);
    MarkedDescription(lib);
    var c := SampleCandidate(lib, SEP_MARKER);
    assert c == s.observation.candidates[0];
    assert SEP_MARKER == RLCD.reservedMarkers[1];
    assert !Clean(d.caps, d.Clamp(c.description, MAX_DESCRIPTION_CHARS));
  }

  /** However willingly the backend answers, no candidate of the marked page can be selected. */
  lemma MarkedPageFails(lib: PythonLibrary, d: Driver, s: Situation)
    requires d.caps == RLCD && d.collapse == lib.collapse && Willing(d)
    requires s.observation == Sampled(lib, HOME, SEP_MARKER)
    ensures d.SelectCandidate(s).outcome.Failure?
  {
    SampleBuilt(lib, HOME, SEP_MARKER);
    MarkedNotClean(lib, d, s);
    SelectionIsExact(lib, SampleBuilder(), HOME, "", "", [SampleElement(SEP_MARKER)], d, s);
  }

  /**
   On a page with one control whose text is a separator marker, which the build accepts, there is
   a backend with the RLCD capabilities that names an option of every question it is asked, and
   selection with it fails; as it does with any other.
   */
  lemma MarkedPageBlocks(lib: PythonLibrary, render: Rendering, goal: string, recent: seq<Recent>) returns (d: Driver)
    ensures Built(lib, SampleBuilder(), HOME, "", "", [SampleElement(SEP_MARKER)])
         == Success(Sampled(lib, HOME, SEP_MARKER))
    ensures d.caps == RLCD && d.collapse == lib.collapse && d.render == render && Willing(d)
    ensures d.SelectCandidate(Situation(goal, Sampled(lib, HOME, SEP_MARKER), recent)).outcome.Failure?
  {
    SampleBuilt(lib, HOME, SEP_MARKER);
    d := SomeBackendIsWilling(RLCD, lib.collapse, render);
    MarkedPageFails(lib, d, Situation(goal, Sampled(lib, HOME, SEP_MARKER), recent));
  }

  // ---- A click outside the allowed origins -------------------------------------------------------

  function SampleSetup(lib: Library): E.Setup {
    E.Setup(lib, (url, title, text, es) => Built(lib, SampleBuilder(), url, title, text, es), HOME, {})
  }

  /** The sample page is open at home and has been observed. */
  function AtHome(lib: Library): E.State {
    E.State(true, false, Some(Sampled(lib, HOME, "go")), [SampleElement("go")], [Locator(0, 0)], 0)
  }

  /** The page is found at this URL, and stays there. */
  function At(url: string): E.Io {
    E.Io(E.Loaded(SamplePage(url, "go")), true, url, E.Loaded(SamplePage(url, "go")))
  }

  lemma SampleObserved(lib: PythonLibrary, url: string)
    requires url == HOME || url == AWAY
    ensures E.ObservedOn(SampleSetup(lib), SamplePage(url, "go")) == Success(Sampled(lib, url, "go"))
  {
    SampleElements(url, "go");
    SampleBuilt(lib, url, "go");
  }

  lemma OnlyHomeAllowed(lib: PythonLibrary)
    ensures E.AllowedOrigin(SampleSetup(lib), HOME) && !E.AllowedOrigin(SampleSetup(lib), AWAY)
  {
    UrlsUsable();
  }

  lemma SampleVerdict(lib: PythonLibrary)
    ensures E.Verdict(Sampled(lib, HOME, "go"), Sampled(lib, AWAY, "go"), CandidateId(0), Click).None?
  {
    SampleLists(lib, HOME, "go");
    SampleLists(lib, AWAY, "go");
    assert |"go"| == 2;
    SampleClick(lib, "go");
  }

  /** A click on a candidate that is confirmed, with its element at this one place. */
  lemma ClickGoesThrough(
    cfg: E.Setup, st: E.State, previous: RuntimeObservation, p: Page, o: RuntimeObservation, id: string, at: Locator,
    io: E.Io)
    requires st.Usable() && st.observation == Some(previous) && io.shot == E.Loaded(p) && io.acted
    requires E.ObservedOn(cfg, p) == Success(o) && E.Verdict(previous, o, id, Click).None?
    requires |Elements(Extracted(p.groups))| == 1 && Locators(Extracted(p.groups)) == [at]
    requires o.RawIndexFor(id) == Some(0) && !E.AllowedOrigin(cfg, io.landed)
    ensures
      var r := E.Executed(cfg, st, E.ClickAction(id), io);
      r.acts == [E.Clicked(id, at, p, o)] && r.fault == Some(E.BrowserFault(E.LeftOrigin))
  {
    var st1 := st.(step := st.step + 1);
    var v := E.Validated(cfg, st1, id, Click, io.shot);
    assert v.fault.None? && v.st.observation == Some(o) && v.st.locations == [at];
    assert E.Place(v.st, id) == Some(0);
  }

  lemma AwayShown(lib: PythonLibrary)
    ensures E.ObservedOn(SampleSetup(lib), SamplePage(AWAY, "go")) == Success(Sampled(lib, AWAY, "go"))
    ensures |Elements(Extracted(SamplePage(AWAY, "go").groups))| == 1
    ensures Locators(Extracted(SamplePage(AWAY, "go").groups)) == [Locator(0, 0)]
    ensures Sampled(lib, AWAY, "go").RawIndexFor(CandidateId(0)) == Some(0)
  {
    SampleObserved(lib, AWAY);
    SampleElements(AWAY, "go");
    SampleLists(lib, AWAY, "go");
  }

  /**
   The click happens, though the page has left the allowed origins, because the element is still
   the same; the check that follows it comes too late.
   */
  lemma ClickAway(lib: PythonLibrary)
    ensures
      var r := E.Executed(SampleSetup(lib), AtHome(lib), E.ClickAction(CandidateId(0)), At(AWAY));
      && r.acts == [E.Clicked(CandidateId(0), Locator(0, 0), SamplePage(AWAY, "go"), Sampled(lib, AWAY, "go"))]
      && r.fault == Some(E.BrowserFault(E.LeftOrigin))
  {
    OnlyHomeAllowed(lib);
    AwayShown(lib);
    SampleVerdict(lib);
    ClickGoesThrough(SampleSetup(lib), AtHome(lib), Sampled(lib, HOME, "go"), SamplePage(AWAY, "go"),
                     Sampled(lib, AWAY, "go"), CandidateId(0), Locator(0, 0), At(AWAY));
  }

  // ---- The run that makes it ---------------------------------------------------------------------

  /** The world, as this input has it, takes an undisturbed run straight to a click on c. */
  ghost predicate Smooth(cfg: P.Config, i: P.Input, x: E.State, o: RuntimeObservation, c: Candidate) {
    && cfg.maxSteps >= 1 && cfg.timeLimit.None? && i.goal == P.Says(false)
    && E.Started(cfg.setup, E.IDLE, i.launch, i.io) == E.Outcome(x, None, [])
    && E.Refreshed(cfg.setup, x, i.io.shot) == E.Outcome(x, None, []) && x.observation == Some(o)
    && Select(o.candidates, cfg.caps, i.choose).outcome == Success(c)
    && c.kind == Click && c.review.None?
  }

  /** Where the run thread is after k steps. */
  function PcAfter(o: RuntimeObservation, c: Candidate, k: nat): P.Pc {
    match k
    case 0 => P.NotStarted
    case 1 => P.Top
    case 2 => P.StopCheck
    case 3 => P.Observing
    case 4 => P.Judging(o)
    case 5 => P.Selecting(o)
    case 6 => P.Decided(o, c)
    case _ => P.Acting(o, c, E.ClickAction(c.id))
  }

  /** The run has come here undisturbed and has done nothing to the page. */
  ghost predicate Arrived(s: P.State, x: E.State, o: RuntimeObservation, c: Candidate, k: nat) {
    && s.pc == PcAfter(o, c, k) && s.exec == (if k == 0 then E.IDLE else x)
    && s.steps == 0 && !s.stop && s.trace.deeds == []
  }

  lemma CallOnward(cfg: P.Config, s: P.State, i: P.Input, x: E.State, o: RuntimeObservation, c: Candidate, k: nat)
    requires Smooth(cfg, i, x, o, c) && Arrived(s, x, o, c, k) && (k == 0 || k == 3)
    ensures Arrived(P.Advance(cfg, s, i), x, o, c, k + 1)
  {
  }

  lemma CheckOnward(cfg: P.Config, s: P.State, i: P.Input, x: E.State, o: RuntimeObservation, c: Candidate, k: nat)
    requires Smooth(cfg, i, x, o, c) && Arrived(s, x, o, c, k) && (k == 1 || k == 2 || k == 4)
    ensures Arrived(P.Advance(cfg, s, i), x, o, c, k + 1)
  {
  }

  lemma SelectOnward(cfg: P.Config, s: P.State, i: P.Input, x: E.State, o: RuntimeObservation, c: Candidate)
    requires Smooth(cfg, i, x, o, c) && Arrived(s, x, o, c, 5)
    ensures Arrived(P.Advance(cfg, s, i), x, o, c, 6)
  {
  }

  lemma DecidesToClick(cfg: P.Config, s: P.State, o: RuntimeObservation, c: Candidate, i: P.Input)
    requires c.kind == Click && c.review.None? && cfg.timeLimit.None? && s.steps < cfg.maxSteps
    ensures P.DecideStep(cfg, s, o, c, i) == s.(pc := P.Acting(o, c, E.ClickAction(c.id)))
  {
  }

  lemma DecideOnward(cfg: P.Config, s: P.State, i: P.Input, x: E.State, o: RuntimeObservation, c: Candidate)
    requires Smooth(cfg, i, x, o, c) && Arrived(s, x, o, c, 6)
    ensures Arrived(P.Advance(cfg, s, i), x, o, c, 7)
  {
    DecidesToClick(cfg, s, o, c, i);
    assert P.Advance(cfg, s, i) == P.DecideStep(cfg, s, o, c, i);
  }

  /** The run thread's first k steps, all with this input. */
  function Steps(i: P.Input, k: nat): seq<P.Event> {
    if k == 0 then [] else Steps(i, k - 1) + [P.Thread(i)]
  }

  lemma AfterOneMore(cfg: P.Config, events: seq<P.Event>, e: P.Event)
    ensures ProtocolRuns.After(cfg, events + [e]) == P.Step(cfg, ProtocolRuns.After(cfg, events), e)
  {
    ProtocolRuns.RunAppend(cfg, P.INITIAL, events, [e]);
    assert [e][1..] == [];
    assert P.Run(cfg, P.Step(cfg, ProtocolRuns.After(cfg, events), e), []) ==
           P.Step(cfg, ProtocolRuns.After(cfg, events), e);
  }

  lemma Onward(cfg: P.Config, s: P.State, i: P.Input, x: E.State, o: RuntimeObservation, c: Candidate, k: nat)
    requires Smooth(cfg, i, x, o, c) && Arrived(s, x, o, c, k) && k < 7
    ensures Arrived(P.Advance(cfg, s, i), x, o, c, k + 1)
  {
    match k {
      case 5 => SelectOnward(cfg, s, i, x, o, c);
      case 6 => DecideOnward(cfg, s, i, x, o, c);
      case _ =>
        if k == 0 || k == 3 {
          CallOnward(cfg, s, i, x, o, c, k);
        } else {
          CheckOnward(cfg, s, i, x, o, c, k);
        }
    }
  }

  lemma {:induction false} StepsArrive(
    cfg: P.Config, i: P.Input, x: E.State, o: RuntimeObservation, c: Candidate, k: nat)
    requires Smooth(cfg, i, x, o, c) && k <= 7
    ensures Arrived(ProtocolRuns.After(cfg, Steps(i, k)), x, o, c, k)
  {
    if k > 0 {
      StepsArrive(cfg, i, x, o, c, k - 1);
      AfterOneMore(cfg, Steps(i, k - 1), P.Thread(i));
      Onward(cfg, ProtocolRuns.After(cfg, Steps(i, k - 1)), i, x, o, c, k - 1);
    }
  }

  /** From there the page is found elsewhere just before the click. */
  lemma ClickFollows(cfg: P.Config, s: P.State, i: P.Input, act: E.Act)
    requires s.pc.Acting? && s.trace.deeds == [] && RunEffects.ActsOf(cfg, s, i) == [act]
    requires act.Clicked? && !E.AllowedOrigin(cfg.setup, act.page.url)
    ensures !RunEffects.AllOnAllowed(cfg, P.Advance(cfg, s, i).trace.deeds)
  {
    RunEffects.ActAdds(cfg, s, i);
    OneDeed(cfg, [], s.pc.obs, s.pc.chosen, act, P.Advance(cfg, s, i).trace.deeds);
  }

  lemma ActedOnce(
    cfg: P.Config, s: P.State, i: P.Input, x: E.State, o: RuntimeObservation, c: Candidate, act: E.Act)
    requires Arrived(s, x, o, c, 7) && E.Executed(cfg.setup, x, E.ClickAction(c.id), i.io).acts == [act]
    ensures s.pc.Acting? && RunEffects.ActsOf(cfg, s, i) == [act]
  {
  }

  lemma OneDeed(
    cfg: P.Config, before: seq<P.Deed>, o: RuntimeObservation, c: Candidate, act: E.Act, after: seq<P.Deed>)
    requires before == [] && after == before + P.Deeds(o, c, [act])
    requires act.Clicked? && !E.AllowedOrigin(cfg.setup, act.page.url)
    ensures !RunEffects.AllOnAllowed(cfg, after)
  {
    assert after[0].act == act;
    assert !RunEffects.OnAllowed(cfg, after[0]);
  }

  // ---- The run on the sample page ----------------------------------------------------------------

  /** The first of each batch. */
  function PickFirst(): Chooser {
    (n: nat, batch: seq<Candidate>) => if batch == [] then NotAString else Chosen(batch[0].id)
  }

  /** The page is found at this URL, the goal is not reached, and no time passes. */
  function InputAt(url: string): P.Input {
    P.Input(0.0, None, At(url), P.Says(false), PickFirst(), "r")
  }

  lemma HomeShown(lib: PythonLibrary, st: E.State)
    requires st.Usable() && st.step == 0
    ensures E.Refreshed(SampleSetup(lib), st, At(HOME).shot) ==
            E.Outcome(AtHome(lib).(started := st.started, closed := st.closed), None, [])
  {
    SampleObserved(lib, HOME);
    SampleElements(HOME, "go");
  }

  lemma Opening(lib: PythonLibrary)
    ensures E.Started(SampleSetup(lib), E.IDLE, None, At(HOME)) == E.Outcome(AtHome(lib), None, [])
  {
    OnlyHomeAllowed(lib);
    HomeShown(lib, E.IDLE.(started := true));
  }

  lemma FirstIsChosen(cs: seq<Candidate>, caps: Capabilities)
    requires DistinctIds(cs) && BatchSize(caps, |cs|) && SelectableId(cs[0].id)
    ensures Select(cs, caps, PickFirst()).outcome == Success(cs[0])
  {
    OneBatch(cs, caps, PickFirst(), cs[0]);
  }

  lemma SampleSelected(lib: PythonLibrary, caps: Capabilities)
    requires BatchSize(caps, 4)
    ensures Select(Sampled(lib, HOME, "go").candidates, caps, PickFirst()).outcome ==
            Success(SampleCandidate(lib, "go"))
  {
    var cs := Sampled(lib, HOME, "go").candidates;
    SampleBuilt(lib, HOME, "go");
    CandidatesSelectable(lib, SampleBuilder(), HOME, "", "", [SampleElement("go")]);
    SampleLists(lib, HOME, "go");
    assert cs[0] == SampleCandidate(lib, "go") && |cs| == 4;
    FirstIsChosen(cs, caps);
  }

  lemma SampleSmooth(lib: PythonLibrary, cfg: P.Config)
    requires cfg.setup == SampleSetup(lib) && cfg.maxSteps >= 1 && cfg.timeLimit.None? && BatchSize(cfg.caps, 4)
    ensures Smooth(cfg, InputAt(HOME), AtHome(lib), Sampled(lib, HOME, "go"), SampleCandidate(lib, "go"))
  {
    Opening(lib);
    HomeShown(lib, AtHome(lib));
    SampleSelected(lib, cfg.caps);
    assert |"go"| == 2;
    SampleClick(lib, "go");
  }

  /**
   A run of the whole protocol, from the start, with any backend that takes four candidates at
   once and the real observation builder: eight steps of the run thread, in the last of which an
   element is clicked on a page that is on no allowed origin.
   */
  lemma RunClicksAway(lib: PythonLibrary, cfg: P.Config)
    requires cfg.setup == SampleSetup(lib) && cfg.maxSteps >= 1 && cfg.timeLimit.None? && BatchSize(cfg.caps, 4)
    ensures E.BuildsAs(cfg.setup, SampleBuilder()) && !E.AllowedOrigin(cfg.setup, AWAY)
    ensures
      var events := Steps(InputAt(HOME), 7) + [P.Thread(InputAt(AWAY))];
      !RunEffects.AllOnAllowed(cfg, ProtocolRuns.After(cfg, events).trace.deeds)
  {
    var o, c := Sampled(lib, HOME, "go"), SampleCandidate(lib, "go");
    OnlyHomeAllowed(lib);
    SampleSmooth(lib, cfg);
    StepsArrive(cfg, InputAt(HOME), AtHome(lib), o, c, 7);
    ClickAway(lib);
    AfterOneMore(cfg, Steps(InputAt(HOME), 7), P.Thread(InputAt(AWAY)));
    var s, act := ProtocolRuns.After(cfg, Steps(InputAt(HOME), 7)),
                  E.Clicked(CandidateId(0), Locator(0, 0), SamplePage(AWAY, "go"), Sampled(lib, AWAY, "go"));
    ActedOnce(cfg, s, InputAt(AWAY), AtHome(lib), o, c, act);
    ClickFollows(cfg, s, InputAt(AWAY), act);
  }
}
