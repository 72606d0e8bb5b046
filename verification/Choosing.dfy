/** What the driver tells a backend and makes of its answers, down to the text behind every option. */
module Choosing {
  import opened Wrappers
  import opened Text
  import opened Json
  import opened Models
  import opened Questions
  import opened Validation
  import opened Registry
  import opened Observation
  import opened ObservationIndex
  import opened Selection
  import opened Tournament
  import opened Driver
  import opened Composition
  import R = Results

  // ---- The request of a batch ---------------------------------------------------------------

  /** What the backend is shown of a candidate. */
  function Shown(d: Driver, c: Candidate): string {
    Cut(d.collapse(c.description), 200)
  }

  /** One Choice question that maps each candidate's id to that candidate's own description, in order. */
  predicate Offers(d: Driver, r: Request, batch: seq<Candidate>) {
    && |r.questions| == 1 && r.questions[0].0 == "choose_candidate" && r.questions[0].1.Choice?
    && var q := r.questions[0].1;
       && |q.keys| == |q.values| == |batch|
       && q.instructions == "Choose the single best next action " + "for the goal from the " + "candidate options."
       && forall i :: 0 <= i < |batch| ==> q.keys[i] == batch[i].id && q.values[i] == Str(Shown(d, batch[i]))
  }

  lemma OffersEach(d: Driver, s: Situation, batch: seq<Candidate>)
    ensures Offers(d, d.BatchRequest(s, batch), batch)
  {
  }

  /** The option of an id shows the description of the candidate with that id, and nothing else is an option. */
  lemma OfferedExactly(d: Driver, s: Situation, batch: seq<Candidate>, id: string, text: string)
    requires DistinctIds(batch)
    ensures
      var r := d.BatchRequest(s, batch);
      && Offers(d, r, batch)
      && var q := r.questions[0].1;
         ((exists i :: 0 <= i < |batch| && q.keys[i] == id && q.values[i] == Str(text)) <==>
          (exists c :: c in batch && c.id == id && Shown(d, c) == text))
  {
    OffersEach(d, s, batch);
    var q := d.BatchRequest(s, batch).questions[0].1;
    if c :| c in batch && c.id == id && Shown(d, c) == text {
      var i :| 0 <= i < |batch| && batch[i] == c;
      assert q.keys[i] == id && q.values[i] == Str(text);
    }
  }

  /** The value of a field of a JSON object. */
  function Field(j: Json, key: string): Option<Json> {
    if j.Dict? && |j.keys| == |j.items| then FieldFrom(j.keys, j.items, key) else None
  }

  function FieldFrom(keys: seq<string>, items: seq<Json>, key: string): Option<Json>
    requires |keys| == |items|
  {
    if keys == [] then None else if keys[0] == key then Some(items[0]) else FieldFrom(keys[1..], items[1..], key)
  }

  predicate IsText(j: Option<Json>, text: string) {
    j == Some(Str(text))
  }

  /** Goal, page, the first forty descriptions and the last ten actions, each cut to its limit. */
  ghost predicate TellsState(d: Driver, s: Situation, j: Json) {
    var o := s.observation;
    && j.Dict? && j.keys == ["goal", "page", "candidates", "recent_actions"] && |j.items| == 4
    && j.items[0] == Str(Cut(d.collapse(s.goal), 2000))
    && IsText(Field(j.items[1], "url"), Cut(d.collapse(o.url), 2048))
    && IsText(Field(j.items[1], "title"), Cut(d.collapse(o.title), 512))
    && IsText(Field(j.items[1], "text"), Cut(o.pageText, 6000))
    && TellsCandidates(o, j.items[2]) && TellsActions(d, s, j.items[3])
  }

  ghost predicate TellsCandidates(o: RuntimeObservation, j: Json) {
    && j.List? && |j.items| == (if |o.candidates| < 40 then |o.candidates| else 40)
    && forall i :: 0 <= i < |j.items| ==> j.items[i] == Str(o.candidates[i].description)
  }

  ghost predicate TellsActions(d: Driver, s: Situation, j: Json) {
    && j.List? && |j.items| == (if |s.recent| < 10 then |s.recent| else 10)
    && forall i :: 0 <= i < |j.items| ==> TellsAction(d, s.recent[|s.recent| - |j.items| + i], j.items[i])
  }

  predicate TellsAction(d: Driver, a: Recent, j: Json) {
    && Field(j, "step") == Some(Int(a.step)) && IsText(Field(j, "kind"), a.kind)
    && IsText(Field(j, "description"), Cut(d.collapse(a.description), 200)) && IsText(Field(j, "outcome"), a.outcome)
  }

  lemma KeysDiffer()
    ensures "url" != "title" && "url" != "text" && "title" != "text"
    ensures "step" != "kind" && "step" != "description" && "step" != "outcome"
    ensures "kind" != "description" && "kind" != "outcome" && "description" != "outcome"
  {
    assert "title"[1] == 'i' && "text"[1] == 'e' && "url"[0] == 'u';
    assert "step"[0] == 's' && "kind"[0] == 'k' && "description"[0] == 'd' && "outcome"[0] == 'o';
  }

  lemma FieldOf3(a: string, b: string, c: string, x: Json, y: Json, z: Json)
    requires a != b && a != c && b != c
    ensures
      var j := Dict([a, b, c], [x, y, z]);
      Field(j, a) == Some(x) && Field(j, b) == Some(y) && Field(j, c) == Some(z)
  {
    assert [a, b, c][1..] == [b, c] && [b, c][1..] == [c] && [x, y, z][1..] == [y, z] && [y, z][1..] == [z];
    assert FieldFrom([c], [z], c) == Some(z);
    assert FieldFrom([b, c], [y, z], b) == Some(y) && FieldFrom([b, c], [y, z], c) == FieldFrom([c], [z], c);
    assert forall key :: key != a ==> FieldFrom([a, b, c], [x, y, z], key) == FieldFrom([b, c], [y, z], key);
  }

  lemma ActionTold(d: Driver, a: Recent)
    ensures TellsAction(d, a, d.RecentJson(a))
  {
    KeysDiffer();
    var j := d.RecentJson(a);
    var description, outcome := Str(Cut(d.collapse(a.description), 200)), Str(a.outcome);
    assert j.keys[1..] == ["kind", "description", "outcome"] && j.items[1..] == [Str(a.kind), description, outcome];
    FieldOf3("kind", "description", "outcome", Str(a.kind), description, outcome);
    assert forall key :: key != "step" ==> Field(j, key) == FieldFrom(j.keys[1..], j.items[1..], key);
  }

  lemma PageTold(d: Driver, o: RuntimeObservation)
    ensures
      var j := d.PageJson(o);
      && IsText(Field(j, "url"), Cut(d.collapse(o.url), 2048))
      && IsText(Field(j, "title"), Cut(d.collapse(o.title), 512))
      && IsText(Field(j, "text"), Cut(o.pageText, 6000))
  {
    KeysDiffer();
    FieldOf3("url", "title", "text", Str(Cut(d.collapse(o.url), 2048)), Str(Cut(d.collapse(o.title), 512)),
             Str(Cut(o.pageText, 6000)));
  }

  /** What the backend is told besides the options, as text where it takes no JSON. */
  lemma StateTold(d: Driver, s: Situation)
    ensures exists j ::
              TellsState(d, s, j) &&
              d.RequestState(s) == if d.caps.allowsJsonState then j else Str(d.render.dumps(j))
  {
    var j := d.BuildState(s);
    PageTold(d, s.observation);
    forall a
      ensures TellsAction(d, a, d.RecentJson(a))
    {
      ActionTold(d, a);
    }
    assert TellsState(d, s, j);
  }

  // ---- What counts as an answer ------------------------------------------------------------------

  /** A result of this backend, of its own calibration claim, to the one question asked. */
  predicate Canonical(caps: Capabilities, reply: Reply) {
    && reply.Replied? && reply.result.backend == caps.backend && reply.result.calibrated == caps.calibrated
    && reply.result.answers.Keys == {"choose_candidate"}
  }

  /** An id is returned exactly when the batch may be asked and the backend's own answer names it among the options. */
  lemma ChoiceExact(d: Driver, s: Situation, n: nat, batch: seq<Candidate>, id: string)
    ensures
      var r := d.BatchRequest(s, batch);
      var reply := d.ask(n, r);
      d.ChooseBatch(n, s, batch) == Success(id) <==>
      && DistinctIds(batch) && BatchSize(d.caps, |batch|) && ValidModel(r) && Acceptable(r, d.caps, d.render)
      && Canonical(d.caps, reply) && reply.result.answers["choose_candidate"].ChoiceAnswer?
      && reply.result.answers["choose_candidate"].choice == id && id != "__abstain__"
      && exists c :: c in batch && c.id == id
  {
    IdsHave(batch, id);
    assert BATCH_QUESTION_ID == "choose_candidate" && ABSTAIN_ANSWER_ID == "__abstain__";
  }

  // ---- A backend that goes by the text ---------------------------------------------------------------

  type TextOrder = (string, string) -> bool

  ghost predicate OrdersTexts(less: TextOrder) {
    && (forall a :: !less(a, a))
    && (forall a, b, c :: less(a, b) && less(b, c) ==> less(a, c))
    && (forall a, b :: a != b ==> less(a, b) || less(b, a))
  }

  /** This option's text is greater than every other's. */
  predicate GreatestOption(less: TextOrder, q: Question, i: nat)
    requires q.Choice?
  {
    && i < |q.keys| && |q.keys| == |q.values| && q.values[i].Str?
    && forall j :: 0 <= j < |q.values| && j != i ==> q.values[j].Str? && less(q.values[j].s, q.values[i].s)
  }

  /** An answer that names an option, and the one with the greatest text where there is one. */
  predicate NamesGreatest(caps: Capabilities, less: TextOrder, reply: Reply, q: Question)
    requires q.Choice?
  {
    && Names(caps, reply, q.keys)
    && forall i: nat :: i < |q.keys| && GreatestOption(less, q, i) ==>
         reply.result.answers[BATCH_QUESTION_ID].choice == q.keys[i]
  }

  /** To every batch question that validation lets through the backend answers so. */
  ghost predicate GoesByText(d: Driver, less: TextOrder) {
    forall n: nat, r: Request | AsksBatch(r) && Acceptable(r, d.caps, d.render) ::
      NamesGreatest(d.caps, less, d.ask(n, r), r.questions[0].1)
  }

  /** The order that the texts shown give the candidates. */
  function ByText(d: Driver, less: TextOrder): Order {
    (a: Candidate, b: Candidate) => less(Shown(d, a), Shown(d, b))
  }

  predicate TextsDiffer(d: Driver, cs: seq<Candidate>) {
    forall i, j :: 0 <= i < j < |cs| ==> Shown(d, cs[i]) != Shown(d, cs[j])
  }

  lemma TextsOrder(d: Driver, less: TextOrder, cs: seq<Candidate>)
    requires OrdersTexts(less) && TextsDiffer(d, cs)
    ensures Orders(ByText(d, less), cs)
  {
    assert forall a, b :: ByText(d, less)(a, b) == less(Shown(d, a), Shown(d, b));
    forall a, b | a in cs && b in cs && a != b
      ensures Shown(d, a) != Shown(d, b)
    {
      var i :| 0 <= i < |cs| && cs[i] == a;
      var j :| 0 <= j < |cs| && cs[j] == b;
      if i < j { assert Shown(d, cs[i]) != Shown(d, cs[j]); } else { assert Shown(d, cs[j]) != Shown(d, cs[i]); }
    }
  }

  lemma TextGoerIsWilling(d: Driver, less: TextOrder)
    requires GoesByText(d, less)
    ensures Willing(d)
  {
  }

  /** The greatest candidate of a batch has the greatest option of its question. */
  lemma GreatestOffered(d: Driver, less: TextOrder, s: Situation, batch: seq<Candidate>, m: Candidate) returns (i: nat)
    requires DistinctIds(batch) && IsMax(ByText(d, less), m, batch)
    ensures
      var q := d.BatchQuestion(batch);
      i < |q.keys| && q.keys[i] == m.id && GreatestOption(less, q, i)
  {
    OffersEach(d, s, batch);
    var q := d.BatchQuestion(batch);
    i :| 0 <= i < |batch| && batch[i] == m;
    forall j | 0 <= j < |q.values| && j != i
      ensures q.values[j].Str? && less(q.values[j].s, q.values[i].s)
    {
      assert batch[j].id != batch[i].id;
      assert batch[j] in batch && batch[j] != m;
      assert ByText(d, less)(batch[j], m);
    }
  }

  lemma ChoosesGreatest(d: Driver, less: TextOrder, s: Situation, n: nat, batch: seq<Candidate>, m: Candidate)
    requires Registered(d.caps) && GoesByText(d, less) && DistinctIds(batch) && BatchSize(d.caps, |batch|)
    requires forall c | c in batch :: SelectableId(c.id)
    requires CleanState(d, s) && CleanBatch(d, batch) && IsMax(ByText(d, less), m, batch)
    ensures d.Chooser(s)(n, batch) == Chosen(m.id)
  {
    TextGoerIsWilling(d, less);
    WillingChooses(d, s, n, batch);
    BatchAcceptable(d, s, batch);
    var r := d.BatchRequest(s, batch);
    var i := GreatestOffered(d, less, s, batch, m);
    assert r.questions[0].1 == d.BatchQuestion(batch) && AsksBatch(r);
    assert NamesGreatest(d.caps, less, d.ask(n, r), r.questions[0].1);
  }

  lemma GoesByGreatest(d: Driver, less: TextOrder, s: Situation, cs: seq<Candidate>)
    requires Registered(d.caps) && GoesByText(d, less) && CleanState(d, s) && CleanBatch(d, cs)
    requires forall c | c in cs :: SelectableId(c.id)
    ensures Greatest(d.Chooser(s), ByText(d, less), cs, SizesDown(d.caps, MAX_OPTIONS))
  {
    var sizes := SizesDown(d.caps, MAX_OPTIONS);
    forall n: nat, b: seq<Candidate>, m | Presentable(b, cs, sizes) && IsMax(ByText(d, less), m, b)
      ensures d.Chooser(s)(n, b) == Chosen(m.id)
    {
      ChoosesGreatest(d, less, s, n, b, m);
    }
  }

  /**
   From page to choice: with any registered backend that goes by the text of the options, and differing
   texts free of reserved markers, the candidate selected is the one whose own text is the greatest.
   */
  lemma SelectionGoesByText(
    lib: Library, b: Builder, url: string, title: string, text: string, elements: seq<RawElement>,
    d: Driver, s: Situation, less: TextOrder, top: Candidate)
    requires Built(lib, b, url, title, text, elements) == Success(s.observation)
    requires Registered(d.caps) && OrdersTexts(less) && GoesByText(d, less)
    requires CleanState(d, s) && CleanBatch(d, s.observation.candidates) && TextsDiffer(d, s.observation.candidates)
    requires top in s.observation.candidates
    requires forall c | c in s.observation.candidates && c != top :: less(Shown(d, c), Shown(d, top))
    ensures d.SelectCandidate(s).outcome == Success(top)
  {
    var cs := s.observation.candidates;
    CandidatesSelectable(lib, b, url, title, text, elements);
    TextsOrder(d, less, cs);
    GoesByGreatest(d, less, s, cs);
    RegisteredTakesPairs(d.caps);
    EnoughRounds();
    SelectionFindsMax(ByText(d, less), cs, d.caps, d.Chooser(s), top);
  }

  // ---- Such backends exist -----------------------------------------------------------------------------

  /** The greatest option, or the first one where none is. */
  ghost function Preferred(less: TextOrder, q: Question): (i: nat)
    requires q.Choice? && q.keys != []
    ensures i < |q.keys| && forall j: nat :: j < |q.keys| && GreatestOption(less, q, j) ==> GreatestOption(less, q, i)
  {
    if exists j: nat :: j < |q.keys| && GreatestOption(less, q, j) then
      var j: nat :| j < |q.keys| && GreatestOption(less, q, j);
      j
    else 0
  }

  ghost function PreferredReply(caps: Capabilities, less: TextOrder, r: Request): Reply {
    if |r.questions| == 1 && r.questions[0].1.Choice? && r.questions[0].1.keys != [] then
      var q := r.questions[0].1;
      Replied(BackendResult(caps.backend, caps.calibrated,
                            map[BATCH_QUESTION_ID := R.ChoiceAnswer(q.keys[Preferred(less, q)], None, None)]))
    else BackendRaised
  }

  lemma PreferredIsOnly(less: TextOrder, q: Question, i: nat)
    requires OrdersTexts(less) && q.Choice? && i < |q.keys| && GreatestOption(less, q, i)
    ensures Preferred(less, q) == i
  {
    var p := Preferred(less, q);
    var x, y := q.values[i].s, q.values[p].s;
    assert !(less(x, y) && less(y, x));
  }

  /** For every order of texts there is a backend that goes by it, whatever the capabilities and the rendering. */
  lemma SomeBackendGoesByText(caps: Capabilities, collapse: string -> string, render: Rendering, less: TextOrder)
    returns (d: Driver)
    requires OrdersTexts(less)
    ensures d.caps == caps && d.collapse == collapse && d.render == render && GoesByText(d, less)
  {
    d := Driver(caps, (n: nat, r: Request) => PreferredReply(caps, less, r), collapse, render);
    forall n: nat, r: Request | AsksBatch(r) && Acceptable(r, d.caps, d.render)
      ensures NamesGreatest(d.caps, less, d.ask(n, r), r.questions[0].1)
    {
      var q := r.questions[0].1;
      assert r.questions[0] in r.questions && ValidQuestion(q);
      forall i: nat | i < |q.keys| && GreatestOption(less, q, i)
        ensures d.ask(n, r).result.answers[BATCH_QUESTION_ID].choice == q.keys[i]
      {
        PreferredIsOnly(less, q, i);
      }
    }
  }
}
