/** The driver's candidate choice: one canonical Choice question per batch, answered by a backend. */
module Driver {
  import opened Wrappers
  import opened Text
  import opened Json
  import opened Models
  import opened Questions
  import opened Validation
  import opened Registry
  import opened Observation
  import opened Selection
  import R = Results

  const MAX_GOAL_CHARS: nat := 2000
  const MAX_PAGE_TEXT_CHARS: nat := 6000
  const MAX_TITLE_CHARS: nat := 512
  const MAX_URL_CHARS: nat := 2048
  const MAX_DESCRIPTION_CHARS: nat := 200
  const MAX_STATE_CANDIDATES: nat := 40
  const MAX_RECENT_ACTIONS: nat := 10
  const BATCH_QUESTION_ID: string := "choose_candidate"
  const BATCH_INSTRUCTIONS: string :=
    "Choose the single best next action " + "for the goal from the " + "candidate options."

  datatype Problem =
    | BadBatch
    | UnsupportedSize
    | BadRequest // the canonical models refuse it
    | NotEvaluated // validation refused it, or the backend raised
    | NotCanonical
    | WrongBackend
    | WrongCalibration
    | WrongQuestions
    | DriverAbstained
    | WrongType
    | OutsideBatch

  datatype BackendResult = BackendResult(backend: Backend, calibrated: bool, answers: map<string, R.Answer>)

  datatype Reply = BackendRaised | OtherValue | Replied(result: BackendResult)

  /** An executed action as the driver is told of it. */
  datatype Recent = Recent(step: nat, kind: string, description: string, outcome: string)

  datatype Situation = Situation(goal: string, observation: RuntimeObservation, recent: seq<Recent>)

  /** Any backend, which may answer differently from call to call, and any rendering of text. */
  datatype Driver = Driver(
    caps: Capabilities, ask: (nat, Request) -> Reply, collapse: string -> string, render: Rendering)
  {
    function Clamp(s: string, limit: nat): string {
      Cut(collapse(s), limit)
    }

    /** What the recent action list says of one action. */
    function RecentJson(a: Recent): Json {
      Dict(["step", "kind", "description", "outcome"],
           [Int(a.step), Str(a.kind), Str(Clamp(a.description, MAX_DESCRIPTION_CHARS)), Str(a.outcome)])
    }

    function PageJson(o: RuntimeObservation): Json {
      Dict(["url", "title", "text"],
           [ Str(Clamp(o.url, MAX_URL_CHARS)), Str(Clamp(o.title, MAX_TITLE_CHARS)),
             Str(Cut(o.pageText, MAX_PAGE_TEXT_CHARS)) ])
    }

    function DescriptionsJson(o: RuntimeObservation): Json {
      var cs := FirstOf(o.candidates, MAX_STATE_CANDIDATES);
      List(seq(|cs|, i requires 0 <= i < |cs| => Str(cs[i].description)))
    }

    function HistoryJson(recent: seq<Recent>): Json {
      var last := LastOf(recent, MAX_RECENT_ACTIONS);
      List(seq(|last|, i requires 0 <= i < |last| => RecentJson(last[i])))
    }

    function BuildState(s: Situation): Json {
      Dict(["goal", "page", "candidates", "recent_actions"],
           [ Str(Clamp(s.goal, MAX_GOAL_CHARS)), PageJson(s.observation), DescriptionsJson(s.observation),
             HistoryJson(s.recent) ])
    }

    function RequestState(s: Situation): Json {
      if caps.allowsJsonState then BuildState(s) else Str(render.dumps(BuildState(s)))
    }

    function BatchQuestion(batch: seq<Candidate>): Question {
      Choice(BATCH_INSTRUCTIONS, Ids(batch),
             seq(|batch|, i requires 0 <= i < |batch| => Str(Clamp(batch[i].description, MAX_DESCRIPTION_CHARS))))
    }

    function BatchRequest(s: Situation, batch: seq<Candidate>): Request {
      Request(RequestState(s), None, [(BATCH_QUESTION_ID, BatchQuestion(batch))])
    }

    /** `_request` and `_evaluate`: construction, validation, the backend, and its identity claims. */
    function Evaluate(n: nat, r: Request): Result<BackendResult, Problem> {
      if !ValidModel(r) then Failure(BadRequest)
      else if !Acceptable(r, caps, render) then Failure(NotEvaluated)
      else match ask(n, r)
        case BackendRaised => Failure(NotEvaluated)
        case OtherValue => Failure(NotCanonical)
        case Replied(result) =>
          if result.backend != caps.backend then Failure(WrongBackend)
          else if result.calibrated != caps.calibrated then Failure(WrongCalibration)
          else Success(result)
    }

    /** `choose_batch`, as the n-th question of a tournament. */
    function ChooseBatch(n: nat, s: Situation, batch: seq<Candidate>): (r: Result<string, Problem>)
      ensures r.Success? ==> DistinctIds(batch) && BatchSize(caps, |batch|)
      ensures r.Success? ==> r.value in Ids(batch) && r.value != ABSTAIN_ANSWER_ID
    {
      if batch == [] || !DistinctIds(batch) then Failure(BadBatch)
      else if |batch| !in BatchSizes(caps) then Failure(UnsupportedSize)
      else match Evaluate(n, BatchRequest(s, batch))
        case Failure(e) => Failure(e)
        case Success(result) =>
          if result.answers.Keys != {BATCH_QUESTION_ID} then Failure(WrongQuestions)
          else match result.answers[BATCH_QUESTION_ID]
            case AbstainAnswer(_, _, _, _, _) => Failure(DriverAbstained)
            case NoulAnswer(_, _, _) => Failure(WrongType)
            case ScoreAnswer(_, _, _, _) => Failure(WrongType)
            case ChoiceAnswer(choice, _, _) =>
              if choice == ABSTAIN_ANSWER_ID then Failure(DriverAbstained)
              else if choice !in Ids(batch) then Failure(OutsideBatch)
              else Success(choice)
    }

    /** The callback that the tournament is given. */
    function Chooser(s: Situation): Selection.Chooser {
      (n: nat, batch: seq<Candidate>) => match ChooseBatch(n, s, batch)
                    case Failure(_) => Answer.Raised
                    case Success(id) => Chosen(id)
    }

    /** `select_candidate` of the driver. */
    function SelectCandidate(s: Situation): Play<Candidate> {
      Select(s.observation.candidates, caps, Chooser(s))
    }
  }

  function FirstOf<T>(s: seq<T>, n: nat): (r: seq<T>)
    ensures |r| <= n
  {
    if |s| <= n then s else s[..n]
  }

  function LastOf<T>(s: seq<T>, n: nat): (r: seq<T>)
    ensures |r| <= n
  {
    if |s| <= n then s else s[|s| - n..]
  }

  function Ids(cs: seq<Candidate>): seq<string> {
    seq(|cs|, i requires 0 <= i < |cs| => cs[i].id)
  }

  // ---- The request of a batch -----------------------------------------------------------

  /** n values of bounded size and height. */
  lemma {:induction false} Bounded(items: seq<Json>, size: nat, height: nat)
    requires forall j | j in items :: Nodes(j) <= size && Height(j) <= height
    ensures NodesAll(items) <= |items| * size && HeightAll(items) <= height + 1
  {
    if items != [] {
      assert items[0] in items;
      Bounded(items[1..], size, height);
      assert |items| * size == size + |items[1..]| * size;
    }
  }

  predicate Small(j: Json, size: nat, height: nat) {
    Nodes(j) <= size && Height(j) <= height
  }

  lemma PageSmall(d: Driver, o: RuntimeObservation)
    ensures Small(d.PageJson(o), 51, 2)
  {
    Bounded(d.PageJson(o).items, 1, 0);
  }

  lemma DescriptionsSmall(d: Driver, o: RuntimeObservation)
    ensures Small(d.DescriptionsJson(o), 51, 2)
  {
    Bounded(d.DescriptionsJson(o).items, 1, 0);
  }

  lemma RecentSmall(d: Driver, a: Recent)
    ensures Small(d.RecentJson(a), 5, 1)
  {
    Bounded(d.RecentJson(a).items, 1, 0);
  }

  lemma HistorySmall(d: Driver, recent: seq<Recent>)
    ensures Small(d.HistoryJson(recent), 51, 2)
  {
    var last := LastOf(recent, MAX_RECENT_ACTIONS);
    var items := d.HistoryJson(recent).items;
    forall j | j in items
      ensures Nodes(j) <= 5 && Height(j) <= 1
    {
      var i :| 0 <= i < |last| && j == d.RecentJson(last[i]);
      RecentSmall(d, last[i]);
    }
    Bounded(items, 5, 1);
  }

  /** Whatever the page and the history, the state of a request is within the JSON limits. */
  lemma StateAdmissible(d: Driver, s: Situation)
    ensures Admissible(d.RequestState(s))
  {
    PageSmall(d, s.observation);
    DescriptionsSmall(d, s.observation);
    HistorySmall(d, s.recent);
    Bounded(d.BuildState(s).items, 51, 2);
  }
}
