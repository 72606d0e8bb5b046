/** The RLCD backend: from a validated request and model output to canonical answers. */
module Rlcd {
  import opened Wrappers
  import opened Text
  import opened Json
  import opened Questions
  import opened Registry
  import opened Prompt
  import opened Dicts
  import opened Results
  import opened Calibration

  const REPO_ID: string := "heman10x/rlcd-modernbert-151m"
  const REVISION: string := "8af2496eb63c7fa66d7d234e1f62629380030eb4"
  const LOGIT_WIDTH: nat := 25

  /** One entry of the raw model output. */
  datatype Cell = Number(x: real) | NotFinite | NotNumber

  datatype LogitsFault = RowCount | Width | NonNumeric | NonFinite

  datatype EvalError =
    | UnsupportedModel
    | RuntimeFailed // tokenizer or inference
    | BadLogits(fault: LogitsFault)
    | BadDistribution(error: CalibrationError)
    | InvalidAnswer // a ValidationError of the answer models
    | InvalidResult // a ValidationError of the result model

  /** Tokenizer and model together: prompts to logits. */
  type Forward = seq<string> -> Option<seq<seq<Cell>>>

  // ---- Logits ----------------------------------------------------------------------------

  function ParseRow(row: seq<Cell>): Result<seq<real>, LogitsFault> {
    if row == [] then Success([])
    else match ParseRow(row[..|row| - 1])
      case Failure(f) => Failure(f)
      case Success(xs) =>
        match row[|row| - 1]
        case Number(x) => Success(xs + [x])
        case NotFinite => Failure(NonFinite)
        case NotNumber => Failure(NonNumeric)
  }

  function ParseRows(rows: seq<seq<Cell>>): Result<seq<seq<real>>, LogitsFault> {
    if rows == [] then Success([])
    else match ParseRows(rows[..|rows| - 1])
      case Failure(f) => Failure(f)
      case Success(parsed) =>
        if |rows[|rows| - 1]| != LOGIT_WIDTH then Failure(Width)
        else match ParseRow(rows[|rows| - 1])
          case Failure(f) => Failure(f)
          case Success(xs) => Success(parsed + [xs])
  }

  function LogitsOf(rows: seq<seq<Cell>>, batch: nat): Result<seq<seq<real>>, LogitsFault> {
    if |rows| != batch then Failure(RowCount) else ParseRows(rows)
  }

  lemma {:induction false} FailedPrefix(row: seq<Cell>, n: nat)
    requires n <= |row| && ParseRow(row[..n]).Failure?
    ensures ParseRow(row) == ParseRow(row[..n])
    decreases |row| - n
  {
    if n < |row| {
      assert row[..n + 1][..n] == row[..n];
      FailedPrefix(row, n + 1);
    } else {
      assert row[..n] == row;
    }
  }

  lemma {:induction false} FailedRows(rows: seq<seq<Cell>>, n: nat)
    requires n <= |rows| && ParseRows(rows[..n]).Failure?
    ensures ParseRows(rows) == ParseRows(rows[..n])
    decreases |rows| - n
  {
    if n < |rows| {
      assert rows[..n + 1][..n] == rows[..n];
      FailedRows(rows, n + 1);
    } else {
      assert rows[..n] == rows;
    }
  }

  method LogitsRow(row: seq<Cell>) returns (r: Result<seq<real>, LogitsFault>)
    ensures r == ParseRow(row)
  {
    var parsed: seq<real> := [];
    for i := 0 to |row|
      invariant ParseRow(row[..i]) == Success(parsed)
    {
      assert row[..i + 1][..i] == row[..i];
      match row[i] {
        case Number(x) => parsed := parsed + [x];
        case NotFinite =>
          FailedPrefix(row, i + 1);
          return Failure(NonFinite);
        case NotNumber =>
          FailedPrefix(row, i + 1);
          return Failure(NonNumeric);
      }
    }
    assert row[..|row|] == row;
    r := Success(parsed);
  }

  method LogitsRows(rows: seq<seq<Cell>>, batch: nat) returns (r: Result<seq<seq<real>>, LogitsFault>)
    ensures r == LogitsOf(rows, batch)
  {
    if |rows| != batch { return Failure(RowCount); }
    var parsed: seq<seq<real>> := [];
    for i := 0 to |rows|
      invariant ParseRows(rows[..i]) == Success(parsed)
    {
      assert rows[..i + 1][..i] == rows[..i];
      if |rows[i]| != LOGIT_WIDTH {
        FailedRows(rows, i + 1);
        return Failure(Width);
      }
      var row := LogitsRow(rows[i]);
      if row.Failure? {
        FailedRows(rows, i + 1);
        return Failure(row.error);
      }
      parsed := parsed + [row.value];
    }
    assert rows[..|rows|] == rows;
    r := Success(parsed);
  }

  // ---- Answers ----------------------------------------------------------------------------

  function Zip<T>(keys: seq<string>, values: seq<T>): seq<(string, T)>
    requires |keys| == |values|
  {
    seq(|keys|, i requires 0 <= i < |keys| => (keys[i], values[i]))
  }

  function DictOf<T>(pairs: seq<(string, T)>): Dict<T> {
    PutAll([], pairs)
  }

  function Ids(cs: seq<Scored>): seq<string> {
    seq(|cs|, i requires 0 <= i < |cs| => cs[i].id)
  }

  /** Substantive ids with the caller's own values. */
  function LegendPairs(q: Question): seq<(string, Json)> {
    match q
    case Noul(_, _) => []
    case Choice(_, keys, values) => if |keys| == |values| then Zip(keys, values) else []
    case Score(_, levels) => seq(|levels|, i requires 0 <= i < |levels| => (Decimal(i), levels[i]))
  }

  function Checked(a: Answer): Result<Answer, EvalError> {
    if ValidAnswer(a) then Success(a) else Failure(InvalidAnswer)
  }

  /** The sum of index times probability. */
  function Expectation(probs: seq<real>): real {
    if probs == [] then 0.0
    else Expectation(probs[..|probs| - 1]) + (|probs| - 1) as real * probs[|probs| - 1]
  }

  datatype Mapped = Mapped(answer: Answer, full: Dict<real>, expected: Option<real>)

  function AbstainOf(q: Question, ids: seq<string>, probs: seq<real>): Answer
    requires |ids| == |probs| > 0
  {
    var legend :=
      if q.Noul? then None else Some(DictOf(LegendPairs(q) + [(ABSTAIN_ANSWER_ID, Str(ABSTENTION_DESCRIPTION))]));
    AbstainAnswer(InsufficientEvidence, TypeOf(q), Some(probs[|ids| - 1]), Some(DictOf(Zip(ids, probs))), legend)
  }

  /** The answer over the substantive ids and their conditional mass. */
  function SubstantiveOf(q: Question, ids: seq<string>, mass: seq<real>, winner: nat): Answer
    requires |ids| == |mass| > winner
  {
    match q
    case Noul(_, _) => NoulAnswer(Some(mass[0]), None, None)
    case Choice(_, _, _) => ChoiceAnswer(ids[winner], Some(mass[winner]), Some(DictOf(Zip(ids, mass))))
    case Score(_, _) =>
      ScoreAnswer(winner as real, Some(mass[winner]), DictOf(LegendPairs(q)), Some(DictOf(Zip(ids, mass))))
  }

  function MapAnswer(q: Question, ids: seq<string>, probs: seq<real>, winner: nat): Result<Mapped, EvalError>
    requires |ids| == |probs| && winner < |probs|
  {
    var last := |ids| - 1;
    var full := DictOf(Zip(ids, probs));
    if winner == last then
      var checked := Checked(AbstainOf(q, ids, probs));
      if checked.Failure? then Failure(checked.error) else Success(Mapped(checked.value, full, None))
    else match ConditionalMass(probs[..last])
      case Failure(e) => Failure(BadDistribution(e))
      case Success(mass) =>
        var checked := Checked(SubstantiveOf(q, ids[..last], mass, winner));
        if checked.Failure? then Failure(checked.error)
        else Success(Mapped(checked.value, full, if q.Score? then Some(Expectation(mass)) else None))
  }

  /** One question: calibrate its row, then map. */
  function EvaluateOne(q: Question, render: Rendering, row: seq<real>, c: Calibrator, exp: real -> real)
    : Result<Mapped, EvalError>
  {
    var ids := Ids(CandidateList(q, render));
    match CalibratedDistribution(row, c, |ids|, exp)
    case Failure(e) => Failure(BadDistribution(e))
    case Success((probs, winner)) => MapAnswer(q, ids, probs, winner)
  }

  // ---- The provider metadata ------------------------------------------------------------------

  function Floats(d: Dict<real>): Json {
    Json.Dict(Keys(d), seq(|d|, i requires 0 <= i < |d| => Float(d[i].1)))
  }

  function Payload(m: Mapped, c: Calibrator): Json {
    var keys := ["revision", "calibration_scope", "temperature_path", "probability_base", "full_distribution"];
    var items := [Str(REVISION), Str(c.scope), Str("per_k:" + Decimal(|m.full|)),
                  Str("conditional_on_sufficient_evidence"), Floats(m.full)];
    Json.Dict(["rlcd"],
      [if m.expected.None? then Json.Dict(keys, items)
       else Json.Dict(keys + ["expected_value_over_substantive_mass"], items + [Float(m.expected.value)])])
  }

  datatype DecisionResult = DecisionResult(answers: Dict<Answer>, metadata: Dict<Json>)

  function Finish(r: DecisionResult): Result<DecisionResult, EvalError> {
    if Admissible(Json.Dict(Keys(r.metadata), Values(r.metadata))) then Success(r) else Failure(InvalidResult)
  }

  // ---- Evaluation ---------------------------------------------------------------------------------

  function Prompts(r: Request, render: Rendering): seq<string> {
    seq(|r.questions|, i requires 0 <= i < |r.questions| => PromptFor(r.questions[i].1, r.state, render))
  }

  /** The rest of the row loop. */
  function MapRows(
    qs: seq<(string, Question)>, render: Rendering, rows: seq<seq<real>>, c: Calibrator, exp: real -> real,
    r: DecisionResult)
    : Result<DecisionResult, EvalError>
    requires |qs| == |rows|
    decreases |qs|
  {
    if qs == [] then Finish(r)
    else match EvaluateOne(qs[0].1, render, rows[0], c, exp)
      case Failure(e) => Failure(e)
      case Success(m) =>
        MapRows(qs[1..], render, rows[1..], c, exp,
                DecisionResult(Put(r.answers, qs[0].0, m.answer), Put(r.metadata, qs[0].0, Payload(m, c))))
  }

  function Evaluated(r: Request, render: Rendering, c: Calibrator, exp: real -> real, forward: Forward)
    : Result<DecisionResult, EvalError>
  {
    if r.model.Some? && r.model.value != REPO_ID then Failure(UnsupportedModel)
    else match forward(Prompts(r, render))
      case None => Failure(RuntimeFailed)
      case Some(output) =>
        match LogitsOf(output, |r.questions|)
        case Failure(f) => Failure(BadLogits(f))
        case Success(rows) =>
          ParsedCount(output);
          MapRows(r.questions, render, rows, c, exp, DecisionResult([], []))
  }

  method Evaluate(r: Request, render: Rendering, c: Calibrator, exp: real -> real, forward: Forward)
    returns (result: Result<DecisionResult, EvalError>)
    ensures result == Evaluated(r, render, c, exp, forward)
  {
    if r.model.Some? && r.model.value != REPO_ID { return Failure(UnsupportedModel); }
    var prompts := BuildPrompts(r.questions, q => PromptFor(q, r.state, render));
    assert prompts == Prompts(r, render);
    var output := forward(prompts);
    if output.None? { return Failure(RuntimeFailed); }
    var parsed := LogitsRows(output.value, |r.questions|);
    if parsed.Failure? { return Failure(BadLogits(parsed.error)); }
    ParsedCount(output.value);
    result := MapAll(r.questions, render, parsed.value, c, exp);
  }

  /** The prompt loop of `evaluate`. */
  method BuildPrompts(qs: seq<(string, Question)>, prompt: Question -> string) returns (prompts: seq<string>)
    ensures |prompts| == |qs| && forall i :: 0 <= i < |qs| ==> prompts[i] == prompt(qs[i].1)
  {
    prompts := [];
    for i := 0 to |qs|
      invariant |prompts| == i && forall j :: 0 <= j < i ==> prompts[j] == prompt(qs[j].1)
    {
      prompts := prompts + [prompt(qs[i].1)];
    }
  }

  /** The row loop of `evaluate`. */
  method MapAll(
    qs: seq<(string, Question)>, render: Rendering, rows: seq<seq<real>>, c: Calibrator, exp: real -> real)
    returns (result: Result<DecisionResult, EvalError>)
    requires |qs| == |rows|
    ensures result == MapRows(qs, render, rows, c, exp, DecisionResult([], []))
  {
    var answers: Dict<Answer>, metadata: Dict<Json> := [], [];
    for i := 0 to |qs|
      invariant MapRows(qs[i..], render, rows[i..], c, exp, DecisionResult(answers, metadata)) ==
                MapRows(qs, render, rows, c, exp, DecisionResult([], []))
    {
      var (id, question) := qs[i];
      assert qs[i..][1..] == qs[i + 1..] && rows[i..][1..] == rows[i + 1..];
      var mapped := EvaluateOne(question, render, rows[i], c, exp);
      if mapped.Failure? { return Failure(mapped.error); }
      answers := Put(answers, id, mapped.value.answer);
      metadata := Put(metadata, id, Payload(mapped.value, c));
    }
    result := Finish(DecisionResult(answers, metadata));
  }

  lemma {:induction false} ParsedCount(rows: seq<seq<Cell>>)
    ensures ParseRows(rows).Success? ==> |ParseRows(rows).value| == |rows|
  {
    if rows != [] { ParsedCount(rows[..|rows| - 1]); }
  }
}
