/** The refused case exists: a concrete request. */
module RlcdCounterexample {
  import opened Wrappers
  import opened Text
  import opened Json
  import opened Questions
  import opened Validation
  import opened Registry
  import opened Prompt
  import opened Calibration
  import opened Rlcd
  import opened RlcdAnswers

  /** A value of 9,998 nodes. */
  function Big(): Json {
    List(seq(9997, _ => Null))
  }

  function Overflowing(): Question {
    Choice("pick one", ["a", "b"], [Big(), Null])
  }

  function OverflowingRequest(): Request {
    Request(Str("s"), None, [("q", Overflowing())])
  }

  /** What the two values are rendered as holds no marker: Python renders them as brackets, commas and None. */
  predicate PlainValues(render: Rendering) {
    !Marked(render.Plain(Big())) && !Marked(render.Plain(Null))
  }

  lemma {:induction false} NullNodes(n: nat)
    ensures NodesAll(seq(n, _ => Null)) == n && HeightAll(seq(n, _ => Null)) <= 1
  {
    if n > 0 {
      assert seq(n, _ => Null)[1..] == seq(n - 1, _ => Null);
      NullNodes(n - 1);
    }
  }

  lemma TwoNodes(a: Json, b: Json)
    ensures NodesAll([a, b]) == Nodes(a) + Nodes(b)
    ensures HeightAll([a, b]) == if Height(a) > Height(b) then Height(a) + 1 else Height(b) + 1
  {
    Single(b);
    assert [a, b][1..] == [b];
  }

  lemma OverflowingNodes()
    ensures Overfull(Overflowing()) && Height(CriteriaJson(Overflowing())) <= MAX_JSON_DEPTH
  {
    NullNodes(9997);
    TwoNodes(Big(), Null);
  }

  lemma PairValid(a: Json, b: Json)
    requires Admissible(Dict(["a", "b"], [a, b]))
    ensures ValidQuestion(Choice("pick one", ["a", "b"], [a, b]))
  {
    assert "pick one"[0] == 'p' && "a"[0] == 'a' && "b"[0] == 'b';
    assert !IsSpace('p') && !IsSpace('a') && !IsSpace('b');
  }

  lemma OverflowingValid()
    ensures ValidQuestion(Overflowing()) && Overfull(Overflowing())
  {
    OverflowingNodes();
    PairValid(Big(), Null);
  }

  lemma OverflowingParts(render: Rendering)
    ensures TextParts(Overflowing(), Str("s"), render) == ["pick one", "s", render.Plain(Big()), render.Plain(Null)]
  {
    var parts := TextParts(Overflowing(), Str("s"), render);
    assert |parts| == 4 && parts[0] == "pick one" && parts[1] == "s";
    assert parts[2] == render.Plain(Big()) && parts[3] == render.Plain(Null);
  }

  lemma SampleUnmarked()
    ensures !Marked("pick one") && !Marked("s")
  {
    MarkedHasBracket("pick one");
    MarkedHasBracket("s");
  }

  lemma OverflowingUnmarked(render: Rendering)
    requires PlainValues(render)
    ensures MarkerFree(Overflowing(), Str("s"), RLCD.reservedMarkers, render)
  {
    MarkerFreeMeans(Overflowing(), Str("s"), render);
    OverflowingParts(render);
    SampleUnmarked();
  }

  lemma OverflowingAcceptable(render: Rendering)
    requires PlainValues(render)
    ensures AcceptableQuestion(Overflowing(), Str("s"), RLCD, render)
  {
    OverflowingUnmarked(render);
    assert ABSTAIN_ANSWER_ID[0] == '_' && "a"[0] == 'a' && "b"[0] == 'b';
  }

  lemma RequestAccepted(render: Rendering)
    requires PlainValues(render)
    ensures ValidModel(OverflowingRequest()) && Acceptable(OverflowingRequest(), RLCD, render)
  {
    OverflowingValid();
    OverflowingAcceptable(render);
    var r := OverflowingRequest();
    assert "q"[0] == 'q' && !IsSpace('q');
    assert QuestionIds(r.questions) == ["q"];
  }

  /**
   This request is valid and, under any rendering that puts no marker into its two values, passes
   validation; yet with logits that favour abstention no calibrator gives it a result: the
   abstention's legend has one node too many.
   */
  lemma OverfullAbstentionFails(render: Rendering, c: Calibrator, exp: real -> real)
    returns (output: seq<seq<Cell>>)
    requires PlainValues(render) && Calibrates(c) && ExpLike(exp)
    ensures ValidModel(OverflowingRequest()) && Acceptable(OverflowingRequest(), RLCD, render)
    ensures Wellformed(output, 1)
    ensures Evaluated(OverflowingRequest(), render, c, exp, Gives(output)) == Failure(InvalidAnswer)
  {
    RequestAccepted(render);
    OverflowingValid();
    var r := OverflowingRequest();
    output := OverfullRefused(r, render, r.questions[0]);
    EvaluatedOn(r, render, c, exp, output);
  }
}
