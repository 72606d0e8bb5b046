/** Prompt framing of the RLCD backend, and what can be read back from a prompt. */
module Prompt {
  import opened Text
  import opened Json
  import opened Questions
  import opened Validation
  import opened Registry

  const ABSTENTION_DESCRIPTION: string := "insufficient evidence"

  const IF_TRUE := "true: "
  const IF_FALSE := "false: not "
  const IT_IS := "It is "
  const CONTEXT := "Context:\n"
  const PROPOSITION := "\n\nEvaluate proposition: "
  const QUESTION := "Question: "
  const THEN_CONTEXT := "\n\nContext:\n"

  datatype Scored = Scored(id: string, shown: string)

  /** Candidates in fixed order: substantive first, abstention last. */
  function Substantive(q: Question, render: Rendering): seq<Scored> {
    match q
    case Noul(instructions, _) =>
      [Scored("true", IF_TRUE + instructions), Scored("false", IF_FALSE + instructions)]
    case Choice(_, keys, values) =>
      if |keys| == |values|
      then seq(|keys|, i requires 0 <= i < |keys| => Scored(keys[i], IT_IS + render.Plain(values[i]))) else []
    case Score(_, levels) =>
      seq(|levels|, i requires 0 <= i < |levels| =>
        Scored(Decimal(i), render.dumps(levels[i]) + (" (Value: " + Decimal(i) + ")")))
  }

  function CandidateList(q: Question, render: Rendering): seq<Scored> {
    Substantive(q, render) + [Scored(ABSTAIN_ANSWER_ID, ABSTENTION_DESCRIPTION)]
  }

  function QuestionText(q: Question, state: Json, render: Rendering): string {
    var text := render.StateText(state);
    if q.Noul? then CONTEXT + text + PROPOSITION + q.instructions
    else QUESTION + q.instructions + THEN_CONTEXT + text
  }

  function Framed(labels: seq<string>, text: string): string {
    if labels == [] then SEP_MARKER + text else LABEL_MARKER + labels[0] + Framed(labels[1..], text)
  }

  function Labels(cs: seq<Scored>): seq<string> {
    seq(|cs|, i requires 0 <= i < |cs| => cs[i].shown)
  }

  function PromptFor(q: Question, state: Json, render: Rendering): string {
    Framed(Labels(CandidateList(q, render)), QuestionText(q, state, render))
  }

  // ---- Reading a prompt back ---------------------------------------------------------------

  predicate MarkerAt(s: string, i: nat) {
    OccursAt(s, LABEL_MARKER, i) || OccursAt(s, SEP_MARKER, i)
  }

  predicate Unmarked(s: string) {
    forall i: nat :: i < |s| ==> !MarkerAt(s, i)
  }

  /** The position of the first marker, or the end. */
  function FirstMarker(s: string): (i: nat)
    ensures i <= |s| && (forall j: nat :: j < i ==> !MarkerAt(s, j)) && (i < |s| ==> MarkerAt(s, i))
  {
    FirstMarkerFrom(s, 0)
  }

  function FirstMarkerFrom(s: string, from: nat): (i: nat)
    requires from <= |s|
    ensures from <= i <= |s|
    ensures forall j: nat :: from <= j < i ==> !MarkerAt(s, j)
    ensures i < |s| ==> MarkerAt(s, i)
    decreases |s| - from
  {
    if from == |s| || MarkerAt(s, from) then from else FirstMarkerFrom(s, from + 1)
  }

  datatype Frame = Frame(separator: bool, text: string)

  /** Splits at every marker, leftmost first, as the tokenizer's special tokens do. */
  function Frames(s: string): seq<Frame>
    requires s == "" || MarkerAt(s, 0)
    decreases |s|
  {
    if s == "" then []
    else
      var separator := OccursAt(s, SEP_MARKER, 0);
      var rest := s[if separator then |SEP_MARKER| else |LABEL_MARKER|..];
      var end := FirstMarker(rest);
      [Frame(separator, rest[..end])] + Frames(rest[end..])
  }

  function ExpectedFrames(labels: seq<string>, text: string): seq<Frame> {
    if labels == [] then [Frame(true, text)] else [Frame(false, labels[0])] + ExpectedFrames(labels[1..], text)
  }

  lemma FramedStarts(labels: seq<string>, text: string)
    ensures MarkerAt(Framed(labels, text), 0)
    ensures OccursAt(Framed(labels, text), SEP_MARKER, 0) <==> labels == []
    ensures Framed(labels, text) != ""
  {
    var s := Framed(labels, text);
    if labels == [] {
      assert s[..|SEP_MARKER|] == SEP_MARKER;
    } else {
      assert s[..|LABEL_MARKER|] == LABEL_MARKER;
      assert s[2] == 'L' && SEP_MARKER[2] == 'S';
    }
  }

  /** A marker opens with two brackets, closes with one, and has no opening bracket in between. */
  predicate MarkerShape(m: string) {
    && |m| >= 7 && m[0] == '<' && m[1] == '<' && m[|m| - 1] == '>'
    && (forall d :: 2 <= d < |m| ==> m[d] != '<')
    && forall c | c in m :: c in "<>LABESP"
  }

  lemma MarkerShapes()
    ensures MarkerShape(LABEL_MARKER) && MarkerShape(SEP_MARKER)
  {
    var l, p := LABEL_MARKER, SEP_MARKER;
    assert l[2] == 'L' && l[3] == 'A' && l[4] == 'B' && l[5] == 'E' && l[6] == 'L' && l[7] == '>' && l[8] == '>';
    assert p[2] == 'S' && p[3] == 'E' && p[4] == 'P' && p[5] == '>' && p[6] == '>';
    var all := "<>LABESP";
    assert all[0] == '<' && all[1] == '>' && all[2] == 'L' && all[3] == 'A' && all[4] == 'B' && all[5] == 'E' &&
           all[6] == 'S' && all[7] == 'P';
  }

  predicate IsMarker(m: string) {
    m == LABEL_MARKER || m == SEP_MARKER
  }

  /** No marker straddles the boundary before a marker. */
  lemma NoStraddle(a: string, b: string, m: string, i: nat)
    requires IsMarker(m) && |b| >= 2 && b[0] == '<' && b[1] == '<'
    requires i < |a| && OccursAt(a + b, m, i)
    ensures OccursAt(a, m, i)
  {
    var s, d := a + b, |a| - i;
    if d < |m| {
      assert s[i..i + |m|][d] == s[|a|] == b[0];
      if d + 1 < |m| { assert s[i..i + |m|][d + 1] == s[|a| + 1] == b[1]; }
      MarkerShapes();
      assert false;
    }
    assert a[i..i + |m|] == s[i..i + |m|];
  }

  lemma MarkerOpens(s: string)
    requires MarkerAt(s, 0)
    ensures |s| >= 2 && s[0] == '<' && s[1] == '<'
  {
    MarkerShapes();
    var m := if OccursAt(s, LABEL_MARKER, 0) then LABEL_MARKER else SEP_MARKER;
    assert s[0..0 + |m|][0] == m[0] && s[0..0 + |m|][1] == m[1];
  }

  /** The first marker of unmarked text followed by a marker is that marker. */
  lemma FirstMarkerAfter(text: string, rest: string)
    requires Unmarked(text) && (rest == "" || MarkerAt(rest, 0))
    ensures FirstMarker(text + rest) == |text|
  {
    var s := text + rest;
    MarkerShapes();
    forall i: nat | i < |text|
      ensures !MarkerAt(s, i)
    {
      assert !MarkerAt(text, i);
      if rest != "" {
        MarkerOpens(rest);
        if OccursAt(s, LABEL_MARKER, i) { NoStraddle(text, rest, LABEL_MARKER, i); }
        if OccursAt(s, SEP_MARKER, i) { NoStraddle(text, rest, SEP_MARKER, i); }
      } else {
        assert s == text;
      }
    }
    if rest != "" {
      var m := if OccursAt(rest, LABEL_MARKER, 0) then LABEL_MARKER else SEP_MARKER;
      assert s[|text|..|text| + |m|] == rest[0..0 + |m|];
      assert MarkerAt(s, |text|);
    }
  }

  /** Framing round trip, for unmarked labels and text. */
  lemma {:induction false} FramesOfFramed(labels: seq<string>, text: string)
    requires Unmarked(text) && forall l | l in labels :: Unmarked(l)
    ensures (FramedStarts(labels, text); Frames(Framed(labels, text)) == ExpectedFrames(labels, text))
    decreases |labels|
  {
    var s := Framed(labels, text);
    FramedStarts(labels, text);
    if labels == [] {
      assert s[|SEP_MARKER|..] == text + "";
      FirstMarkerAfter(text, "");
      assert text[..|text|] == text && text[|text|..] == "";
    } else {
      var rest := Framed(labels[1..], text);
      FramedStarts(labels[1..], text);
      assert s[|LABEL_MARKER|..] == labels[0] + rest;
      FirstMarkerAfter(labels[0], rest);
      assert (labels[0] + rest)[..|labels[0]|] == labels[0] && (labels[0] + rest)[|labels[0]|..] == rest;
      FramesOfFramed(labels[1..], text);
    }
  }

  lemma PrefixOccurs(s: string, end: nat, m: string, i: nat)
    requires end <= |s|
    ensures OccursAt(s[..end], m, i) ==> OccursAt(s, m, i)
  {
    if OccursAt(s[..end], m, i) { assert s[..end][i..i + |m|] == s[i..i + |m|]; }
  }

  /** No frame ever holds a marker. */
  lemma {:induction false} FramesUnmarked(s: string)
    requires s == "" || MarkerAt(s, 0)
    ensures forall f | f in Frames(s) :: Unmarked(f.text)
    decreases |s|
  {
    if s != "" {
      var separator := OccursAt(s, SEP_MARKER, 0);
      var rest := s[if separator then |SEP_MARKER| else |LABEL_MARKER|..];
      var end := FirstMarker(rest);
      forall i: nat | i < |rest[..end]|
        ensures !MarkerAt(rest[..end], i)
      {
        assert !MarkerAt(rest, i);
        PrefixOccurs(rest, end, LABEL_MARKER, i);
        PrefixOccurs(rest, end, SEP_MARKER, i);
      }
      FramesUnmarked(rest[end..]);
    }
  }

  lemma {:induction false} ExpectedTexts(labels: seq<string>, text: string)
    requires forall f | f in ExpectedFrames(labels, text) :: Unmarked(f.text)
    ensures Unmarked(text) && forall l | l in labels :: Unmarked(l)
    decreases |labels|
  {
    if labels != [] {
      assert ExpectedFrames(labels, text)[0] == Frame(false, labels[0]);
      assert forall f | f in ExpectedFrames(labels[1..], text) :: f in ExpectedFrames(labels, text);
      ExpectedTexts(labels[1..], text);
      assert labels == [labels[0]] + labels[1..];
    } else {
      assert ExpectedFrames(labels, text)[0] == Frame(true, text);
    }
  }

  // ---- Marked text is made of marked parts ------------------------------------------------------

  /** Fixed text between caller-supplied parts: no brackets, and a character that no marker has. */
  predicate Glue(g: string) {
    (forall c | c in g :: c != '<' && c != '>') && (' ' in g || '\n' in g)
  }

  lemma ContainsAt(s: string, m: string, part: string, at: nat, i: nat)
    requires at + |part| <= |s| && s[at..at + |part|] == part && OccursAt(part, m, i)
    ensures Contains(s, m)
  {
    forall k | 0 <= k < |m|
      ensures s[at + i..at + i + |m|][k] == m[k]
    {
      assert s[at..at + |part|][i + k] == part[i + k] == part[i..i + |m|][k];
    }
    assert s[at + i..at + i + |m|] == m;
    assert OccursAt(s, m, at + i);
  }

  /** A marker does not hold glue, */
  lemma GlueNotInside(a: string, g: string, b: string, m: string, i: nat)
    requires IsMarker(m) && Glue(g) && OccursAt(a + g + b, m, i)
    ensures i > |a| || i + |m| < |a| + |g|
  {
    var s := a + g + b;
    if i <= |a| && i + |m| >= |a| + |g| {
      var c := if ' ' in g then ' ' else '\n';
      var k :| 0 <= k < |g| && g[k] == c;
      assert s[i..i + |m|][|a| + k - i] == s[|a| + k] == c;
      assert c in m;
      MarkerShapes();
      assert false;
    }
  }

  /** nor does it begin or end in glue, so it lies before or after. */
  lemma AroundGlue(a: string, g: string, b: string, m: string, i: nat)
    requires IsMarker(m) && Glue(g) && OccursAt(a + g + b, m, i)
    ensures i + |m| <= |a| || i >= |a| + |g|
  {
    var s := a + g + b;
    MarkerShapes();
    GlueNotInside(a, g, b, m, i);
    forall k | |a| <= k < |a| + |g|
      ensures s[k] == g[k - |a|] && s[k] != '<' && s[k] != '>'
    {
      assert g[k - |a|] in g;
    }
    assert s[i] == s[i..i + |m|][0] && s[i + |m| - 1] == s[i..i + |m|][|m| - 1];
  }

  /** Where a marker occurs in joined text, it occurs in one of the parts. */
  lemma OccursInPart(a: string, g: string, b: string, m: string, i: nat)
    requires IsMarker(m) && Glue(g) && OccursAt(a + g + b, m, i)
    ensures Contains(a, m) || Contains(b, m)
  {
    var s := a + g + b;
    AroundGlue(a, g, b, m, i);
    if i + |m| <= |a| {
      assert a[i..i + |m|] == s[i..i + |m|];
      assert OccursAt(a, m, i);
    } else {
      var j := i - |a| - |g|;
      assert b[j..j + |m|] == s[i..i + |m|];
      assert OccursAt(b, m, j);
    }
  }

  lemma PartInWhole(before: string, part: string, after: string, m: string)
    requires Contains(part, m)
    ensures Contains(before + part + after, m)
  {
    var s := before + part + after;
    var i :| 0 <= i <= |part| && OccursAt(part, m, i);
    assert s[|before|..|before| + |part|] == part;
    ContainsAt(s, m, part, |before|, i);
  }

  /** A marker is in joined text if and only if it is in one of the parts. */
  lemma GlueContains(a: string, g: string, b: string, m: string)
    requires IsMarker(m) && Glue(g)
    ensures Contains(a + g + b, m) <==> Contains(a, m) || Contains(b, m)
  {
    var s := a + g + b;
    if Contains(s, m) {
      var i :| 0 <= i <= |s| && OccursAt(s, m, i);
      OccursInPart(a, g, b, m, i);
    }
    if Contains(a, m) {
      PartInWhole("", a, g + b, m);
      assert "" + a + (g + b) == s;
    }
    if Contains(b, m) {
      PartInWhole(a + g, b, "", m);
      assert a + g + b + "" == s;
    }
  }

  lemma EmptyContains(m: string)
    requires IsMarker(m)
    ensures !Contains("", m)
  {
  }

  /** "marker in joined text" is "marker in some part". */
  lemma {:induction false} JoinContains(parts: seq<string>, m: string)
    requires IsMarker(m)
    ensures Contains(JoinLines(parts), m) <==> exists p | p in parts :: Contains(p, m)
  {
    if parts == [] {
      EmptyContains(m);
    } else {
      assert parts == [parts[0]] + parts[1..];
      if |parts| > 1 {
        assert Glue("\n") by { assert "\n"[0] == '\n'; }
        GlueContains(parts[0], "\n", JoinLines(parts[1..]), m);
        JoinContains(parts[1..], m);
      }
    }
  }

  predicate Marked(s: string) {
    Contains(s, LABEL_MARKER) || Contains(s, SEP_MARKER)
  }

  lemma MarkedIsNotUnmarked(s: string)
    ensures Unmarked(s) <==> !Marked(s)
  {
    if !Unmarked(s) {
      var i: nat :| i < |s| && MarkerAt(s, i);
    }
    if Marked(s) {
      var m := if Contains(s, LABEL_MARKER) then LABEL_MARKER else SEP_MARKER;
      var i :| 0 <= i <= |s| && OccursAt(s, m, i);
      assert i < |s| && MarkerAt(s, i);
    }
  }

  lemma GlueMarked(a: string, g: string, b: string)
    requires Glue(g)
    ensures Marked(a + g + b) <==> Marked(a) || Marked(b)
  {
    GlueContains(a, g, b, LABEL_MARKER);
    GlueContains(a, g, b, SEP_MARKER);
  }

  lemma Before(g: string, b: string)
    requires Glue(g)
    ensures Marked(g + b) <==> Marked(b)
  {
    GlueMarked("", g, b);
    EmptyContains(LABEL_MARKER);
    EmptyContains(SEP_MARKER);
    assert "" + g + b == g + b;
  }

  lemma After(a: string, g: string)
    requires Glue(g)
    ensures Marked(a + g) <==> Marked(a)
  {
    GlueMarked(a, g, "");
    EmptyContains(LABEL_MARKER);
    EmptyContains(SEP_MARKER);
    assert a + g + "" == a + g;
  }

  lemma {:induction false} DecimalDigits(n: nat)
    ensures forall c | c in Decimal(n) :: '0' <= c <= '9'
  {
    if n >= 10 { DecimalDigits(n / 10); }
  }

  lemma ValueGlue(i: nat)
    ensures Glue(" (Value: " + Decimal(i) + ")")
  {
    DecimalDigits(i);
    var a, b, c := " (Value: ", Decimal(i), ")";
    var g := a + b + c;
    assert g[0] == ' ';
    assert Bracketless(a) && Bracketless(c);
    forall x | x in g
      ensures x != '<' && x != '>'
    {
      assert x in a || x in b || x in c;
    }
  }

  predicate Bracketless(s: string) {
    forall c | c in s :: c != '<' && c != '>'
  }

  lemma FixedGlue()
    ensures Glue(IF_TRUE) && Glue(IF_FALSE) && Glue(IT_IS) && Glue(QUESTION)
    ensures Glue(CONTEXT) && Glue(PROPOSITION) && Glue(THEN_CONTEXT)
  {
    assert IF_TRUE[5] == ' ' && IF_FALSE[6] == ' ' && IT_IS[2] == ' ' && QUESTION[9] == ' ';
    assert CONTEXT[8] == '\n' && PROPOSITION[0] == '\n' && THEN_CONTEXT[0] == '\n';
  }

  /** A label is marked exactly when the part that the caller supplied is. */
  lemma LabelMarked(q: Question, state: Json, render: Rendering, i: nat)
    requires ValidQuestion(q) && i < |Substantive(q, render)|
    ensures
      var parts := TextParts(q, state, render);
      Marked(Substantive(q, render)[i].shown) <==>
      Marked(if q.Noul? then parts[0] else parts[i + 2])
  {
    match q {
      case Noul(instructions, _) => NoulMarked(instructions);
      case Choice(_, _, values) => ChoiceMarked(render.Plain(values[i]));
      case Score(_, levels) => ScoreMarked(render.dumps(levels[i]), i);
    }
  }

  lemma NoulMarked(instructions: string)
    ensures Marked(IF_TRUE + instructions) <==> Marked(instructions)
    ensures Marked(IF_FALSE + instructions) <==> Marked(instructions)
  {
    FixedGlue();
    Before(IF_TRUE, instructions);
    Before(IF_FALSE, instructions);
  }

  lemma ChoiceMarked(value: string)
    ensures Marked(IT_IS + value) <==> Marked(value)
  {
    FixedGlue();
    Before(IT_IS, value);
  }

  lemma ScoreMarked(level: string, i: nat)
    ensures Marked(level + (" (Value: " + Decimal(i) + ")")) <==> Marked(level)
  {
    ValueGlue(i);
    After(level, " (Value: " + Decimal(i) + ")");
  }

  lemma Between(first: string, a: string, g: string, b: string)
    requires Glue(first) && Glue(g)
    ensures Marked(first + a + g + b) <==> Marked(a) || Marked(b)
  {
    assert first + a + g + b == first + (a + g + b);
    Before(first, a + g + b);
    GlueMarked(a, g, b);
  }

  lemma TextMarked(q: Question, state: Json, render: Rendering)
    ensures Marked(QuestionText(q, state, render)) <==> Marked(q.instructions) || Marked(render.StateText(state))
  {
    FixedGlue();
    if q.Noul? {
      Between(CONTEXT, render.StateText(state), PROPOSITION, q.instructions);
    } else {
      Between(QUESTION, q.instructions, THEN_CONTEXT, render.StateText(state));
    }
  }

  // ---- Validation accepts exactly the prompts that can be read back ------------------------------

  ghost predicate PartsUnmarked(q: Question, state: Json, render: Rendering) {
    forall p | p in TextParts(q, state, render) :: !Marked(p)
  }

  lemma MarkerFreeMeans(q: Question, state: Json, render: Rendering)
    ensures MarkerFree(q, state, RLCD.reservedMarkers, render) <==> PartsUnmarked(q, state, render)
  {
    var parts := TextParts(q, state, render);
    var markers := [LABEL_MARKER, SEP_MARKER];
    JoinContains(parts, LABEL_MARKER);
    JoinContains(parts, SEP_MARKER);
    assert markers[0] in markers && markers[1] in markers;
  }

  ghost predicate PromptUnmarked(q: Question, state: Json, render: Rendering) {
    Unmarked(QuestionText(q, state, render)) &&
    forall l | l in Labels(CandidateList(q, render)) :: Unmarked(l)
  }

  lemma MarkedHasBracket(s: string)
    ensures Marked(s) ==> '<' in s
  {
    MarkerShapes();
    if Marked(s) {
      MarkedIsNotUnmarked(s);
      var i: nat :| i < |s| && MarkerAt(s, i);
      var m := if OccursAt(s, LABEL_MARKER, i) then LABEL_MARKER else SEP_MARKER;
      assert s[i] == s[i..i + |m|][0];
    }
  }

  lemma AbstentionUnmarked()
    ensures !Marked(ABSTENTION_DESCRIPTION)
  {
    MarkedHasBracket(ABSTENTION_DESCRIPTION);
  }

  /** Each label but the abstention is marked exactly when its part is, and so is the text. */
  ghost predicate Matched(labels: seq<string>, text: string, parts: seq<string>, noul: bool) {
    && |parts| >= 2 && |labels| >= 1 && (!noul ==> |parts| == |labels| + 1) && (noul ==> |parts| == 2)
    && (Unmarked(text) <==> !Marked(parts[0]) && !Marked(parts[1]))
    && (forall i :: 0 <= i < |labels| - 1 ==>
          (Unmarked(labels[i]) <==> !Marked(if noul then parts[0] else parts[i + 2])))
    && Unmarked(labels[|labels| - 1])
  }

  lemma MatchedUnmarked(labels: seq<string>, text: string, parts: seq<string>, noul: bool)
    requires Matched(labels, text, parts, noul)
    ensures (forall p | p in parts :: !Marked(p)) <==> Unmarked(text) && forall l | l in labels :: Unmarked(l)
  {
    if forall p | p in parts :: !Marked(p) {
      assert parts[0] in parts && parts[1] in parts;
      forall i: nat | i < |labels|
        ensures Unmarked(labels[i])
      {
        if i < |labels| - 1 && !noul { assert parts[i + 2] in parts; }
      }
    }
    if Unmarked(text) && forall l | l in labels :: Unmarked(l) {
      forall i: nat | i < |parts|
        ensures !Marked(parts[i])
      {
        if i >= 2 {
          assert labels[i - 2] in labels;
          assert Unmarked(labels[i - 2]) <==> !Marked(parts[(i - 2) + 2]);
        }
      }
    }
  }

  lemma PromptMatched(q: Question, state: Json, render: Rendering)
    requires ValidQuestion(q)
    ensures Matched(Labels(CandidateList(q, render)), QuestionText(q, state, render), TextParts(q, state, render),
                    q.Noul?)
  {
    var parts, subs := TextParts(q, state, render), Substantive(q, render);
    var labels := Labels(CandidateList(q, render));
    TextMarked(q, state, render);
    MarkedIsNotUnmarked(QuestionText(q, state, render));
    forall i: nat | i < |subs|
      ensures Unmarked(subs[i].shown) <==> !Marked(if q.Noul? then parts[0] else parts[i + 2])
    {
      LabelMarked(q, state, render, i);
      MarkedIsNotUnmarked(subs[i].shown);
    }
    AbstentionUnmarked();
    MarkedIsNotUnmarked(ABSTENTION_DESCRIPTION);
    assert forall i: nat :: i < |subs| ==> labels[i] == subs[i].shown;
  }

  lemma PartsMakePrompt(q: Question, state: Json, render: Rendering)
    requires ValidQuestion(q)
    ensures PartsUnmarked(q, state, render) <==> PromptUnmarked(q, state, render)
  {
    PromptMatched(q, state, render);
    MatchedUnmarked(
      Labels(CandidateList(q, render)), QuestionText(q, state, render), TextParts(q, state, render), q.Noul?);
  }

  /**
   The framing round trip, and that the marker check is exact for it: reading the prompt back
   gives the labels in order and then the question text if and only if validation finds no
   reserved marker in the question's text.
   */
  lemma FramingExact(q: Question, state: Json, render: Rendering)
    requires ValidQuestion(q)
    ensures
      var labels, text := Labels(CandidateList(q, render)), QuestionText(q, state, render);
      MarkerFree(q, state, RLCD.reservedMarkers, render) <==>
      (FramedStarts(labels, text); Frames(PromptFor(q, state, render)) == ExpectedFrames(labels, text))
  {
    var labels, text := Labels(CandidateList(q, render)), QuestionText(q, state, render);
    FramedStarts(labels, text);
    MarkerFreeMeans(q, state, render);
    PartsMakePrompt(q, state, render);
    if PromptUnmarked(q, state, render) { FramesOfFramed(labels, text); }
    if Frames(PromptFor(q, state, render)) == ExpectedFrames(labels, text) {
      FramesUnmarked(PromptFor(q, state, render));
      ExpectedTexts(labels, text);
    }
  }
}
