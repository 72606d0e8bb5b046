/** Backend capabilities and the request checks derived from them. */
module Validation {
  import opened Wrappers
  import opened Text
  import opened Json
  import opened Questions
  import opened Sorting

  datatype Backend = Typesafe | SimpleJev | Needle | Rlcd | OpenRouter | OtherBackend(name: string)

  datatype Capabilities = Capabilities(
    backend: Backend,
    questionTypes: set<QuestionType>,
    calibrated: bool,
    allowsJsonState: bool,
    explicitAbstention: bool,
    supportedTotals: Option<set<nat>>,
    reservedMarkers: seq<string>,
    reservedIds: set<string>)

  datatype PathPart = Name(s: string) | Index(i: nat)

  datatype Issue = Issue(code: string, path: seq<PathPart>, message: string)

  /** An issue with the message that its code has for this detail. */
  function IssueOf(render: Rendering, code: string, path: seq<PathPart>, detail: string): Issue {
    Issue(code, path, render.say(code, detail))
  }

  function QuestionPath(id: string): seq<PathPart> {
    [Name("questions"), Name(id)]
  }

  function CriteriaPath(id: string): seq<PathPart> {
    QuestionPath(id) + [Name("criteria")]
  }

  predicate IsNumberOrBool(j: Json) {
    j.Bool? || j.Int? || j.Float?
  }

  /** The text that question and state contribute to a prompt. */
  function TextParts(q: Question, state: Json, render: Rendering): seq<string> {
    [q.instructions, render.StateText(state)] +
    match q
    case Noul(_, _) => []
    case Choice(_, _, values) => seq(|values|, i requires 0 <= i < |values| => render.Plain(values[i]))
    case Score(_, levels) => seq(|levels|, i requires 0 <= i < |levels| => render.dumps(levels[i]))
  }

  /** Python's "\n".join. */
  function JoinLines(parts: seq<string>): string {
    if parts == [] then ""
    else if |parts| == 1 then parts[0]
    else parts[0] + "\n" + JoinLines(parts[1..])
  }

  function MarkerIssues(id: string, combined: string, markers: seq<string>, render: Rendering): seq<Issue> {
    if markers == [] then []
    else
      (if markers[0] != "" && Contains(combined, markers[0])
       then [IssueOf(render, "reserved_input_marker", QuestionPath(id), markers[0])] else []) +
      MarkerIssues(id, combined, markers[1..], render)
  }

  method ValidateReservedInputMarkers(
    id: string, q: Question, state: Json, markers: seq<string>, render: Rendering, issues: seq<Issue>)
    returns (r: seq<Issue>)
    ensures r == issues + MarkerIssues(id, JoinLines(TextParts(q, state, render)), markers, render)
  {
    var combined := JoinLines(TextParts(q, state, render));
    r := issues;
    for i := 0 to |markers|
      invariant r + MarkerIssues(id, combined, markers[i..], render) ==
                issues + MarkerIssues(id, combined, markers, render)
    {
      assert markers[i..][1..] == markers[i + 1..];
      if markers[i] != "" && Contains(combined, markers[i]) {
        r := r + [IssueOf(render, "reserved_input_marker", QuestionPath(id), markers[i])];
      }
    }
  }

  /** Candidate answers of a question: its criteria, and one more for an explicit abstention. */
  function TotalCandidates(q: Question, caps: Capabilities): nat {
    var abstain := if caps.explicitAbstention then 1 else 0;
    match q
    case Noul(_, _) => 3
    case Choice(_, keys, _) => |keys| + abstain
    case Score(_, levels) => |levels| + abstain
  }

  predicate TotalSupported(q: Question, caps: Capabilities) {
    caps.supportedTotals.Some? ==> TotalCandidates(q, caps) in caps.supportedTotals.value
  }

  function TotalIssues(id: string, q: Question, caps: Capabilities, render: Rendering): seq<Issue> {
    if TotalSupported(q, caps) then []
    else [IssueOf(render, "total_candidates_not_supported", CriteriaPath(id), Decimal(TotalCandidates(q, caps)))]
  }

  /** Of the option ids, those that collide. */
  function ReservedIdIssues(id: string, keys: seq<string>, reserved: set<string>, render: Rendering): seq<Issue> {
    if keys == [] then []
    else
      (if keys[0] in reserved
       then [IssueOf(render, "reserved_answer_id_collision", CriteriaPath(id) + [Name(keys[0])], keys[0])] else []) +
      ReservedIdIssues(id, keys[1..], reserved, render)
  }

  /** Visits the option ids in their sorted order. */
  method ValidateReservedAnswerIds(
    id: string, q: Question, reserved: set<string>, render: Rendering, issues: seq<Issue>)
    returns (r: seq<Issue>)
    ensures r == issues + if q.Choice? then ReservedIdIssues(id, Sort(StrLe, q.keys), reserved, render) else []
  {
    r := issues;
    if !q.Choice? { return; }
    var keys := Sort(StrLe, q.keys);
    for i := 0 to |keys|
      invariant r + ReservedIdIssues(id, keys[i..], reserved, render) ==
                issues + ReservedIdIssues(id, keys, reserved, render)
    {
      assert keys[i..][1..] == keys[i + 1..];
      if keys[i] in reserved {
        r := r + [IssueOf(render, "reserved_answer_id_collision", CriteriaPath(id) + [Name(keys[i])], keys[i])];
      }
    }
  }

  /** The criteria entries, each with its key or index. */
  function Entries(q: Question): seq<(PathPart, Json)> {
    match q
    case Noul(_, None) => []
    case Noul(_, Some(c)) =>
      if c.Dict? && |c.keys| == |c.items|
      then seq(|c.items|, i requires 0 <= i < |c.items| => (Name(c.keys[i]), c.items[i])) else []
    case Choice(_, keys, values) =>
      if |keys| == |values|
      then seq(|values|, i requires 0 <= i < |values| => (Name(keys[i]), values[i])) else []
    case Score(_, levels) => seq(|levels|, i requires 0 <= i < |levels| => (Index(i), levels[i]))
  }

  function ScalarIssues(id: string, entries: seq<(PathPart, Json)>, render: Rendering): seq<Issue> {
    if entries == [] then []
    else
      (if IsNumberOrBool(entries[0].1)
       then [IssueOf(render, "simple_jev_scalar_entry_not_supported", CriteriaPath(id) + [entries[0].0], "")] else []) +
      ScalarIssues(id, entries[1..], render)
  }

  method ValidateScalarEntries(id: string, q: Question, render: Rendering, issues: seq<Issue>)
    returns (r: seq<Issue>)
    ensures r == issues + ScalarIssues(id, Entries(q), render)
  {
    r := issues;
    var entries := Entries(q);
    for i := 0 to |entries|
      invariant r + ScalarIssues(id, entries[i..], render) == issues + ScalarIssues(id, entries, render)
    {
      assert entries[i..][1..] == entries[i + 1..];
      if IsNumberOrBool(entries[i].1) {
        r := r + [IssueOf(render, "simple_jev_scalar_entry_not_supported", CriteriaPath(id) + [entries[i].0], "")];
      }
    }
  }

  function TypeIssues(id: string, q: Question, caps: Capabilities, render: Rendering): seq<Issue> {
    if TypeOf(q) in caps.questionTypes then []
    else [IssueOf(render, "question_type_not_supported", QuestionPath(id) + [Name("type")], TypeText(TypeOf(q)))]
  }

  function TypeText(t: QuestionType): string {
    match t case NoulType => "noul" case ChoiceType => "choice" case ScoreType => "score"
  }

  predicate TooManyLevels(q: Question, caps: Capabilities) {
    caps.backend.Typesafe? && q.Score? && |q.levels| > 10
  }

  function LevelIssues(id: string, q: Question, caps: Capabilities, render: Rendering): seq<Issue> {
    if TooManyLevels(q, caps) then [IssueOf(render, "typesafe_score_level_limit", CriteriaPath(id), "")] else []
  }

  function OptionIdIssues(id: string, q: Question, caps: Capabilities, render: Rendering): seq<Issue> {
    if q.Choice? then ReservedIdIssues(id, Sort(StrLe, q.keys), caps.reservedIds, render) else []
  }

  function EntryIssues(id: string, q: Question, caps: Capabilities, render: Rendering): seq<Issue> {
    if caps.backend.SimpleJev? then ScalarIssues(id, Entries(q), render) else []
  }

  /** The issues after one question has been checked, given those before it. */
  function WithQuestionIssues(
    issues: seq<Issue>, id: string, q: Question, state: Json, caps: Capabilities, render: Rendering): seq<Issue>
  {
    issues + TypeIssues(id, q, caps, render) + LevelIssues(id, q, caps, render) + TotalIssues(id, q, caps, render) +
    MarkerIssues(id, JoinLines(TextParts(q, state, render)), caps.reservedMarkers, render) +
    OptionIdIssues(id, q, caps, render) + EntryIssues(id, q, caps, render)
  }

  function WithAllQuestionIssues(
    issues: seq<Issue>, qs: seq<(string, Question)>, state: Json, caps: Capabilities, render: Rendering): seq<Issue>
    decreases |qs|
  {
    if qs == [] then issues
    else WithAllQuestionIssues(
           WithQuestionIssues(issues, qs[0].0, qs[0].1, state, caps, render), qs[1..], state, caps, render)
  }

  function StateIssues(state: Json, caps: Capabilities, render: Rendering): seq<Issue> {
    (if !caps.allowsJsonState && !state.Str?
     then [IssueOf(render, "json_state_not_supported", [Name("state")], "")] else []) +
    (if caps.backend.SimpleJev? && IsNumberOrBool(state)
     then [IssueOf(render, "simple_jev_scalar_state_not_supported", [Name("state")], "")] else []) +
    (if caps.backend.Typesafe? && !(state.Str? || state.List? || state.Dict?)
     then [IssueOf(render, "typesafe_state_type_not_supported", [Name("state")], "")] else [])
  }

  // ---- The order of questions and issues ------------------------------------------------------

  function QuestionLe(a: (string, Question), b: (string, Question)): bool {
    StrLe(a.0, b.0)
  }

  /** A part of a path as the sort key has it. */
  function PartText(p: PathPart): string {
    match p case Name(s) => "str:" + s case Index(i) => "int:" + Decimal(i)
  }

  function PathTexts(path: seq<PathPart>): seq<string> {
    seq(|path|, i requires 0 <= i < |path| => PartText(path[i]))
  }

  /** Issues are ordered by path, then code, then message. */
  function KeyLe(a: (seq<string>, string, string), b: (seq<string>, string, string)): bool {
    if a.0 != b.0 then TupleLe(a.0, b.0)
    else if a.1 != b.1 then StrLe(a.1, b.1)
    else StrLe(a.2, b.2)
  }

  function IssueLe(a: Issue, b: Issue): bool {
    KeyLe((PathTexts(a.path), a.code, a.message), (PathTexts(b.path), b.code, b.message))
  }

  /** All the issues, in the order in which they are found. */
  function Collected(r: Request, caps: Capabilities, render: Rendering): seq<Issue> {
    WithAllQuestionIssues(StateIssues(r.state, caps, render), Sort(QuestionLe, r.questions), r.state, caps, render)
  }

  /** The issues that `validate_request` returns. */
  function Reported(r: Request, caps: Capabilities, render: Rendering): seq<Issue> {
    Sort(IssueLe, Collected(r, caps, render))
  }

  // ---- Validation --------------------------------------------------------------------------

  /** `validate_request`: every issue is collected and sorted; the request is valid when there is none. */
  method ValidateRequest(r: Request, caps: Capabilities, render: Rendering) returns (valid: bool, issues: seq<Issue>)
    ensures issues == Reported(r, caps, render)
    ensures valid <==> Acceptable(r, caps, render)
  {
    var found := ValidateState(r.state, caps, render);
    found := ValidateQuestions(Sort(QuestionLe, r.questions), r.state, caps, render, found);
    NothingReported(r, caps, render);
    issues := Sort(IssueLe, found);
    valid := issues == [];
  }

  method ValidateState(state: Json, caps: Capabilities, render: Rendering) returns (issues: seq<Issue>)
    ensures issues == StateIssues(state, caps, render)
  {
    issues := [];
    if !caps.allowsJsonState && !state.Str? {
      issues := issues + [IssueOf(render, "json_state_not_supported", [Name("state")], "")];
    }
    if caps.backend.SimpleJev? && IsNumberOrBool(state) {
      issues := issues + [IssueOf(render, "simple_jev_scalar_state_not_supported", [Name("state")], "")];
    }
    if caps.backend.Typesafe? && !(state.Str? || state.List? || state.Dict?) {
      issues := issues + [IssueOf(render, "typesafe_state_type_not_supported", [Name("state")], "")];
    }
  }

  /** The loop of `validate_request` over the questions. */
  method ValidateQuestions(
    qs: seq<(string, Question)>, state: Json, caps: Capabilities, render: Rendering, before: seq<Issue>)
    returns (issues: seq<Issue>)
    ensures issues == WithAllQuestionIssues(before, qs, state, caps, render)
  {
    issues := before;
    for i := 0 to |qs|
      invariant WithAllQuestionIssues(issues, qs[i..], state, caps, render)
             == WithAllQuestionIssues(before, qs, state, caps, render)
    {
      assert qs[i..][1..] == qs[i + 1..];
      issues := ValidateQuestion(qs[i].0, qs[i].1, state, caps, render, issues);
    }
  }

  /** The loop body of `validate_request`. */
  method ValidateQuestion(
    id: string, q: Question, state: Json, caps: Capabilities, render: Rendering, before: seq<Issue>)
    returns (issues: seq<Issue>)
    ensures issues == WithQuestionIssues(before, id, q, state, caps, render)
  {
    issues := before;
    if TypeOf(q) !in caps.questionTypes {
      issues := issues +
        [IssueOf(render, "question_type_not_supported", QuestionPath(id) + [Name("type")], TypeText(TypeOf(q)))];
    }
    assert issues == before + TypeIssues(id, q, caps, render);
    issues := ValidateQuestionLevels(id, q, caps, render, issues);
    issues := ValidateCandidateTotals(id, q, caps, render, issues);
    issues := ValidateReservedInputMarkers(id, q, state, caps.reservedMarkers, render, issues);
    issues := ValidateReservedAnswerIds(id, q, caps.reservedIds, render, issues);
    if caps.backend.SimpleJev? {
      issues := ValidateScalarEntries(id, q, render, issues);
    }
    assert EntryIssues(id, q, caps, render) ==
           if caps.backend.SimpleJev? then ScalarIssues(id, Entries(q), render) else [];
  }

  method ValidateQuestionLevels(id: string, q: Question, caps: Capabilities, render: Rendering, issues: seq<Issue>)
    returns (r: seq<Issue>)
    ensures r == issues + LevelIssues(id, q, caps, render)
  {
    r := issues;
    if caps.backend.Typesafe? && q.Score? && |q.levels| > 10 {
      r := r + [IssueOf(render, "typesafe_score_level_limit", CriteriaPath(id), "")];
    }
  }

  method ValidateCandidateTotals(id: string, q: Question, caps: Capabilities, render: Rendering, issues: seq<Issue>)
    returns (r: seq<Issue>)
    ensures r == issues + TotalIssues(id, q, caps, render)
  {
    r := issues;
    if caps.supportedTotals.None? { return; }
    var total := TotalCandidates(q, caps);
    if total !in caps.supportedTotals.value {
      r := r + [IssueOf(render, "total_candidates_not_supported", CriteriaPath(id), Decimal(total))];
    }
  }

  // ---- What a request without issues is ------------------------------------------

  predicate MarkerFree(q: Question, state: Json, markers: seq<string>, render: Rendering) {
    forall m | m in markers && m != "" :: !Contains(JoinLines(TextParts(q, state, render)), m)
  }

  predicate AcceptableQuestion(q: Question, state: Json, caps: Capabilities, render: Rendering) {
    && TypeOf(q) in caps.questionTypes
    && TotalSupported(q, caps)
    && MarkerFree(q, state, caps.reservedMarkers, render)
    && (q.Choice? ==> forall k | k in q.keys :: k !in caps.reservedIds)
    && (caps.backend.Typesafe? && q.Score? ==> |q.levels| <= 10)
    && (caps.backend.SimpleJev? ==> forall e | e in Entries(q) :: !IsNumberOrBool(e.1))
  }

  predicate AcceptableState(state: Json, caps: Capabilities) {
    && (caps.allowsJsonState || state.Str?)
    && (caps.backend.SimpleJev? ==> !IsNumberOrBool(state))
    && (caps.backend.Typesafe? ==> state.Str? || state.List? || state.Dict?)
  }

  predicate Acceptable(r: Request, caps: Capabilities, render: Rendering) {
    AcceptableState(r.state, caps) && AllAcceptable(r.questions, r.state, caps, render)
  }

  lemma {:induction false} NoMarkerIssues(id: string, combined: string, markers: seq<string>, render: Rendering)
    ensures MarkerIssues(id, combined, markers, render) == [] <==>
            forall m | m in markers && m != "" :: !Contains(combined, m)
  {
    if markers != [] {
      NoMarkerIssues(id, combined, markers[1..], render);
      assert markers == [markers[0]] + markers[1..];
    }
  }

  lemma {:induction false} NoReservedIdIssues(id: string, keys: seq<string>, reserved: set<string>, render: Rendering)
    ensures ReservedIdIssues(id, keys, reserved, render) == [] <==> forall k | k in keys :: k !in reserved
  {
    if keys != [] {
      NoReservedIdIssues(id, keys[1..], reserved, render);
      assert keys == [keys[0]] + keys[1..];
    }
  }

  lemma {:induction false} NoScalarIssues(id: string, entries: seq<(PathPart, Json)>, render: Rendering)
    ensures ScalarIssues(id, entries, render) == [] <==> forall e | e in entries :: !IsNumberOrBool(e.1)
  {
    if entries != [] {
      NoScalarIssues(id, entries[1..], render);
      assert entries == [entries[0]] + entries[1..];
    }
  }

  lemma NoOptionIdIssues(id: string, q: Question, caps: Capabilities, render: Rendering)
    ensures OptionIdIssues(id, q, caps, render) == [] <==>
            (q.Choice? ==> forall k | k in q.keys :: k !in caps.reservedIds)
  {
    if q.Choice? {
      NoReservedIdIssues(id, Sort(StrLe, q.keys), caps.reservedIds, render);
      StrLinear();
      SortMembers(StrLe, q.keys);
    }
  }

  lemma AllEmpty<T>(a: seq<T>, b: seq<T>, c: seq<T>, d: seq<T>, e: seq<T>, f: seq<T>, g: seq<T>)
    ensures a + b + c + d + e + f + g == [] <==>
            a == [] && b == [] && c == [] && d == [] && e == [] && f == [] && g == []
  {
    assert |a + b + c + d + e + f + g| == |a| + |b| + |c| + |d| + |e| + |f| + |g|;
  }

  lemma NoQuestionIssues(
    issues: seq<Issue>, id: string, q: Question, state: Json, caps: Capabilities, render: Rendering)
    ensures WithQuestionIssues(issues, id, q, state, caps, render) == [] <==>
            issues == [] && AcceptableQuestion(q, state, caps, render)
  {
    var combined := JoinLines(TextParts(q, state, render));
    NoMarkerIssues(id, combined, caps.reservedMarkers, render);
    NoOptionIdIssues(id, q, caps, render);
    NoScalarIssues(id, Entries(q), render);
    AllEmpty(
      issues, TypeIssues(id, q, caps, render), LevelIssues(id, q, caps, render), TotalIssues(id, q, caps, render),
      MarkerIssues(id, combined, caps.reservedMarkers, render), OptionIdIssues(id, q, caps, render),
      EntryIssues(id, q, caps, render));
  }

  predicate AllAcceptable(qs: seq<(string, Question)>, state: Json, caps: Capabilities, render: Rendering) {
    forall q | q in qs :: AcceptableQuestion(q.1, state, caps, render)
  }

  lemma FirstAcceptable(qs: seq<(string, Question)>, state: Json, caps: Capabilities, render: Rendering)
    requires qs != []
    ensures AllAcceptable(qs, state, caps, render) <==>
            AcceptableQuestion(qs[0].1, state, caps, render) && AllAcceptable(qs[1..], state, caps, render)
  {
    assert qs == [qs[0]] + qs[1..];
  }

  /** Validation is exact: no issue is reported if and only if state and questions are acceptable. */
  lemma {:induction false} NoIssues(
    issues: seq<Issue>, qs: seq<(string, Question)>, state: Json, caps: Capabilities, render: Rendering)
    ensures WithAllQuestionIssues(issues, qs, state, caps, render) == [] <==>
            issues == [] && AllAcceptable(qs, state, caps, render)
    decreases |qs|
  {
    if qs != [] {
      NoQuestionIssues(issues, qs[0].0, qs[0].1, state, caps, render);
      NoIssues(WithQuestionIssues(issues, qs[0].0, qs[0].1, state, caps, render), qs[1..], state, caps, render);
      FirstAcceptable(qs, state, caps, render);
    }
  }

  // ---- What is reported, and in what order -------------------------------------------------

  lemma QuestionsLinear()
    ensures Linear(QuestionLe)
  {
    StrLinear();
  }

  lemma KeyTotal(a: (seq<string>, string, string), b: (seq<string>, string, string))
    ensures KeyLe(a, b) || KeyLe(b, a)
  {
    TupleTotal(a.0, b.0);
    StrTotal(a.1, b.1);
    StrTotal(a.2, b.2);
  }

  lemma KeyTransitive(
    a: (seq<string>, string, string), b: (seq<string>, string, string), c: (seq<string>, string, string))
    requires KeyLe(a, b) && KeyLe(b, c)
    ensures KeyLe(a, c)
  {
    TupleTotal(a.0, b.0);
    TupleTotal(b.0, c.0);
    if a.0 != b.0 && b.0 != c.0 { TupleTransitive(a.0, b.0, c.0); }
    if a.0 == b.0 == c.0 {
      StrTotal(a.1, b.1);
      StrTotal(b.1, c.1);
      if a.1 != b.1 && b.1 != c.1 { StrTransitive(a.1, b.1, c.1); }
      if a.1 == b.1 == c.1 { StrTransitive(a.2, b.2, c.2); }
    }
  }

  lemma IssuesLinear()
    ensures Linear(IssueLe)
  {
    forall a: Issue, b: Issue
      ensures IssueLe(a, b) || IssueLe(b, a)
    {
      KeyTotal((PathTexts(a.path), a.code, a.message), (PathTexts(b.path), b.code, b.message));
    }
    forall a: Issue, b: Issue, c: Issue | IssueLe(a, b) && IssueLe(b, c)
      ensures IssueLe(a, c)
    {
      KeyTransitive((PathTexts(a.path), a.code, a.message), (PathTexts(b.path), b.code, b.message),
                    (PathTexts(c.path), c.code, c.message));
    }
  }

  lemma NothingReported(r: Request, caps: Capabilities, render: Rendering)
    ensures Reported(r, caps, render) == [] <==> Acceptable(r, caps, render)
  {
    IssuesLinear();
    QuestionsLinear();
    SortSound(IssueLe, Collected(r, caps, render));
    SortMembers(QuestionLe, r.questions);
    NoIssues(StateIssues(r.state, caps, render), Sort(QuestionLe, r.questions), r.state, caps, render);
    assert |multiset(Reported(r, caps, render))| == |multiset(Collected(r, caps, render))|;
  }

  /**
   The report is exactly what the checks find, ordered by path, code and message; and it is the
   same in whatever order the request's questions come.
   */
  lemma ReportIsDeterministic(p: Request, q: Request, caps: Capabilities, render: Rendering)
    requires p.state == q.state && multiset(p.questions) == multiset(q.questions)
    requires Distinct(QuestionIds(p.questions))
    ensures Ordered(IssueLe, Reported(p, caps, render))
    ensures multiset(Reported(p, caps, render)) == multiset(Collected(p, caps, render))
    ensures Reported(p, caps, render) == Reported(q, caps, render)
  {
    IssuesLinear();
    SortSound(IssueLe, Collected(p, caps, render));
    QuestionsLinear();
    IdsUntie(p.questions);
    SortIgnoresOrder(QuestionLe, p.questions, q.questions);
  }

  lemma IdsUntie(qs: seq<(string, Question)>)
    requires Distinct(QuestionIds(qs))
    ensures Untied(QuestionLe, qs)
  {
    forall x, y | x in qs && y in qs && QuestionLe(x, y) && QuestionLe(y, x)
      ensures x == y
    {
      StrTotal(x.0, y.0);
      var i :| 0 <= i < |qs| && qs[i] == x;
      var j :| 0 <= j < |qs| && qs[j] == y;
      assert QuestionIds(qs)[i] == QuestionIds(qs)[j];
    }
  }
}
