/** What a validation report says: each issue with its code, path and message, said of the request alone. */
module Reports {
  import opened Wrappers
  import opened Text
  import opened Json
  import opened Questions
  import opened Sorting
  import opened Validation

  predicate Is(render: Rendering, x: Issue, code: string, path: seq<PathPart>, detail: string) {
    x.code == code && x.path == path && x.message == render.say(code, detail)
  }

  /** A place inside a question. */
  function In(id: string, more: seq<PathPart>): seq<PathPart> {
    [Name("questions"), Name(id)] + more
  }

  predicate Scalar(j: Json) {
    j.Bool? || j.Int? || j.Float?
  }

  // ---- Faults of a request ----------------------------------------------------------------

  predicate StateFault(state: Json, caps: Capabilities, render: Rendering, x: Issue) {
    || (!caps.allowsJsonState && !state.Str? && Is(render, x, "json_state_not_supported", [Name("state")], ""))
    || (caps.backend == SimpleJev && Scalar(state) &&
        Is(render, x, "simple_jev_scalar_state_not_supported", [Name("state")], ""))
    || (caps.backend == Typesafe && !state.Str? && !state.List? && !state.Dict? &&
        Is(render, x, "typesafe_state_type_not_supported", [Name("state")], ""))
  }

  predicate TypeFault(id: string, q: Question, caps: Capabilities, render: Rendering, x: Issue) {
    var path := In(id, [Name("type")]);
    match q
    case Noul(_, _) => NoulType !in caps.questionTypes && Is(render, x, "question_type_not_supported", path, "noul")
    case Choice(_, _, _) =>
      ChoiceType !in caps.questionTypes && Is(render, x, "question_type_not_supported", path, "choice")
    case Score(_, _) => ScoreType !in caps.questionTypes && Is(render, x, "question_type_not_supported", path, "score")
  }

  predicate LevelFault(id: string, q: Question, caps: Capabilities, render: Rendering, x: Issue) {
    caps.backend == Typesafe && q.Score? && |q.levels| > 10 &&
    Is(render, x, "typesafe_score_level_limit", In(id, [Name("criteria")]), "")
  }

  /** The answers that a question has, an abstention of the backend's included. */
  predicate HasTotal(q: Question, caps: Capabilities, total: nat) {
    match q
    case Noul(_, _) => total == 3
    case Choice(_, keys, _) => total == if caps.explicitAbstention then |keys| + 1 else |keys|
    case Score(_, levels) => total == if caps.explicitAbstention then |levels| + 1 else |levels|
  }

  ghost predicate TotalFault(id: string, q: Question, caps: Capabilities, render: Rendering, x: Issue) {
    exists total ::
      && HasTotal(q, caps, total) && caps.supportedTotals.Some? && total !in caps.supportedTotals.value
      && Is(render, x, "total_candidates_not_supported", In(id, [Name("criteria")]), Decimal(total))
  }

  predicate MarkerFault(
    id: string, q: Question, state: Json, caps: Capabilities, render: Rendering, x: Issue, marker: string)
  {
    && marker in caps.reservedMarkers && marker != ""
    && Contains(JoinLines(TextParts(q, state, render)), marker)
    && Is(render, x, "reserved_input_marker", In(id, []), marker)
  }

  predicate OptionFault(id: string, q: Question, caps: Capabilities, render: Rendering, x: Issue, key: string) {
    && q.Choice? && key in q.keys && key in caps.reservedIds
    && Is(render, x, "reserved_answer_id_collision", In(id, [Name("criteria"), Name(key)]), key)
  }

  /** The criteria have this value under this key or index. */
  predicate HasEntry(q: Question, i: nat, part: PathPart, value: Json) {
    match q
    case Noul(_, criteria) =>
      && criteria.Some? && criteria.value.Dict? && |criteria.value.keys| == |criteria.value.items|
      && i < |criteria.value.keys| && part == Name(criteria.value.keys[i]) && value == criteria.value.items[i]
    case Choice(_, keys, values) => |keys| == |values| && i < |keys| && part == Name(keys[i]) && value == values[i]
    case Score(_, levels) => i < |levels| && part == Index(i) && value == levels[i]
  }

  predicate EntryFault(
    id: string, q: Question, caps: Capabilities, render: Rendering, x: Issue, i: nat, part: PathPart, value: Json)
  {
    && caps.backend == SimpleJev && HasEntry(q, i, part, value) && Scalar(value)
    && Is(render, x, "simple_jev_scalar_entry_not_supported", In(id, [Name("criteria"), part]), "")
  }

  ghost predicate QuestionFault(id: string, q: Question, state: Json, caps: Capabilities, render: Rendering, x: Issue) {
    || TypeFault(id, q, caps, render, x) || LevelFault(id, q, caps, render, x) || TotalFault(id, q, caps, render, x)
    || SomeMarkerFault(id, q, state, caps, render, x) || SomeOptionFault(id, q, caps, render, x)
    || SomeEntryFault(id, q, caps, render, x)
  }

  ghost predicate SomeMarkerFault(
    id: string, q: Question, state: Json, caps: Capabilities, render: Rendering, x: Issue)
  {
    exists marker :: MarkerFault(id, q, state, caps, render, x, marker)
  }

  ghost predicate SomeOptionFault(id: string, q: Question, caps: Capabilities, render: Rendering, x: Issue) {
    exists key :: OptionFault(id, q, caps, render, x, key)
  }

  ghost predicate SomeEntryFault(id: string, q: Question, caps: Capabilities, render: Rendering, x: Issue) {
    exists i, part, value :: EntryFault(id, q, caps, render, x, i, part, value)
  }

  // ---- Each check reports exactly its faults ---------------------------------------------------

  lemma StateReported(state: Json, caps: Capabilities, render: Rendering, x: Issue)
    ensures x in StateIssues(state, caps, render) <==> StateFault(state, caps, render, x)
  {
  }

  lemma SimpleReported(id: string, q: Question, caps: Capabilities, render: Rendering, x: Issue)
    ensures x in TypeIssues(id, q, caps, render) <==> TypeFault(id, q, caps, render, x)
    ensures x in LevelIssues(id, q, caps, render) <==> LevelFault(id, q, caps, render, x)
  {
  }

  lemma TotalReported(id: string, q: Question, caps: Capabilities, render: Rendering, x: Issue)
    ensures x in TotalIssues(id, q, caps, render) <==> TotalFault(id, q, caps, render, x)
  {
    assert HasTotal(q, caps, TotalCandidates(q, caps));
  }

  predicate MarkerFound(id: string, combined: string, render: Rendering, x: Issue, marker: string) {
    marker != "" && Contains(combined, marker) && Is(render, x, "reserved_input_marker", In(id, []), marker)
  }

  lemma {:induction false} MarkersReported(
    id: string, combined: string, markers: seq<string>, render: Rendering, x: Issue)
    ensures x in MarkerIssues(id, combined, markers, render) <==>
            exists m | m in markers :: MarkerFound(id, combined, render, x, m)
  {
    if markers != [] {
      var first :=
        if markers[0] != "" && Contains(combined, markers[0])
        then [IssueOf(render, "reserved_input_marker", QuestionPath(id), markers[0])] else [];
      assert markers == [markers[0]] + markers[1..];
      MarkersReported(id, combined, markers[1..], render, x);
      assert In(id, []) == QuestionPath(id);
      assert x in first <==> MarkerFound(id, combined, render, x, markers[0]);
      assert MarkerIssues(id, combined, markers, render) == first + MarkerIssues(id, combined, markers[1..], render);
    }
  }

  lemma MarkerFaultsReported(id: string, q: Question, state: Json, caps: Capabilities, render: Rendering, x: Issue)
    ensures x in MarkerIssues(id, JoinLines(TextParts(q, state, render)), caps.reservedMarkers, render) <==>
            SomeMarkerFault(id, q, state, caps, render, x)
  {
    var combined := JoinLines(TextParts(q, state, render));
    MarkersReported(id, combined, caps.reservedMarkers, render, x);
    if m :| m in caps.reservedMarkers && MarkerFound(id, combined, render, x, m) {
      assert MarkerFault(id, q, state, caps, render, x, m);
    }
    if m :| MarkerFault(id, q, state, caps, render, x, m) {
      assert MarkerFound(id, combined, render, x, m);
    }
  }

  predicate IdFound(id: string, reserved: set<string>, render: Rendering, x: Issue, key: string) {
    key in reserved && Is(render, x, "reserved_answer_id_collision", In(id, [Name("criteria"), Name(key)]), key)
  }

  lemma {:induction false} IdsReported(
    id: string, keys: seq<string>, reserved: set<string>, render: Rendering, x: Issue)
    ensures x in ReservedIdIssues(id, keys, reserved, render) <==>
            exists k | k in keys :: IdFound(id, reserved, render, x, k)
  {
    if keys != [] {
      var first :=
        if keys[0] in reserved
        then [IssueOf(render, "reserved_answer_id_collision", CriteriaPath(id) + [Name(keys[0])], keys[0])] else [];
      assert keys == [keys[0]] + keys[1..];
      IdsReported(id, keys[1..], reserved, render, x);
      assert In(id, [Name("criteria"), Name(keys[0])]) == CriteriaPath(id) + [Name(keys[0])];
      assert x in first <==> IdFound(id, reserved, render, x, keys[0]);
      assert ReservedIdIssues(id, keys, reserved, render) == first + ReservedIdIssues(id, keys[1..], reserved, render);
    }
  }

  lemma OptionsReported(id: string, q: Question, caps: Capabilities, render: Rendering, x: Issue)
    ensures x in OptionIdIssues(id, q, caps, render) <==> SomeOptionFault(id, q, caps, render, x)
  {
    if q.Choice? {
      var keys := Sort(StrLe, q.keys);
      IdsReported(id, keys, caps.reservedIds, render, x);
      StrLinear();
      SortMembers(StrLe, q.keys);
      if k :| k in keys && IdFound(id, caps.reservedIds, render, x, k) {
        assert OptionFault(id, q, caps, render, x, k);
      }
      if k :| OptionFault(id, q, caps, render, x, k) {
        assert k in keys && IdFound(id, caps.reservedIds, render, x, k);
      }
    }
  }

  predicate ScalarFound(id: string, entries: seq<(PathPart, Json)>, render: Rendering, x: Issue, i: nat)
    requires i < |entries|
  {
    && Scalar(entries[i].1)
    && Is(render, x, "simple_jev_scalar_entry_not_supported", In(id, [Name("criteria"), entries[i].0]), "")
  }

  lemma {:induction false} ScalarsReported(id: string, entries: seq<(PathPart, Json)>, render: Rendering, x: Issue)
    ensures x in ScalarIssues(id, entries, render) <==>
            exists i: nat :: i < |entries| && ScalarFound(id, entries, render, x, i)
  {
    if entries != [] {
      var rest := entries[1..];
      var first :=
        if IsNumberOrBool(entries[0].1)
        then [IssueOf(render, "simple_jev_scalar_entry_not_supported", CriteriaPath(id) + [entries[0].0], "")] else [];
      ScalarsReported(id, rest, render, x);
      assert In(id, [Name("criteria"), entries[0].0]) == CriteriaPath(id) + [entries[0].0];
      assert x in first <==> ScalarFound(id, entries, render, x, 0);
      assert ScalarIssues(id, entries, render) == first + ScalarIssues(id, rest, render);
      forall i: nat | i < |rest|
        ensures ScalarFound(id, rest, render, x, i) <==> ScalarFound(id, entries, render, x, i + 1)
      {
      }
      if i: nat :| i < |rest| && ScalarFound(id, rest, render, x, i) {
        assert ScalarFound(id, entries, render, x, i + 1);
      }
      if i: nat :| i < |entries| && ScalarFound(id, entries, render, x, i) {
        if i > 0 { assert ScalarFound(id, rest, render, x, i - 1); }
      }
    }
  }

  lemma EntriesAre(q: Question, i: nat, part: PathPart, value: Json)
    ensures HasEntry(q, i, part, value) <==> i < |Entries(q)| && Entries(q)[i] == (part, value)
  {
  }

  lemma EntriesReported(id: string, q: Question, caps: Capabilities, render: Rendering, x: Issue)
    ensures x in EntryIssues(id, q, caps, render) <==> SomeEntryFault(id, q, caps, render, x)
  {
    var entries := Entries(q);
    ScalarsReported(id, entries, render, x);
    if x in EntryIssues(id, q, caps, render) {
      var i: nat :| i < |entries| && ScalarFound(id, entries, render, x, i);
      EntriesAre(q, i, entries[i].0, entries[i].1);
      assert EntryFault(id, q, caps, render, x, i, entries[i].0, entries[i].1);
    }
    if i: nat, part, value :| EntryFault(id, q, caps, render, x, i, part, value) {
      EntriesAre(q, i, part, value);
      assert ScalarFound(id, entries, render, x, i);
    }
  }

  lemma QuestionReported(
    issues: seq<Issue>, id: string, q: Question, state: Json, caps: Capabilities, render: Rendering, x: Issue)
    ensures x in WithQuestionIssues(issues, id, q, state, caps, render) <==>
            x in issues || QuestionFault(id, q, state, caps, render, x)
  {
    SimpleReported(id, q, caps, render, x);
    TotalReported(id, q, caps, render, x);
    MarkerFaultsReported(id, q, state, caps, render, x);
    OptionsReported(id, q, caps, render, x);
    EntriesReported(id, q, caps, render, x);
    var types, levels := TypeIssues(id, q, caps, render), LevelIssues(id, q, caps, render);
    var totals, options := TotalIssues(id, q, caps, render), OptionIdIssues(id, q, caps, render);
    var markers := MarkerIssues(id, JoinLines(TextParts(q, state, render)), caps.reservedMarkers, render);
    var entries := EntryIssues(id, q, caps, render);
    InOneOf(x, issues, types, levels, totals, markers, options, entries);
    assert WithQuestionIssues(issues, id, q, state, caps, render) ==
           issues + types + levels + totals + markers + options + entries;
  }

  lemma InOneOf<T>(x: T, a: seq<T>, b: seq<T>, c: seq<T>, d: seq<T>, e: seq<T>, f: seq<T>, g: seq<T>)
    ensures x in a + b + c + d + e + f + g <==> x in a || x in b || x in c || x in d || x in e || x in f || x in g
  {
  }

  /** Some question has this fault. */
  ghost predicate SomeFault(qs: seq<(string, Question)>, state: Json, caps: Capabilities, render: Rendering, x: Issue) {
    exists q | q in qs :: QuestionFault(q.0, q.1, state, caps, render, x)
  }

  lemma {:induction false} QuestionsReported(
    issues: seq<Issue>, qs: seq<(string, Question)>, state: Json, caps: Capabilities, render: Rendering, x: Issue)
    ensures x in WithAllQuestionIssues(issues, qs, state, caps, render) <==>
            x in issues || SomeFault(qs, state, caps, render, x)
    decreases |qs|
  {
    if qs != [] {
      assert qs == [qs[0]] + qs[1..];
      QuestionReported(issues, qs[0].0, qs[0].1, state, caps, render, x);
      var first := WithQuestionIssues(issues, qs[0].0, qs[0].1, state, caps, render);
      QuestionsReported(first, qs[1..], state, caps, render, x);
    }
  }

  /**
   The report holds an issue if and only if the request has that fault: the code and message of the rule
   broken, at the path of the state, the question, its type, its criteria or the very entry.
   */
  lemma ReportedExact(r: Request, caps: Capabilities, render: Rendering, x: Issue)
    ensures x in Reported(r, caps, render) <==>
            StateFault(r.state, caps, render, x) || SomeFault(r.questions, r.state, caps, render, x)
  {
    IssuesLinear();
    QuestionsLinear();
    SortMembers(IssueLe, Collected(r, caps, render));
    SortMembers(QuestionLe, r.questions);
    StateReported(r.state, caps, render, x);
    QuestionsReported(StateIssues(r.state, caps, render), Sort(QuestionLe, r.questions), r.state, caps, render, x);
    SameFaults(r.questions, Sort(QuestionLe, r.questions), r.state, caps, render, x);
  }

  lemma SameFaults(
    a: seq<(string, Question)>, b: seq<(string, Question)>, state: Json, caps: Capabilities, render: Rendering,
    x: Issue)
    requires forall q :: q in a <==> q in b
    ensures SomeFault(a, state, caps, render, x) <==> SomeFault(b, state, caps, render, x)
  {
  }
}
