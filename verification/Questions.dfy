/** Canonical questions and requests, as they are once constructed. */
module Questions {
  import opened Wrappers
  import opened Text
  import opened Json

  const MIN_OPTIONS: nat := 2
  const MAX_OPTIONS: nat := 50
  const MAX_QUESTIONS: nat := 256

  datatype QuestionType = NoulType | ChoiceType | ScoreType

  datatype Question =
    | Noul(instructions: string, criteria: Option<Json>)
    | Choice(instructions: string, keys: seq<string>, values: seq<Json>)
    | Score(instructions: string, levels: seq<Json>)

  function TypeOf(q: Question): QuestionType {
    match q
    case Noul(_, _) => NoulType
    case Choice(_, _, _) => ChoiceType
    case Score(_, _) => ScoreType
  }

  predicate Distinct<T(==)>(s: seq<T>) {
    forall i, j :: 0 <= i < j < |s| ==> s[i] != s[j]
  }

  /** What the question models accept at construction. */
  predicate ValidQuestion(q: Question) {
    && !Blank(q.instructions)
    && match q
       case Noul(_, None) => true
       case Noul(_, Some(c)) =>
         c.Dict? && |c.keys| == |c.items| && Distinct(c.keys) && Admissible(c) &&
         forall k | k in c.keys :: k == "true" || k == "false"
       case Choice(_, keys, values) =>
         MIN_OPTIONS <= |keys| == |values| <= MAX_OPTIONS && Distinct(keys) &&
         (forall k | k in keys :: !Blank(k)) && Admissible(Dict(keys, values))
       case Score(_, levels) => MIN_OPTIONS <= |levels| <= MAX_OPTIONS && Admissible(List(levels))
  }

  datatype Request = Request(state: Json, model: Option<string>, questions: seq<(string, Question)>)

  function QuestionIds(questions: seq<(string, Question)>): seq<string> {
    seq(|questions|, i requires 0 <= i < |questions| => questions[i].0)
  }

  predicate ValidModel(r: Request) {
    && Admissible(r.state)
    && (r.model.Some? ==> !Blank(r.model.value))
    && 1 <= |r.questions| <= MAX_QUESTIONS
    && Distinct(QuestionIds(r.questions))
    && forall q | q in r.questions :: !Blank(q.0) && ValidQuestion(q.1)
  }

  /**
   Python's str() and json.dumps(sort_keys, compact) on JSON values; str is the identity on text.
   And the message that an issue of a code has for a detail.
   */
  datatype Rendering = Rendering(str: Json -> string, dumps: Json -> string, say: (string, string) -> string) {
    function Plain(j: Json): string {
      if j.Str? then j.s else str(j)
    }

    /** Text passes through; anything else becomes deterministic JSON. */
    function StateText(j: Json): string {
      if j.Str? then j.s else dumps(j)
    }
  }
}
