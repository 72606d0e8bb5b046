/** Registered backends and the Choice batch sizes the browser may use on them. */
module Registry {
  import opened Wrappers
  import opened Questions
  import opened Validation

  const LABEL_MARKER: string := "<<LABEL>>"
  const SEP_MARKER: string := "<<SEP>>"
  const ABSTAIN_ANSWER_ID: string := "__abstain__"

  const ALL_TYPES: set<QuestionType> := {NoulType, ChoiceType, ScoreType}

  const TYPESAFE := Capabilities(Typesafe, ALL_TYPES, true, true, false, None, [], {})
  const SIMPLE_JEV := Capabilities(SimpleJev, ALL_TYPES, false, true, false, None, [], {})
  const NEEDLE := Capabilities(Needle, ALL_TYPES, true, true, false, None, [], {})
  const OPENROUTER := Capabilities(OpenRouter, ALL_TYPES, true, true, false, None, [], {})
  const RLCD_TOTALS: set<nat> := {2, 3, 4, 5, 6, 7, 9, 11, 17, 25}
  const RLCD := Capabilities(
    Rlcd, ALL_TYPES, true, true, true, Some(RLCD_TOTALS), [LABEL_MARKER, SEP_MARKER], {ABSTAIN_ANSWER_ID})

  predicate Registered(caps: Capabilities) {
    caps == TYPESAFE || caps == SIMPLE_JEV || caps == NEEDLE || caps == RLCD || caps == OPENROUTER
  }

  function AbstainOffset(caps: Capabilities): nat {
    if caps.explicitAbstention then 1 else 0
  }

  /** k criteria make a canonical Choice question whose candidate total the backend supports. */
  predicate BatchSize(caps: Capabilities, k: nat) {
    MIN_OPTIONS <= k <= MAX_OPTIONS &&
    (caps.supportedTotals.Some? ==> k + AbstainOffset(caps) in caps.supportedTotals.value)
  }

  predicate Ascending(s: seq<nat>) {
    forall i, j :: 0 <= i < j < |s| ==> s[i] < s[j]
  }

  predicate Descending(s: seq<nat>) {
    forall i, j :: 0 <= i < j < |s| ==> s[i] > s[j]
  }

  /** The batch sizes, ascending, with nothing missing. These two facts determine the result. */
  method BrowserChoiceBatchSizes(caps: Capabilities) returns (sizes: seq<nat>)
    ensures Ascending(sizes)
    ensures forall k: nat :: k in sizes <==> BatchSize(caps, k)
  {
    sizes := [];
    for criteria := MIN_OPTIONS to MAX_OPTIONS + 1
      invariant Ascending(sizes) && forall i :: 0 <= i < |sizes| ==> sizes[i] < criteria
      invariant forall k: nat :: k in sizes <==> k < criteria && BatchSize(caps, k)
    {
      var total := criteria + AbstainOffset(caps);
      if caps.supportedTotals.Some? && total !in caps.supportedTotals.value {
        continue;
      }
      sizes := sizes + [criteria];
    }
  }

  /** The same sizes as a set, which is what the tournament computes with. */
  function BatchSizes(caps: Capabilities): set<nat> {
    set k: nat | MIN_OPTIONS <= k <= MAX_OPTIONS && BatchSize(caps, k)
  }

  /** What each registered backend takes: any number from 2 to 50, but of RLCD's nine sizes only. */
  lemma RegisteredSizes(caps: Capabilities, k: nat)
    requires Registered(caps)
    ensures k in BatchSizes(caps) <==> if caps == RLCD then k in {2, 3, 4, 5, 6, 8, 10, 16, 24} else 2 <= k <= 50
  {
    assert AbstainOffset(RLCD) == 1;
  }

  /** Every registered backend can take pairs, so no candidate list is beyond a tournament. */
  lemma RegisteredTakesPairs(caps: Capabilities)
    requires Registered(caps)
    ensures 2 in BatchSizes(caps)
  {
    assert BatchSize(caps, 2);
  }
}
