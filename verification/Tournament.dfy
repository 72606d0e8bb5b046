/** What every tournament does: conservation, success, and refinement to the maximum. */
module Tournament {
  import opened Wrappers
  import opened Text
  import opened Models
  import opened Validation
  import opened Questions
  import opened Registry
  import opened Selection

  // ---- Conservation: candidates are eliminated only by the calls ---------------------

  /** Each call over a batch eliminates all of it but one. */
  function Eliminated(calls: seq<seq<Candidate>>): int {
    if calls == [] then 0 else Eliminated(calls[..|calls| - 1]) + |calls[|calls| - 1]| - 1
  }

  /** The calls after `before` are batches of supported sizes. */
  predicate Extends(before: seq<seq<Candidate>>, calls: seq<seq<Candidate>>, sizes: seq<Size>) {
    |before| <= |calls| && calls[..|before|] == before &&
    forall i :: |before| <= i < |calls| ==> |calls[i]| in sizes
  }

  lemma EliminatedOne(calls: seq<seq<Candidate>>, batch: seq<Candidate>)
    ensures Eliminated(calls + [batch]) == Eliminated(calls) + |batch| - 1
  {
    assert (calls + [batch])[..|calls|] == calls;
  }

  /** What the rest of a round over n items has eliminated, w winners being there before. */
  predicate RoundConserved(calls: seq<seq<Candidate>>, p: Play<seq<Candidate>>, n: int, w: nat, sizes: seq<Size>) {
    && Extends(calls, p.calls, sizes)
    && match p.outcome
       case Success(winners) => Eliminated(p.calls) - Eliminated(calls) == n - (|winners| - w)
       case Failure(_) => Eliminated(p.calls) - Eliminated(calls) < n
  }

  /** A call over a batch eliminates all of it but its one winner. */
  lemma CallConserves(
    calls: seq<seq<Candidate>>, batch: seq<Candidate>, p: Play<seq<Candidate>>, n: int, w: nat, sizes: seq<Size>)
    requires |batch| in sizes && RoundConserved(calls + [batch], p, n - |batch|, w + 1, sizes)
    ensures RoundConserved(calls, p, n, w, sizes)
  {
    EliminatedOne(calls, batch);
    assert p.calls[|calls|] == (calls + [batch])[|calls|] == batch;
    assert p.calls[..|calls|] == (calls + [batch])[..|calls|] == calls;
  }

  lemma {:induction false} RoundConserves(
    items: seq<Candidate>, parts: seq<nat>, choose: Chooser, calls: seq<seq<Candidate>>, winners: seq<Candidate>,
    sizes: seq<Size>)
    requires Plan(parts, |items|) && Supported(parts, sizes)
    ensures RoundConserved(calls, RoundFrom(items, parts, choose, calls, winners), |items|, |winners|, sizes)
    decreases |parts|
  {
    if parts != [] {
      var batch, rest := items[..parts[0]], items[parts[0]..];
      assert Supported(parts[1..], sizes);
      if |batch| == 1 {
        RoundConserves(rest, parts[1..], choose, calls, winners + [batch[0]], sizes);
      } else {
        var won := Winner(batch, choose(|calls|, batch));
        if won.Success? {
          RoundConserves(rest, parts[1..], choose, calls + [batch], winners + [won.value], sizes);
          CallConserves(
            calls, batch, RoundFrom(items, parts, choose, calls, winners), |items|, |winners|, sizes);
        } else {
          EliminatedOne(calls, batch);
        }
      }
    }
  }

  /** What a stretch of play after `calls` over n items has eliminated. */
  predicate Conserved(calls: seq<seq<Candidate>>, p: Play<Candidate>, n: nat) {
    if p.outcome.Success? then Eliminated(p.calls) - Eliminated(calls) == n - 1
    else Eliminated(p.calls) - Eliminated(calls) < n
  }

  lemma WholeRoundConserves(items: seq<Candidate>, sizes: seq<Size>, choose: Chooser, calls: seq<seq<Candidate>>)
    requires items != []
    ensures
      var p := Round(items, sizes, choose, calls);
      && Extends(calls, p.calls, sizes)
      && Eliminated(p.calls) - Eliminated(calls) <= |items| - (if p.outcome.Success? then |p.outcome.value| else 1)
      && (p.outcome.Success? ==> Eliminated(p.calls) - Eliminated(calls) == |items| - |p.outcome.value|)
  {
    PartitionSound(|items|, sizes, sizes);
    var plan := PartitionFrom(|items|, sizes, sizes);
    if plan.Some? { RoundConserves(items, plan.value, choose, calls, [], sizes); }
  }

  /**
   Elimination is conserved by a tournament, whatever the chooser answers: with n items a
   success has eliminated exactly n - 1 over its calls, a failure fewer than n.
   */
  lemma {:induction false} TournamentConserves(
    items: seq<Candidate>, sizes: seq<Size>, choose: Chooser, calls: seq<seq<Candidate>>, rounds: nat)
    requires items != [] && rounds <= MAX_ROUNDS
    ensures
      var p := TournamentFrom(items, sizes, choose, calls, rounds);
      Extends(calls, p.calls, sizes) && Conserved(calls, p, |items|)
    decreases MAX_ROUNDS - rounds
  {
    if |items| > 1 {
      WholeRoundConserves(items, sizes, choose, calls);
      var p := Round(items, sizes, choose, calls);
      if p.outcome.Success? && rounds < MAX_ROUNDS {
        TournamentConserves(p.outcome.value, sizes, choose, p.calls, rounds + 1);
      }
    }
  }

  lemma {:induction false} CallsEliminate(calls: seq<seq<Candidate>>)
    requires forall b | b in calls :: |b| >= 2
    ensures |calls| <= Eliminated(calls)
  {
    if calls != [] { CallsEliminate(calls[..|calls| - 1]); }
  }

  /** A selection makes fewer calls than it has candidates, and a successful one conserves elimination. */
  lemma SelectionConserves(candidates: seq<Candidate>, caps: Capabilities, choose: Chooser)
    requires candidates != []
    ensures
      var p := Select(candidates, caps, choose);
      && |p.calls| < |candidates|
      && (forall b | b in p.calls :: BatchSize(caps, |b|))
      && (p.outcome.Success? ==> Eliminated(p.calls) == |candidates| - 1)
  {
    var sizes := SizesDown(caps, MAX_OPTIONS);
    var p := Select(candidates, caps, choose);
    if DistinctIds(candidates) && |candidates| > 1 && sizes != [] {
      TournamentConserves(candidates, sizes, choose, [], 0);
    }
    CallsEliminate(p.calls);
  }

  // ---- Winners come from the items, in their order ------------------------------------

  predicate Subsequence(a: seq<Candidate>, b: seq<Candidate>)
    decreases |b|
  {
    a == [] || (b != [] && ((a[0] == b[0] && Subsequence(a[1..], b[1..])) || Subsequence(a, b[1..])))
  }

  lemma {:induction false} SubsequenceJoin(c: Candidate, batch: seq<Candidate>, a: seq<Candidate>, rest: seq<Candidate>)
    requires c in batch && Subsequence(a, rest)
    ensures Subsequence([c] + a, batch + rest)
    decreases |batch|
  {
    assert (batch + rest)[1..] == batch[1..] + rest && ([c] + a)[1..] == a;
    if c == batch[0] {
      SubsequenceSkip(a, batch[1..], rest);
    } else {
      SubsequenceJoin(c, batch[1..], a, rest);
    }
  }

  lemma {:induction false} SubsequenceSkip(a: seq<Candidate>, skipped: seq<Candidate>, rest: seq<Candidate>)
    requires Subsequence(a, rest)
    ensures Subsequence(a, skipped + rest)
    decreases |skipped|
  {
    if skipped == [] {
      assert skipped + rest == rest;
    } else {
      SubsequenceSkip(a, skipped[1..], rest);
      assert (skipped + rest)[1..] == skipped[1..] + rest;
    }
  }

  lemma {:induction false} SubsequenceKeeps(a: seq<Candidate>, b: seq<Candidate>)
    requires Subsequence(a, b)
    ensures forall c | c in a :: c in b
    ensures DistinctIds(b) ==> DistinctIds(a)
    decreases |b|
  {
    if a != [] {
      assert b == [b[0]] + b[1..];
      if a[0] == b[0] && Subsequence(a[1..], b[1..]) {
        SubsequenceKeeps(a[1..], b[1..]);
        assert a == [a[0]] + a[1..];
        if DistinctIds(b) {
          forall i, j | 0 <= i < j < |a|
            ensures a[i].id != a[j].id
          {
            assert a[j] in a[1..];
          }
        }
      } else {
        SubsequenceKeeps(a, b[1..]);
      }
    }
  }

  lemma WinnerIsMember(batch: seq<Candidate>, answer: Answer)
    ensures
      var w := Winner(batch, answer);
      w.Success? ==> answer == Chosen(w.value.id) && w.value in batch
  {
    if answer.Chosen? { FoundById(batch, answer.id); }
  }

  lemma {:induction false} RoundKeepsOrder(
    items: seq<Candidate>, parts: seq<nat>, choose: Chooser, calls: seq<seq<Candidate>>, winners: seq<Candidate>)
    requires Plan(parts, |items|)
    ensures
      var o := RoundFrom(items, parts, choose, calls, winners).outcome;
      o.Success? ==> winners <= o.value && Subsequence(o.value[|winners|..], items)
    decreases |parts|
  {
    if parts != [] {
      var batch, rest := items[..parts[0]], items[parts[0]..];
      var o := RoundFrom(items, parts, choose, calls, winners).outcome;
      if o.Success? {
        var c, calls' := if |batch| == 1 then batch[0] else Winner(batch, choose(|calls|, batch)).value,
                         if |batch| == 1 then calls else calls + [batch];
        WinnerIsMember(batch, choose(|calls|, batch));
        RoundKeepsOrder(rest, parts[1..], choose, calls', winners + [c]);
        SubsequenceJoin(c, batch, o.value[|winners| + 1..], rest);
        assert items == batch + rest;
        assert o.value[|winners|..] == [c] + o.value[|winners| + 1..];
      }
    }
  }

  /** The winners of a round are a subsequence of its items, so ids stay distinct. */
  lemma RoundWinners(items: seq<Candidate>, sizes: seq<Size>, choose: Chooser, calls: seq<seq<Candidate>>)
    ensures
      var o := Round(items, sizes, choose, calls).outcome;
      o.Success? ==> Subsequence(o.value, items) && (DistinctIds(items) ==> DistinctIds(o.value)) &&
                     forall c | c in o.value :: c in items
  {
    PartitionSound(|items|, sizes, sizes);
    var plan := PartitionFrom(|items|, sizes, sizes);
    if plan.Some? {
      RoundKeepsOrder(items, plan.value, choose, calls, []);
      var o := RoundFrom(items, plan.value, choose, calls, []).outcome;
      if o.Success? {
        assert o.value[0..] == o.value;
        SubsequenceKeeps(o.value, items);
      }
    }
  }

  lemma {:induction false} WinnerAmongItems(
    items: seq<Candidate>, sizes: seq<Size>, choose: Chooser, calls: seq<seq<Candidate>>, rounds: nat)
    requires items != [] && rounds <= MAX_ROUNDS
    ensures
      var o := TournamentFrom(items, sizes, choose, calls, rounds).outcome;
      o.Success? ==> o.value in items
    decreases MAX_ROUNDS - rounds
  {
    if |items| > 1 {
      RoundWinners(items, sizes, choose, calls);
      var p := Round(items, sizes, choose, calls);
      if p.outcome.Success? && rounds < MAX_ROUNDS {
        WinnerAmongItems(p.outcome.value, sizes, choose, p.calls, rounds + 1);
      }
    }
  }

  /** Whatever the chooser does, a selected candidate is one of the candidates, whose ids were distinct. */
  lemma SelectedIsCandidate(candidates: seq<Candidate>, caps: Capabilities, choose: Chooser)
    ensures
      var o := Select(candidates, caps, choose).outcome;
      o.Success? ==> o.value in candidates && DistinctIds(candidates)
  {
    var sizes := SizesDown(caps, MAX_OPTIONS);
    if candidates != [] { WinnerAmongItems(candidates, sizes, choose, [], 0); }
  }

  // ---- Success -----------------------------------------------------------------------

  function Pow2(n: nat): (p: nat)
    ensures p >= 1
  {
    if n == 0 then 1 else 2 * Pow2(n - 1)
  }

  ghost predicate Within(batch: seq<Candidate>, items: seq<Candidate>) {
    forall c | c in batch :: c in items
  }

  /** A batch that may be presented: distinct candidates of `items`, of a supported size. */
  ghost predicate Presentable(batch: seq<Candidate>, items: seq<Candidate>, sizes: seq<Size>) {
    |batch| in sizes && Within(batch, items) && DistinctIds(batch)
  }

  /** On every batch that may be presented the chooser's answer has a winner, but for these faults. */
  ghost predicate Faults(choose: Chooser, items: seq<Candidate>, sizes: seq<Size>, faults: set<SelectionError>) {
    forall n: nat, b: seq<Candidate> | Presentable(b, items, sizes) ::
      var w := Winner(b, choose(n, b));
      w.Failure? ==> w.error in faults
  }

  /** Of every batch that may be presented the chooser names a member. */
  ghost predicate Obedient(choose: Chooser, items: seq<Candidate>, sizes: seq<Size>) {
    Faults(choose, items, sizes, {})
  }

  lemma {:induction false} FaultsOfRound(
    items: seq<Candidate>, parts: seq<nat>, choose: Chooser, calls: seq<seq<Candidate>>, winners: seq<Candidate>,
    sizes: seq<Size>, faults: set<SelectionError>)
    requires Plan(parts, |items|) && Supported(parts, sizes) && DistinctIds(items)
    requires Faults(choose, items, sizes, faults)
    ensures
      var o := RoundFrom(items, parts, choose, calls, winners).outcome;
      o.Failure? ==> o.error in faults
    decreases |parts|
  {
    if parts != [] {
      var batch, rest := items[..parts[0]], items[parts[0]..];
      assert Within(batch, items) && Within(rest, items) && Supported(parts[1..], sizes);
      if |batch| == 1 {
        FaultsOfRound(rest, parts[1..], choose, calls, winners + [batch[0]], sizes, faults);
      } else {
        assert Presentable(batch, items, sizes);
        var won := Winner(batch, choose(|calls|, batch));
        if won.Success? {
          FaultsOfRound(rest, parts[1..], choose, calls + [batch], winners + [won.value], sizes, faults);
        }
      }
    }
  }

  /** A round fails only by one of these faults, and its winners are no worse off. */
  lemma FaultsOfWholeRound(
    items: seq<Candidate>, sizes: seq<Size>, choose: Chooser, calls: seq<seq<Candidate>>, faults: set<SelectionError>)
    requires |items| >= 2 && 2 in sizes && DistinctIds(items) && Faults(choose, items, sizes, faults)
    ensures
      var o := Round(items, sizes, choose, calls).outcome;
      match o
      case Failure(e) => e in faults
      case Success(winners) => DistinctIds(winners) && Faults(choose, winners, sizes, faults)
  {
    PairsPartition(|items|, sizes);
    PartitionSound(|items|, sizes, sizes);
    FaultsOfRound(items, PartitionFrom(|items|, sizes, sizes).value, choose, calls, [], sizes, faults);
    RoundWinners(items, sizes, choose, calls);
    var o := Round(items, sizes, choose, calls).outcome;
    if o.Success? { FaultsNarrow(choose, items, o.value, sizes, faults); }
  }

  /**
   With pairs supported, 2^(rounds left) candidates are never too many and always divisible:
   the only errors are those that the chooser's answers make.
   */
  lemma {:induction false} FaultsOfTournament(
    items: seq<Candidate>, sizes: seq<Size>, choose: Chooser, calls: seq<seq<Candidate>>, rounds: nat,
    faults: set<SelectionError>)
    requires items != [] && rounds <= MAX_ROUNDS && |items| <= Pow2(MAX_ROUNDS - rounds)
    requires 2 in sizes && DistinctIds(items) && Faults(choose, items, sizes, faults)
    ensures
      var o := TournamentFrom(items, sizes, choose, calls, rounds).outcome;
      o.Failure? ==> o.error in faults
    decreases MAX_ROUNDS - rounds
  {
    if |items| > 1 {
      FaultsOfWholeRound(items, sizes, choose, calls, faults);
      var p := Round(items, sizes, choose, calls);
      if p.outcome.Success? {
        FaultsOfTournament(p.outcome.value, sizes, choose, p.calls, rounds + 1, faults);
      }
    }
  }

  lemma FaultsNarrow(
    choose: Chooser, items: seq<Candidate>, some: seq<Candidate>, sizes: seq<Size>, faults: set<SelectionError>)
    requires Faults(choose, items, sizes, faults) && Within(some, items)
    ensures Faults(choose, some, sizes, faults)
  {
    forall n: nat, b: seq<Candidate> | Presentable(b, some, sizes)
      ensures
        var w := Winner(b, choose(n, b));
        w.Failure? ==> w.error in faults
    {
      assert Presentable(b, items, sizes);
    }
  }

  /** Selection among up to 2^64 distinct candidates raises nothing but the chooser's own faults. */
  lemma FaultsOfSelection(
    candidates: seq<Candidate>, caps: Capabilities, choose: Chooser, faults: set<SelectionError>)
    requires candidates != [] && DistinctIds(candidates) && |candidates| <= Pow2(MAX_ROUNDS)
    requires 2 in BatchSizes(caps) && Faults(choose, candidates, SizesDown(caps, MAX_OPTIONS), faults)
    ensures
      var o := Select(candidates, caps, choose).outcome;
      o.Failure? ==> o.error in faults
  {
    assert BatchSize(caps, 2);
    FaultsOfTournament(candidates, SizesDown(caps, MAX_OPTIONS), choose, [], 0, faults);
  }

  lemma PairsHalve(items: seq<Candidate>, choose: Chooser, calls: seq<seq<Candidate>>)
    requires |items| >= 2 && DistinctIds(items) && Obedient(choose, items, [2])
    ensures
      var o := Round(items, [2], choose, calls).outcome;
      o.Success? && |o.value| == (|items| + 1) / 2 && DistinctIds(o.value) && Obedient(choose, o.value, [2])
  {
    PairsPartition(|items|, [2]);
    PartitionSound(|items|, [2], [2]);
    assert Fits(|items|, 2, [2]);
    FaultsOfRound(items, PartitionFrom(|items|, [2], [2]).value, choose, calls, [], [2], {});
    RoundWinners(items, [2], choose, calls);
    FaultsNarrow(choose, items, Round(items, [2], choose, calls).outcome.value, [2], {});
  }

  /** 2^64 is exact when a backend takes nothing but pairs: with one candidate more the limit is met. */
  lemma {:induction false} PairsTournament(
    items: seq<Candidate>, choose: Chooser, calls: seq<seq<Candidate>>, rounds: nat)
    requires items != [] && rounds <= MAX_ROUNDS && DistinctIds(items) && Obedient(choose, items, [2])
    ensures
      var o := TournamentFrom(items, [2], choose, calls, rounds).outcome;
      if |items| <= Pow2(MAX_ROUNDS - rounds) then o.Success? else o == Failure(RoundLimit)
    decreases MAX_ROUNDS - rounds
  {
    if |items| > 1 {
      PairsHalve(items, choose, calls);
      var p := Round(items, [2], choose, calls);
      if rounds < MAX_ROUNDS {
        PairsTournament(p.outcome.value, choose, p.calls, rounds + 1);
      }
    }
  }

  // ---- A list that is one batch --------------------------------------------------------------

  /** A supported length is a batch of its own: no greater size fits, and it does. */
  lemma {:induction false} WholeBatch(length: Size, from: seq<Size>, sizes: seq<Size>)
    requires Descending(from) && length in from
    ensures PartitionFrom(length, from, sizes) == Some([length])
  {
    if from[0] == length {
      assert Batches(length, length) == [length];
    } else {
      var k :| 0 <= k < |from| && from[k] == length;
      assert from[0] > length && from[1..][k - 1] == length;
      WholeBatch(length, from[1..], sizes);
    }
  }

  lemma OneCallRound(
    candidates: seq<Candidate>, parts: seq<nat>, choose: Chooser, calls: seq<seq<Candidate>>,
    winners: seq<Candidate>, c: Candidate)
    requires |candidates| >= 2 && parts == [|candidates|] && Plan(parts, |candidates|)
    requires Winner(candidates, choose(|calls|, candidates)) == Success(c)
    ensures RoundFrom(candidates, parts, choose, calls, winners)
         == Play(Success(winners + [c]), calls + [candidates])
  {
    var n := |candidates|;
    assert candidates[..n] == candidates && parts[1..] == [];
  }

  /** As many candidates as a batch may have are decided by one call. */
  lemma OneBatch(candidates: seq<Candidate>, caps: Capabilities, choose: Chooser, c: Candidate)
    requires DistinctIds(candidates) && BatchSize(caps, |candidates|) && c in candidates
    requires choose(0, candidates) == Chosen(c.id) && !Blank(c.id) && c.id != ABSTAIN_ANSWER_ID
    ensures Select(candidates, caps, choose) == Play(Success(c), [candidates])
  {
    var sizes := SizesDown(caps, MAX_OPTIONS);
    OneBatchRound(candidates, sizes, choose, c);
    assert TournamentFrom([c], sizes, choose, [candidates], 1) == Play(Success(c), [candidates]);
  }

  lemma OneBatchRound(candidates: seq<Candidate>, sizes: seq<Size>, choose: Chooser, c: Candidate)
    requires DistinctIds(candidates) && |candidates| >= 2 && Descending(sizes) && |candidates| in sizes
    requires c in candidates && choose(0, candidates) == Chosen(c.id) && !Blank(c.id) && c.id != ABSTAIN_ANSWER_ID
    ensures Round(candidates, sizes, choose, []) == Play(Success([c]), [candidates])
  {
    var calls: seq<seq<Candidate>>, winners: seq<Candidate> := [], [];
    WholeBatch(|candidates|, sizes, sizes);
    PartitionSound(|candidates|, sizes, sizes);
    FoundIsUnique(candidates, c);
    OneCallRound(candidates, [|candidates|], choose, calls, winners, c);
    assert winners + [c] == [c] && calls + [candidates] == [candidates];
  }

  // ---- What is refused before any question -----------------------------------------------------------

  predicate InputError(e: SelectionError) {
    e == NoCandidates || e == DuplicateIds || e == NoBatchSize
  }

  lemma {:induction false} RoundErrors(
    items: seq<Candidate>, parts: seq<nat>, choose: Chooser, calls: seq<seq<Candidate>>, winners: seq<Candidate>)
    requires Plan(parts, |items|)
    ensures
      var o := RoundFrom(items, parts, choose, calls, winners).outcome;
      o.Failure? ==> !InputError(o.error)
    decreases |parts|
  {
    if parts != [] {
      var batch, rest := items[..parts[0]], items[parts[0]..];
      if |batch| == 1 {
        RoundErrors(rest, parts[1..], choose, calls, winners + [batch[0]]);
      } else {
        var won := Winner(batch, choose(|calls|, batch));
        if won.Success? { RoundErrors(rest, parts[1..], choose, calls + [batch], winners + [won.value]); }
      }
    }
  }

  lemma {:induction false} TournamentErrors(
    items: seq<Candidate>, sizes: seq<Size>, choose: Chooser, calls: seq<seq<Candidate>>, rounds: nat)
    requires items != [] && rounds <= MAX_ROUNDS
    ensures
      var o := TournamentFrom(items, sizes, choose, calls, rounds).outcome;
      o.Failure? ==> !InputError(o.error)
    decreases MAX_ROUNDS - rounds
  {
    if |items| > 1 {
      PartitionSound(|items|, sizes, sizes);
      var plan := PartitionFrom(|items|, sizes, sizes);
      if plan.Some? { RoundErrors(items, plan.value, choose, calls, []); }
      var p := Round(items, sizes, choose, calls);
      if p.outcome.Success? && rounds < MAX_ROUNDS {
        TournamentErrors(p.outcome.value, sizes, choose, p.calls, rounds + 1);
      }
    }
  }

  /** Exactly which inputs are refused before any question, each with its error; a single candidate needs none. */
  lemma InputsExact(candidates: seq<Candidate>, caps: Capabilities, choose: Chooser)
    ensures
      var p := Select(candidates, caps, choose);
      && (p.outcome == Failure(NoCandidates) <==> candidates == [])
      && (p.outcome == Failure(DuplicateIds) <==>
            exists i, j :: 0 <= i < j < |candidates| && candidates[i].id == candidates[j].id)
      && (p.outcome == Failure(NoBatchSize) <==>
            |candidates| >= 2 && DistinctIds(candidates) && forall k: nat :: !BatchSize(caps, k))
      && (|candidates| == 1 ==> p == Play(Success(candidates[0]), []))
  {
    var sizes := SizesDown(caps, MAX_OPTIONS);
    assert sizes == [] <==> forall k: nat :: !BatchSize(caps, k) by {
      if sizes != [] { assert sizes[0] in sizes && BatchSize(caps, sizes[0]); }
      if k: nat :| BatchSize(caps, k) { assert k in sizes; }
    }
    if |candidates| > 1 && DistinctIds(candidates) && sizes != [] {
      TournamentErrors(candidates, sizes, choose, [], 0);
    }
  }

  // ---- Nobody is passed over --------------------------------------------------------------

  /** Some call from number `start` on presented c and was answered with a member of its batch. */
  ghost predicate Heard(choose: Chooser, calls: seq<seq<Candidate>>, start: nat, c: Candidate) {
    exists i :: start <= i < |calls| && HeardIn(choose, calls, i, c)
  }

  predicate HeardIn(choose: Chooser, calls: seq<seq<Candidate>>, i: nat, c: Candidate)
    requires i < |calls|
  {
    c in calls[i] && Winner(calls[i], choose(i, calls[i])).Success?
  }

  lemma StillHeard(choose: Chooser, a: seq<seq<Candidate>>, b: seq<seq<Candidate>>, start: nat, c: Candidate)
    requires a <= b && Heard(choose, a, start, c)
    ensures Heard(choose, b, start, c)
  {
    var i :| start <= i < |a| && HeardIn(choose, a, i, c);
    assert HeardIn(choose, b, i, c);
  }

  /** In a round an item is presented, unless it is the trailing one, which goes through. */
  lemma {:induction false} RoundHears(
    items: seq<Candidate>, parts: seq<nat>, choose: Chooser, calls: seq<seq<Candidate>>, winners: seq<Candidate>,
    c: Candidate)
    requires Plan(parts, |items|) && c in items
    ensures
      var p := RoundFrom(items, parts, choose, calls, winners);
      p.outcome.Success? ==>
        calls <= p.calls && winners <= p.outcome.value &&
        (Heard(choose, p.calls, |calls|, c) || (1 in parts && c in p.outcome.value))
    decreases |parts|
  {
    var batch, rest := items[..parts[0]], items[parts[0]..];
    assert items == batch + rest;
    var p := RoundFrom(items, parts, choose, calls, winners);
    if p.outcome.Success? {
      var calls', winners' := calls, winners + [batch[0]];
      if |batch| != 1 {
        calls', winners' := calls + [batch], winners + [Winner(batch, choose(|calls|, batch)).value];
        if c in batch { assert HeardIn(choose, calls', |calls|, c); }
      }
      RoundExtends(rest, parts[1..], choose, calls', winners');
      if c in batch {
        if |batch| == 1 { assert c in winners'; } else { StillHeard(choose, calls', p.calls, |calls|, c); }
      } else {
        RoundHears(rest, parts[1..], choose, calls', winners', c);
      }
    }
  }

  lemma {:induction false} RoundExtends(
    items: seq<Candidate>, parts: seq<nat>, choose: Chooser, calls: seq<seq<Candidate>>, winners: seq<Candidate>)
    requires Plan(parts, |items|)
    ensures
      var p := RoundFrom(items, parts, choose, calls, winners);
      calls <= p.calls && (p.outcome.Success? ==> winners <= p.outcome.value)
    decreases |parts|
  {
    if parts != [] {
      var batch, rest := items[..parts[0]], items[parts[0]..];
      if |batch| == 1 {
        RoundExtends(rest, parts[1..], choose, calls, winners + [batch[0]]);
      } else {
        var won := Winner(batch, choose(|calls|, batch));
        if won.Success? { RoundExtends(rest, parts[1..], choose, calls + [batch], winners + [won.value]); }
      }
    }
  }

  /** One part cannot be a bye. */
  lemma LonePart(parts: seq<nat>)
    requires Sum(parts) >= 2 && |parts| == 1
    ensures 1 !in parts
  {
    assert Sum(parts) == parts[0] + Sum(parts[1..]) && parts[1..] == [];
  }

  lemma WholeRoundHears(
    items: seq<Candidate>, sizes: seq<Size>, choose: Chooser, calls: seq<seq<Candidate>>, c: Candidate)
    requires |items| >= 2 && c in items
    ensures
      var p := Round(items, sizes, choose, calls);
      p.outcome.Success? ==>
        calls <= p.calls &&
        (Heard(choose, p.calls, |calls|, c) || (|p.outcome.value| >= 2 && c in p.outcome.value))
  {
    PartitionSound(|items|, sizes, sizes);
    var plan := PartitionFrom(|items|, sizes, sizes);
    if plan.Some? {
      RoundHears(items, plan.value, choose, calls, [], c);
      if |plan.value| == 1 { LonePart(plan.value); }
    }
  }

  lemma {:induction false} TournamentHears(
    items: seq<Candidate>, sizes: seq<Size>, choose: Chooser, calls: seq<seq<Candidate>>, rounds: nat, c: Candidate)
    requires |items| >= 2 && rounds <= MAX_ROUNDS && c in items
    ensures
      var p := TournamentFrom(items, sizes, choose, calls, rounds);
      p.outcome.Success? ==> Heard(choose, p.calls, |calls|, c)
    decreases MAX_ROUNDS - rounds
  {
    var p := TournamentFrom(items, sizes, choose, calls, rounds);
    if p.outcome.Success? {
      var round := Round(items, sizes, choose, calls);
      WholeRoundHears(items, sizes, choose, calls, c);
      TournamentConserves(round.outcome.value, sizes, choose, round.calls, rounds + 1);
      if Heard(choose, round.calls, |calls|, c) {
        StillHeard(choose, round.calls, p.calls, |calls|, c);
      } else {
        TournamentHears(round.outcome.value, sizes, choose, round.calls, rounds + 1, c);
      }
    }
  }

  /** A selection among two or more that succeeds has presented every candidate to the chooser. */
  lemma EveryoneHeard(candidates: seq<Candidate>, caps: Capabilities, choose: Chooser, c: Candidate)
    requires |candidates| >= 2 && c in candidates
    ensures
      var p := Select(candidates, caps, choose);
      p.outcome.Success? ==> Heard(choose, p.calls, 0, c)
  {
    if Select(candidates, caps, choose).outcome.Success? {
      TournamentHears(candidates, SizesDown(caps, MAX_OPTIONS), choose, [], 0, c);
    }
  }

  lemma {:induction false} RoundPresents(
    items: seq<Candidate>, parts: seq<nat>, choose: Chooser, calls: seq<seq<Candidate>>, winners: seq<Candidate>,
    sizes: seq<Size>, all: seq<Candidate>)
    requires Plan(parts, |items|) && Supported(parts, sizes) && DistinctIds(items) && Within(items, all)
    requires forall b | b in calls :: Presentable(b, all, sizes)
    ensures forall b | b in RoundFrom(items, parts, choose, calls, winners).calls :: Presentable(b, all, sizes)
    decreases |parts|
  {
    if parts != [] {
      var batch, rest := items[..parts[0]], items[parts[0]..];
      assert Within(batch, all) && Within(rest, all) && Supported(parts[1..], sizes);
      if |batch| == 1 {
        RoundPresents(rest, parts[1..], choose, calls, winners + [batch[0]], sizes, all);
      } else {
        assert Presentable(batch, all, sizes);
        var won := Winner(batch, choose(|calls|, batch));
        if won.Success? {
          RoundPresents(rest, parts[1..], choose, calls + [batch], winners + [won.value], sizes, all);
        }
      }
    }
  }

  lemma {:induction false} TournamentPresents(
    items: seq<Candidate>, sizes: seq<Size>, choose: Chooser, calls: seq<seq<Candidate>>, rounds: nat,
    all: seq<Candidate>)
    requires items != [] && rounds <= MAX_ROUNDS && DistinctIds(items) && Within(items, all)
    requires forall b | b in calls :: Presentable(b, all, sizes)
    ensures forall b | b in TournamentFrom(items, sizes, choose, calls, rounds).calls :: Presentable(b, all, sizes)
    decreases MAX_ROUNDS - rounds
  {
    if |items| > 1 {
      PartitionSound(|items|, sizes, sizes);
      var plan := PartitionFrom(|items|, sizes, sizes);
      if plan.Some? {
        RoundPresents(items, plan.value, choose, calls, [], sizes, all);
        RoundWinners(items, sizes, choose, calls);
        var p := Round(items, sizes, choose, calls);
        if p.outcome.Success? && rounds < MAX_ROUNDS {
          TournamentPresents(p.outcome.value, sizes, choose, p.calls, rounds + 1, all);
        }
      }
    }
  }

  /** Every batch that a selection presents consists of distinct candidates and has a supported size. */
  lemma SelectionPresents(candidates: seq<Candidate>, caps: Capabilities, choose: Chooser)
    ensures forall b | b in Select(candidates, caps, choose).calls ::
              Presentable(b, candidates, SizesDown(caps, MAX_OPTIONS))
  {
    if candidates != [] && DistinctIds(candidates) {
      TournamentPresents(candidates, SizesDown(caps, MAX_OPTIONS), choose, [], 0, candidates);
    }
  }

  // ---- Refinement to the maximum --------------------------------------------------------

  type Order = (Candidate, Candidate) -> bool

  /** A strict total order on these candidates. */
  ghost predicate Orders(less: Order, s: seq<Candidate>) {
    && (forall a | a in s :: !less(a, a))
    && (forall a, b, c | a in s && b in s && c in s :: less(a, b) && less(b, c) ==> less(a, c))
    && (forall a, b | a in s && b in s :: a != b ==> less(a, b) || less(b, a))
  }

  lemma OrdersNarrow(less: Order, s: seq<Candidate>, some: seq<Candidate>)
    requires Orders(less, s) && Within(some, s)
    ensures Orders(less, some)
  {
  }

  ghost predicate IsMax(less: Order, m: Candidate, s: seq<Candidate>) {
    m in s && forall c | c in s && c != m :: less(c, m)
  }

  /** Of every batch that may be presented the chooser names the greatest. */
  ghost predicate Greatest(choose: Chooser, less: Order, items: seq<Candidate>, sizes: seq<Size>) {
    forall n: nat, b: seq<Candidate>, m | Presentable(b, items, sizes) && IsMax(less, m, b) ::
      choose(n, b) == Chosen(m.id)
  }

  lemma {:induction false} MaxExists(less: Order, s: seq<Candidate>) returns (m: Candidate)
    requires Orders(less, s) && s != []
    ensures IsMax(less, m, s)
  {
    m := s[0];
    if |s| > 1 {
      OrdersNarrow(less, s, s[1..]);
      var rest := MaxExists(less, s[1..]);
      assert s == [s[0]] + s[1..];
      if m != rest && !less(rest, m) { m := rest; }
      if m != rest { assert forall c | c in s[1..] && c != rest :: less(c, rest); }
    }
  }

  predicate SelectableIds(items: seq<Candidate>) {
    forall c | c in items :: !Blank(c.id) && c.id != ABSTAIN_ANSWER_ID
  }

  /** In a batch with distinct ids the named maximum is found. */
  lemma MaxWinsBatch(
    less: Order, choose: Chooser, batch: seq<Candidate>, items: seq<Candidate>, sizes: seq<Size>, n: nat)
    returns (m: Candidate)
    requires Orders(less, items) && Greatest(choose, less, items, sizes) && SelectableIds(items)
    requires Presentable(batch, items, sizes)
    ensures IsMax(less, m, batch) && Winner(batch, choose(n, batch)) == Success(m)
  {
    OrdersNarrow(less, items, batch);
    m := MaxExists(less, batch);
    FoundIsUnique(batch, m);
  }

  /** The items, the chooser and the greatest item that it would name. */
  ghost predicate Contest(
    less: Order, choose: Chooser, items: seq<Candidate>, sizes: seq<Size>, top: Candidate)
  {
    && Orders(less, items) && Greatest(choose, less, items, sizes)
    && SelectableIds(items) && DistinctIds(items) && IsMax(less, top, items)
  }

  /** The greatest of the items is the greatest of any batch that it is in. */
  lemma TopOfBatch(less: Order, items: seq<Candidate>, batch: seq<Candidate>, top: Candidate, m: Candidate)
    requires Orders(less, items) && Within(batch, items) && IsMax(less, top, items) && IsMax(less, m, batch)
    requires top in batch
    ensures m == top
  {
  }

  lemma {:induction false} MaxSurvivesRound(
    less: Order, items: seq<Candidate>, parts: seq<nat>, choose: Chooser, calls: seq<seq<Candidate>>,
    winners: seq<Candidate>, top: Candidate, sizes: seq<Size>, all: seq<Candidate>)
    requires Plan(parts, |items|) && Supported(parts, sizes) && Within(items, all) && DistinctIds(items)
    requires Orders(less, all) && Greatest(choose, less, all, sizes) && SelectableIds(all) && IsMax(less, top, all)
    requires top in winners || top in items
    ensures
      var o := RoundFrom(items, parts, choose, calls, winners).outcome;
      o.Success? && top in o.value
    decreases |parts|
  {
    if parts != [] {
      var batch, rest := items[..parts[0]], items[parts[0]..];
      assert items == batch + rest;
      assert Within(batch, all) && Within(rest, all) && Supported(parts[1..], sizes);
      var c, calls' := batch[0], calls;
      if |batch| != 1 {
        c := MaxWinsBatch(less, choose, batch, all, sizes, |calls|);
        calls' := calls + [batch];
        if top in batch { TopOfBatch(less, all, batch, top, c); }
      }
      assert top in winners + [c] || top in rest;
      MaxSurvivesRound(less, rest, parts[1..], choose, calls', winners + [c], top, sizes, all);
    }
  }

  lemma GreatestNarrows(
    less: Order, choose: Chooser, items: seq<Candidate>, some: seq<Candidate>, sizes: seq<Size>)
    requires Greatest(choose, less, items, sizes) && Within(some, items)
    ensures Greatest(choose, less, some, sizes)
  {
    forall n: nat, b: seq<Candidate>, m | Presentable(b, some, sizes) && IsMax(less, m, b)
      ensures choose(n, b) == Chosen(m.id)
    {
      assert Presentable(b, items, sizes);
    }
  }

  /** A round of a contest is a contest with the same greatest item. */
  lemma ContestRound(
    less: Order, items: seq<Candidate>, sizes: seq<Size>, choose: Chooser, calls: seq<seq<Candidate>>, top: Candidate)
    requires Contest(less, choose, items, sizes, top) && |items| >= 2 && 2 in sizes
    ensures
      var o := Round(items, sizes, choose, calls).outcome;
      o.Success? && Contest(less, choose, o.value, sizes, top)
  {
    PairsPartition(|items|, sizes);
    PartitionSound(|items|, sizes, sizes);
    MaxSurvivesRound(
      less, items, PartitionFrom(|items|, sizes, sizes).value, choose, calls, [], top, sizes, items);
    RoundWinners(items, sizes, choose, calls);
    GreatestNarrows(less, choose, items, Round(items, sizes, choose, calls).outcome.value, sizes);
    OrdersNarrow(less, items, Round(items, sizes, choose, calls).outcome.value);
  }

  /** The tournament over any items refines taking their maximum. */
  lemma {:induction false} TournamentFindsMax(
    less: Order, items: seq<Candidate>, sizes: seq<Size>, choose: Chooser, calls: seq<seq<Candidate>>, rounds: nat,
    top: Candidate)
    requires rounds <= MAX_ROUNDS && |items| <= Pow2(MAX_ROUNDS - rounds) && 2 in sizes
    requires Contest(less, choose, items, sizes, top)
    ensures TournamentFrom(items, sizes, choose, calls, rounds).outcome == Success(top)
    decreases MAX_ROUNDS - rounds
  {
    if |items| > 1 {
      ContestRound(less, items, sizes, choose, calls, top);
      var p := Round(items, sizes, choose, calls);
      TournamentFindsMax(less, p.outcome.value, sizes, choose, p.calls, rounds + 1, top);
    }
  }

  /**
   A chooser that answers each batch with its greatest candidate makes selection return the
   greatest of all the candidates, for any strict total order on them and up to 2^64 candidates.
   */
  lemma SelectionFindsMax(
    less: Order, candidates: seq<Candidate>, caps: Capabilities, choose: Chooser, top: Candidate)
    requires DistinctIds(candidates) && SelectableIds(candidates) && |candidates| <= Pow2(MAX_ROUNDS)
    requires 2 in BatchSizes(caps)
    requires Orders(less, candidates) && Greatest(choose, less, candidates, SizesDown(caps, MAX_OPTIONS))
    requires IsMax(less, top, candidates)
    ensures Select(candidates, caps, choose).outcome == Success(top)
  {
    assert BatchSize(caps, 2);
    var sizes := SizesDown(caps, MAX_OPTIONS);
    assert Contest(less, choose, candidates, sizes, top);
    TournamentFindsMax(less, candidates, sizes, choose, [], 0, top);
  }
}
