/** Tournament selection: one winner out of any number, by batches of supported sizes. */
module Selection {
  import opened Wrappers
  import opened Text
  import opened Models
  import opened Validation
  import opened Questions
  import opened Registry

  const MAX_ROUNDS: nat := 64

  datatype SelectionError =
    | NoCandidates
    | DuplicateIds
    | NoBatchSize
    | NoPartition
    | UnusableAnswer
    | Abstained
    | UnknownAnswer
    | RoundLimit
    | ChooserFailed // the callback's own exception

  /** What one Choice call returns. */
  datatype Answer = Chosen(id: string) | NotAString | Raised

  /** Any chooser at all: it sees how many calls went before, so it need not repeat itself. */
  type Chooser = (nat, seq<Candidate>) -> Answer

  // ---- Partition -----------------------------------------------------------------

  /** A batch size: `_supported_sizes_desc` lets no smaller one through. */
  type Size = k: nat | k >= 2 witness 2

  /** Batches of `size` leave nothing, a singleton, or a supported size. */
  predicate Fits(length: nat, size: Size, sizes: seq<Size>) {
    size <= length && (length % size == 0 || length % size == 1 || length % size in sizes)
  }

  function Batches(length: nat, size: Size): seq<nat> {
    seq(length / size, _ => size) + if length % size == 0 then [] else [length % size]
  }

  /** The first size of `from` that fits decides the partition. */
  function PartitionFrom(length: nat, from: seq<Size>, sizes: seq<Size>): Option<seq<nat>> {
    if from == [] then None
    else if Fits(length, from[0], sizes) then Some(Batches(length, from[0]))
    else PartitionFrom(length, from[1..], sizes)
  }

  method Partition(length: nat, sizesDesc: seq<Size>, sizeSet: set<Size>) returns (r: Option<seq<nat>>)
    requires forall k: Size :: k in sizeSet <==> k in sizesDesc
    ensures r == PartitionFrom(length, sizesDesc, sizesDesc)
  {
    for i := 0 to |sizesDesc|
      invariant PartitionFrom(length, sizesDesc, sizesDesc) == PartitionFrom(length, sizesDesc[i..], sizesDesc)
    {
      var size := sizesDesc[i];
      assert sizesDesc[i..][1..] == sizesDesc[i + 1..];
      if size > length { continue; }
      var remainder := length % size;
      assert remainder == 0 ==> Batches(length, size) == seq(length / size, _ => size);
      if remainder == 0 { return Some(seq(length / size, _ => size)); }
      if remainder == 1 { return Some(seq(length / size, _ => size) + [1]); }
      if remainder in sizeSet { return Some(seq(length / size, _ => size) + [remainder]); }
    }
    r := None;
  }

  function Sum(parts: seq<nat>): nat {
    if parts == [] then 0 else parts[0] + Sum(parts[1..])
  }

  lemma {:induction false} SumAppend(a: seq<nat>, b: seq<nat>)
    ensures Sum(a + b) == Sum(a) + Sum(b)
  {
    if a == [] {
      assert a + b == b;
    } else {
      SumAppend(a[1..], b);
      assert (a + b)[1..] == a[1..] + b;
    }
  }

  lemma {:induction false} SumRepeat(n: nat, k: nat)
    ensures Sum(seq(n, _ => k)) == n * k
  {
    if n > 0 {
      SumRepeat(n - 1, k);
      assert seq(n, _ => k)[1..] == seq(n - 1, _ => k);
      assert n * k == k + (n - 1) * k;
    }
  }

  /** Parts are supported sizes, but for at most one singleton, and that one comes last. */
  predicate Supported(parts: seq<nat>, sizes: seq<Size>) {
    forall i :: 0 <= i < |parts| ==> parts[i] in sizes || (parts[i] == 1 && i == |parts| - 1)
  }

  lemma HalvesAtLeast(length: nat, n: nat, size: Size, rest: nat)
    requires length == n * size + rest && rest < size <= length
    ensures 0 < n && n + (if rest == 0 then 0 else 1) <= (length + 1) / 2
  {
    assert 2 * n <= n * size;
    assert n != 0;
  }

  lemma BatchesSupported(length: nat, size: Size, sizes: seq<Size>)
    requires size in sizes && Fits(length, size, sizes)
    ensures Supported(Batches(length, size), sizes)
  {
  }

  lemma BatchesSound(length: nat, size: Size, sizes: seq<Size>)
    requires size in sizes && Fits(length, size, sizes)
    ensures Sum(Batches(length, size)) == length
    ensures Supported(Batches(length, size), sizes)
    ensures 0 < |Batches(length, size)| <= (length + 1) / 2
  {
    var n, rest := length / size, length % size;
    var full := seq(n, _ => size);
    BatchesSupported(length, size, sizes);
    HalvesAtLeast(length, n, size, rest);
    SumRepeat(n, size);
    SumAppend(full, if rest == 0 then [] else [rest]);
    assert Sum([rest]) == rest + Sum([]);
  }

  /**
   A partition exists exactly when some size fits; it adds up to the length, uses supported
   sizes with at most a trailing singleton, and has at most half as many parts, rounded up.
   */
  lemma {:induction false} PartitionSound(length: nat, from: seq<Size>, sizes: seq<Size>)
    requires forall k | k in from :: k in sizes
    ensures PartitionFrom(length, from, sizes).Some? <==> exists k | k in from :: Fits(length, k, sizes)
    ensures
      var p := PartitionFrom(length, from, sizes);
      p.Some? ==> Sum(p.value) == length && Supported(p.value, sizes) && 0 < |p.value| <= (length + 1) / 2
  {
    if from != [] {
      assert from == [from[0]] + from[1..];
      if Fits(length, from[0], sizes) {
        BatchesSound(length, from[0], sizes);
      } else {
        PartitionSound(length, from[1..], sizes);
      }
    }
  }

  /** The length is n times this size, with nothing, one or a supported size left over. */
  predicate Splits(length: nat, size: Size, sizes: seq<Size>, n: nat, rest: nat) {
    n >= 1 && rest < size && length == n * size + rest && (rest == 0 || rest == 1 || rest in sizes)
  }

  ghost predicate Splittable(length: nat, size: Size, sizes: seq<Size>) {
    exists n, rest :: Splits(length, size, sizes, n, rest)
  }

  lemma AtLeastOnce(k: nat, size: nat)
    requires k >= 1
    ensures k * size >= size
  {
  }

  lemma DifferenceTimes(q: int, n: int, size: int)
    ensures (q - n) * size == q * size - n * size
  {
  }

  lemma LessQuotient(size: nat, n: nat, rest: nat, q: nat, r: nat)
    requires n * size + rest == q * size + r && rest < size
    ensures n >= q
  {
    if n < q {
      AtLeastOnce(q - n, size);
      DifferenceTimes(q, n, size);
    }
  }

  /** There is one quotient and one remainder. */
  lemma QuotientUnique(length: nat, size: Size, n: nat, rest: nat)
    requires rest < size && length == n * size + rest
    ensures n == length / size && rest == length % size
  {
    var q, r := length / size, length % size;
    LessQuotient(size, n, rest, q, r);
    LessQuotient(size, q, r, n, rest);
  }

  lemma FitsMeans(length: nat, size: Size, sizes: seq<Size>)
    ensures Fits(length, size, sizes) <==> Splittable(length, size, sizes)
  {
    if Fits(length, size, sizes) {
      HalvesAtLeast(length, length / size, size, length % size);
      assert Splits(length, size, sizes, length / size, length % size);
    }
    if Splittable(length, size, sizes) {
      var n, rest :| Splits(length, size, sizes, n, rest);
      AtLeastOnce(n, size);
      QuotientUnique(length, size, n, rest);
    }
  }

  /** n batches of this size, and one of the rest if there is one. */
  predicate Parts(parts: seq<nat>, size: nat, n: nat, rest: nat) {
    && |parts| == n + (if rest == 0 then 0 else 1)
    && (forall i :: 0 <= i < n ==> parts[i] == size) && (rest != 0 ==> parts[n] == rest)
  }

  /** The size at this position is the first that splits the length, and the parts are its own. */
  ghost predicate SplitBy(length: nat, from: seq<Size>, sizes: seq<Size>, i: nat, parts: seq<nat>)
    requires i < |from|
  {
    && (forall j :: 0 <= j < i ==> !Splittable(length, from[j], sizes))
    && exists n, rest :: Splits(length, from[i], sizes, n, rest) && Parts(parts, from[i], n, rest)
  }

  /** No size splits the length, or the plan is that of the first one, in the order given, that does. */
  ghost predicate PlanOfFirst(length: nat, from: seq<Size>, sizes: seq<Size>, plan: Option<seq<nat>>) {
    match plan
    case None => forall size | size in from :: !Splittable(length, size, sizes)
    case Some(parts) => exists i :: 0 <= i < |from| && SplitBy(length, from, sizes, i, parts)
  }

  lemma {:induction false} PartitionExact(length: nat, from: seq<Size>, sizes: seq<Size>)
    ensures PlanOfFirst(length, from, sizes, PartitionFrom(length, from, sizes))
  {
    if from != [] {
      FitsMeans(length, from[0], sizes);
      if Fits(length, from[0], sizes) {
        FirstSplits(length, from, sizes);
      } else {
        PartitionExact(length, from[1..], sizes);
        LaterSplit(length, from, sizes, PartitionFrom(length, from[1..], sizes));
      }
    }
  }

  lemma FirstSplits(length: nat, from: seq<Size>, sizes: seq<Size>)
    requires from != [] && Fits(length, from[0], sizes)
    ensures PlanOfFirst(length, from, sizes, Some(Batches(length, from[0])))
  {
    FitsMeans(length, from[0], sizes);
    var n, rest :| Splits(length, from[0], sizes, n, rest);
    QuotientUnique(length, from[0], n, rest);
    assert Parts(Batches(length, from[0]), from[0], n, rest);
    assert SplitBy(length, from, sizes, 0, Batches(length, from[0]));
  }

  lemma LaterSplit(length: nat, from: seq<Size>, sizes: seq<Size>, plan: Option<seq<nat>>)
    requires from != [] && !Splittable(length, from[0], sizes) && PlanOfFirst(length, from[1..], sizes, plan)
    ensures PlanOfFirst(length, from, sizes, plan)
  {
    assert from == [from[0]] + from[1..];
    if plan.Some? {
      var i: nat :| i < |from[1..]| && SplitBy(length, from[1..], sizes, i, plan.value);
      forall j | 0 <= j < i + 1
        ensures !Splittable(length, from[j], sizes)
      {
        if j > 0 { assert from[1..][j - 1] == from[j]; }
      }
      assert SplitBy(length, from, sizes, i + 1, plan.value);
    }
  }

  /** With pairs supported, every length from two on can be partitioned. */
  lemma PairsPartition(length: nat, sizes: seq<Size>)
    requires 2 in sizes && length >= 2
    ensures PartitionFrom(length, sizes, sizes).Some?
  {
    PartitionSound(length, sizes, sizes);
    assert Fits(length, 2, sizes);
  }

  // ---- One round -------------------------------------------------------------------

  function Winner(batch: seq<Candidate>, answer: Answer): Result<Candidate, SelectionError> {
    match answer
    case Raised => Failure(ChooserFailed)
    case NotAString => Failure(UnusableAnswer)
    case Chosen(id) =>
      if Blank(id) then Failure(UnusableAnswer)
      else if id == ABSTAIN_ANSWER_ID then Failure(Abstained)
      else match FirstWithId(batch, id)
        case None => Failure(UnknownAnswer)
        case Some(c) => Success(c)
  }

  /** Each answer is judged by what it is: a member's own id, the abstention, another id, or no usable id at all. */
  lemma WinnerExact(batch: seq<Candidate>, answer: Answer, c: Candidate)
    requires DistinctIds(batch)
    ensures
      var w := Winner(batch, answer);
      && (w == Success(c) <==> c in batch && answer == Chosen(c.id) && !Blank(c.id) && c.id != "__abstain__")
      && (w == Failure(ChooserFailed) <==> answer == Raised)
      && (w == Failure(UnusableAnswer) <==> answer == NotAString || (answer.Chosen? && Blank(answer.id)))
      && (w == Failure(Abstained) <==> answer == Chosen("__abstain__"))
      && (w == Failure(UnknownAnswer) <==>
            answer.Chosen? && !Blank(answer.id) && answer.id != "__abstain__" && !HasId(batch, answer.id))
  {
    assert "__abstain__"[0] == '_' && !IsSpace('_');
    if answer.Chosen? { FoundById(batch, answer.id); }
    if c in batch { FoundIsUnique(batch, c); }
  }

  /** The outcome of a stretch of play and the batches presented to the chooser, in order. */
  datatype Play<T> = Play(outcome: Result<T, SelectionError>, calls: seq<seq<Candidate>>)

  /** The parts of a batch plan over m items. */
  predicate Plan(parts: seq<nat>, m: nat) {
    Sum(parts) == m && 0 !in parts
  }

  /** The rest of a round: `parts` to be played over `items`, after these calls and winners. */
  function RoundFrom(
    items: seq<Candidate>, parts: seq<nat>, choose: Chooser, calls: seq<seq<Candidate>>, winners: seq<Candidate>)
    : (p: Play<seq<Candidate>>)
    requires Plan(parts, |items|)
    ensures p.outcome.Success? ==> |p.outcome.value| == |winners| + |parts|
    decreases |parts|
  {
    if parts == [] then Play(Success(winners), calls)
    else
      var batch, rest := items[..parts[0]], items[parts[0]..];
      if |batch| == 1 then RoundFrom(rest, parts[1..], choose, calls, winners + [batch[0]])
      else match Winner(batch, choose(|calls|, batch))
        case Failure(e) => Play(Failure(e), calls + [batch])
        case Success(c) => RoundFrom(rest, parts[1..], choose, calls + [batch], winners + [c])
  }

  function Round(items: seq<Candidate>, sizes: seq<Size>, choose: Chooser, calls: seq<seq<Candidate>>)
    : (p: Play<seq<Candidate>>)
    ensures p.outcome.Success? ==> 0 < |p.outcome.value| <= (|items| + 1) / 2
  {
    PartitionSound(|items|, sizes, sizes);
    match PartitionFrom(|items|, sizes, sizes)
    case None => Play(Failure(NoPartition), calls)
    case Some(parts) => RoundFrom(items, parts, choose, calls, [])
  }

  /** The batch at an offset, and what remains after it. */
  lemma BatchAt(items: seq<Candidate>, parts: seq<nat>, offset: nat, i: nat)
    requires i < |parts| && offset <= |items| && Plan(parts[i..], |items| - offset)
    ensures offset + parts[i] <= |items| && parts[i] > 0 && Plan(parts[i + 1..], |items| - (offset + parts[i]))
    ensures parts[i..][0] == parts[i] && parts[i..][1..] == parts[i + 1..]
    ensures items[offset..][..parts[i]] == items[offset..offset + parts[i]]
    ensures items[offset..][parts[i]..] == items[offset + parts[i]..]
  {
    assert parts[i] in parts[i..];
    assert forall x | x in parts[i + 1..] :: x in parts[i..];
  }

  /** The loop of `_run_round`. */
  method PlayBatches(items: seq<Candidate>, parts: seq<nat>, choose: Chooser, before: seq<seq<Candidate>>)
    returns (p: Play<seq<Candidate>>)
    requires Plan(parts, |items|)
    ensures p == RoundFrom(items, parts, choose, before, [])
  {
    var winners: seq<Candidate>, calls, offset := [], before, 0;
    assert items[0..] == items && parts[0..] == parts;
    for i := 0 to |parts|
      invariant 0 <= offset <= |items| && Plan(parts[i..], |items| - offset)
      invariant RoundFrom(items[offset..], parts[i..], choose, calls, winners)
             == RoundFrom(items, parts, choose, before, [])
    {
      BatchAt(items, parts, offset, i);
      var size := parts[i];
      var batch := items[offset..offset + size];
      offset := offset + size;
      if |batch| == 1 {
        winners := winners + [batch[0]];
        continue;
      }
      var winner := Winner(batch, choose(|calls|, batch));
      calls := calls + [batch];
      if winner.Failure? { return Play(Failure(winner.error), calls); }
      winners := winners + [winner.value];
    }
    p := Play(Success(winners), calls);
  }

  method RunRound(
    items: seq<Candidate>, sizesDesc: seq<Size>, sizeSet: set<Size>, choose: Chooser, before: seq<seq<Candidate>>)
    returns (p: Play<seq<Candidate>>)
    requires forall k: Size :: k in sizeSet <==> k in sizesDesc
    ensures p == Round(items, sizesDesc, choose, before)
  {
    var batches := Partition(|items|, sizesDesc, sizeSet);
    PartitionSound(|items|, sizesDesc, sizesDesc);
    if batches == None { return Play(Failure(NoPartition), before); }
    p := PlayBatches(items, batches.value, choose, before);
  }

  // ---- The tournament ----------------------------------------------------------------

  function TournamentFrom(
    items: seq<Candidate>, sizes: seq<Size>, choose: Chooser, calls: seq<seq<Candidate>>, rounds: nat)
    : Play<Candidate>
    requires items != [] && rounds <= MAX_ROUNDS
    decreases MAX_ROUNDS - rounds
  {
    if |items| == 1 then Play(Success(items[0]), calls)
    else
      var p := Round(items, sizes, choose, calls);
      match p.outcome
      case Failure(e) => Play(Failure(e), p.calls)
      case Success(winners) =>
        if rounds + 1 > MAX_ROUNDS then Play(Failure(RoundLimit), p.calls)
        else TournamentFrom(winners, sizes, choose, p.calls, rounds + 1)
  }

  /** The supported sizes of a backend from k downwards. */
  function SizesDown(caps: Capabilities, k: nat): (sizes: seq<Size>)
    requires k <= MAX_OPTIONS
    ensures Descending(sizes) && forall i :: 0 <= i < |sizes| ==> sizes[i] <= k
    ensures forall i: nat :: i in sizes <==> i <= k && BatchSize(caps, i)
  {
    if k < MIN_OPTIONS then []
    else if BatchSize(caps, k) then [k] + SizesDown(caps, k - 1)
    else SizesDown(caps, k - 1)
  }

  function Select(candidates: seq<Candidate>, caps: Capabilities, choose: Chooser): Play<Candidate> {
    var sizes := SizesDown(caps, MAX_OPTIONS);
    if candidates == [] then Play(Failure(NoCandidates), [])
    else if !DistinctIds(candidates) then Play(Failure(DuplicateIds), [])
    else if |candidates| == 1 then Play(Success(candidates[0]), [])
    else if sizes == [] then Play(Failure(NoBatchSize), [])
    else TournamentFrom(candidates, sizes, choose, [], 0)
  }

  lemma HeadIsMember<T>(s: seq<T>)
    ensures s != [] ==> s[0] in s
  {
  }

  lemma {:induction false} DescendingUnique(a: seq<nat>, b: seq<nat>)
    requires Descending(a) && Descending(b) && forall k: nat :: k in a <==> k in b
    ensures a == b
  {
    if a != [] && b != [] {
      assert a[0] in b && b[0] in a;
      forall k: nat
        ensures k in a[1..] <==> k in b[1..]
      {
        assert k in a[1..] ==> k in a && k in b;
        assert k in b[1..] ==> k in b && k in a;
      }
      DescendingUnique(a[1..], b[1..]);
    } else if a != [] {
      HeadIsMember(a);
      assert false;
    } else if b != [] {
      HeadIsMember(b);
      assert false;
    }
  }

  method SupportedSizesDesc(caps: Capabilities) returns (r: Result<seq<Size>, SelectionError>)
    ensures
      var sizes := SizesDown(caps, MAX_OPTIONS);
      r == if sizes == [] then Failure(NoBatchSize) else Success(sizes)
  {
    var ascending := BrowserChoiceBatchSizes(caps);
    var n := |ascending|;
    var sizes: seq<nat> := seq(n, i requires 0 <= i < n => ascending[n - 1 - i]);
    forall k: nat
      ensures k in sizes <==> k in ascending
    {
      if k in ascending {
        var i :| 0 <= i < n && ascending[i] == k;
        assert sizes[n - 1 - i] == k;
      }
    }
    DescendingUnique(sizes, SizesDown(caps, MAX_OPTIONS));
    if |sizes| == 0 || sizes[|sizes| - 1] < 2 { return Failure(NoBatchSize); }
    r := Success(sizes);
  }

  method SelectCandidate(candidates: seq<Candidate>, caps: Capabilities, choose: Chooser) returns (p: Play<Candidate>)
    ensures p == Select(candidates, caps, choose)
  {
    var items := candidates;
    if items == [] { return Play(Failure(NoCandidates), []); }
    if !DistinctIds(items) { return Play(Failure(DuplicateIds), []); }
    if |items| == 1 { return Play(Success(items[0]), []); }
    var supported := SupportedSizesDesc(caps);
    if supported.Failure? { return Play(Failure(supported.error), []); }
    p := PlayRounds(items, supported.value, choose);
  }

  /** The loop of `select_candidate`. */
  method PlayRounds(candidates: seq<Candidate>, sizesDesc: seq<Size>, choose: Chooser) returns (p: Play<Candidate>)
    requires candidates != []
    ensures p == TournamentFrom(candidates, sizesDesc, choose, [], 0)
  {
    var items := candidates;
    var sizeSet := set k: Size | k in sizesDesc;
    var rounds, calls: seq<seq<Candidate>> := 0, [];
    while |items| > 1
      invariant items != [] && rounds <= MAX_ROUNDS
      invariant TournamentFrom(items, sizesDesc, choose, calls, rounds)
             == TournamentFrom(candidates, sizesDesc, choose, [], 0)
      decreases MAX_ROUNDS - rounds
    {
      var round := RunRound(items, sizesDesc, sizeSet, choose, calls);
      calls := round.calls;
      if round.outcome.Failure? { return Play(Failure(round.outcome.error), calls); }
      items := round.outcome.value;
      rounds := rounds + 1;
      if rounds > MAX_ROUNDS { return Play(Failure(RoundLimit), calls); }
    }
    p := Play(Success(items[0]), calls);
  }
}
