/** Per-K calibration: logits to a probability distribution, over reals. */
module Calibration {
  import opened Wrappers
  import opened Results

  datatype Calibrator = Calibrator(perK: map<nat, real>, scope: string)

  datatype CalibrationError = NoChoices | NoTemperature | TooNarrow | NotCalibrated | NoMass

  /** The exponential, of which no more is used than this. */
  ghost predicate ExpLike(exp: real -> real) {
    exp(0.0) == 1.0 && (forall x :: exp(x) >= 0.0) && forall x, y :: x <= y ==> exp(x) <= exp(y)
  }

  function Divided(row: seq<real>, t: real): seq<real>
    requires t != 0.0
  {
    seq(|row|, i requires 0 <= i < |row| => row[i] / t)
  }

  /** The first index of the greatest entry, as numpy's argmax gives it. */
  function ArgMax(row: seq<real>): (w: nat)
    requires row != []
    ensures w < |row|
    ensures forall i :: 0 <= i < |row| ==> row[i] <= row[w]
    ensures forall i :: 0 <= i < w ==> row[i] < row[w]
  {
    var rest := row[..|row| - 1];
    if rest == [] then 0
    else if row[|row| - 1] > rest[ArgMax(rest)] then |row| - 1
    else ArgMax(rest)
  }

  function Exps(scaled: seq<real>, peak: real, exp: real -> real): seq<real> {
    seq(|scaled|, i requires 0 <= i < |scaled| => exp(scaled[i] - peak))
  }

  function TemperatureFor(c: Calibrator, k: nat): Result<real, CalibrationError> {
    if k in c.perK then Success(c.perK[k]) else Failure(NoTemperature)
  }

  /** Probabilities and winner for the first k logits, renormalized a second time. */
  function CalibratedDistribution(logits: seq<real>, c: Calibrator, k: nat, exp: real -> real)
    : (r: Result<(seq<real>, nat), CalibrationError>)
    ensures r.Success? ==> |r.value.0| == k && r.value.1 < k
  {
    if k < 1 then Failure(NoChoices)
    else match TemperatureFor(c, k)
      case Failure(e) => Failure(e)
      case Success(t) =>
        if |logits| < k then Failure(TooNarrow)
        else if t == 0.0 then Failure(NotCalibrated) // the quotient would not be finite
        else
          var scaled := Divided(logits[..k], t);
          var winner := ArgMax(scaled);
          var exps := Exps(scaled, scaled[winner], exp);
          var total := Sum(exps);
          if total <= 0.0 then Failure(NotCalibrated)
          else
            Success((Renormalize(exps), winner))
  }

  /** Drops nothing itself: renormalizes the mass it is given, failing closed on none. */
  function ConditionalMass(probs: seq<real>): (r: Result<seq<real>, CalibrationError>)
    ensures r.Success? ==> |r.value| == |probs|
  {
    var total := Sum(probs);
    if total <= 0.0 then Failure(NoMass) else Success(Divided(probs, total))
  }

  // ---- Sums and quotients -------------------------------------------------------------------

  lemma {:induction false} SumNonNegative(s: seq<real>)
    requires forall x | x in s :: x >= 0.0
    ensures Sum(s) >= 0.0
    ensures forall x | x in s :: x <= Sum(s)
  {
    if s != [] {
      assert s == [s[0]] + s[1..];
      assert forall x | x in s[1..] :: x in s;
      SumNonNegative(s[1..]);
      assert s[0] in s;
    }
  }

  lemma {:induction false} SumAppend(a: seq<real>, b: seq<real>)
    ensures Sum(a + b) == Sum(a) + Sum(b)
  {
    if a == [] {
      assert a + b == b;
    } else {
      SumAppend(a[1..], b);
      assert (a + b)[1..] == a[1..] + b;
    }
  }

  lemma QuotientOfSum(x: real, y: real, t: real)
    requires t != 0.0
    ensures (x + y) / t == x / t + y / t
  {
    assert (x / t + y / t) * t == x / t * t + y / t * t == x + y;
  }

  lemma {:induction false} SumDivided(s: seq<real>, t: real)
    requires t != 0.0
    ensures Sum(Divided(s, t)) == Sum(s) / t
  {
    if s != [] {
      SumDivided(s[1..], t);
      assert Divided(s, t)[1..] == Divided(s[1..], t);
      QuotientOfSum(s[0], Sum(s[1..]), t);
    }
  }

  lemma QuotientOrder(x: real, y: real, t: real)
    requires t > 0.0
    ensures x <= y <==> x / t <= y / t
  {
    assert x / t * t == x && y / t * t == y;
  }

  lemma QuotientOfOne(x: real)
    requires x != 0.0
    ensures x / x == 1.0
  {
  }

  /** Entries of a nonnegative row over its positive sum: a distribution that keeps the order. */
  lemma Normalized(s: seq<real>)
    requires (forall x | x in s :: x >= 0.0) && Sum(s) > 0.0
    ensures
      var p := Divided(s, Sum(s));
      && Sum(p) == 1.0
      && (forall i :: 0 <= i < |p| ==> Probability(p[i]))
      && (forall i, j :: 0 <= i < |p| && 0 <= j < |p| ==> (s[i] <= s[j] <==> p[i] <= p[j]))
  {
    var t := Sum(s);
    var p := Divided(s, t);
    SumDivided(s, t);
    QuotientOfOne(t);
    SumNonNegative(s);
    forall i | 0 <= i < |p|
      ensures Probability(p[i])
    {
      assert s[i] in s;
      QuotientOrder(0.0, s[i], t);
      QuotientOrder(s[i], t, t);
    }
    forall i, j | 0 <= i < |p| && 0 <= j < |p|
      ensures s[i] <= s[j] <==> p[i] <= p[j]
    {
      QuotientOrder(s[i], s[j], t);
    }
  }

  // ---- What calibration gives ----------------------------------------------------------------

  /** A distribution over the first k logits whose greatest entry is the winner's. */
  ghost predicate Calibrated(logits: seq<real>, k: nat, probs: seq<real>, winner: nat) {
    && 1 <= k <= |logits| && |probs| == k && winner == ArgMax(logits[..k])
    && Sum(probs) == 1.0
    && (forall i :: 0 <= i < k ==> Probability(probs[i]))
    && (forall i :: 0 <= i < k ==> probs[i] <= probs[winner])
    && probs[winner] > 0.0
    && OrderKept(logits, probs)
  }

  /** A greater logit never has a smaller probability. */
  predicate OrderKept(logits: seq<real>, probs: seq<real>) {
    |probs| <= |logits| &&
    forall i, j :: 0 <= i < |probs| && 0 <= j < |probs| && logits[i] <= logits[j] ==> probs[i] <= probs[j]
  }

  lemma ExpsKeepOrder(row: seq<real>, t: real, peak: real, exp: real -> real)
    requires t > 0.0 && ExpLike(exp)
    ensures OrderKept(row, Exps(Divided(row, t), peak, exp))
  {
    var exps := Exps(Divided(row, t), peak, exp);
    forall i, j | 0 <= i < |row| && 0 <= j < |row| && row[i] <= row[j]
      ensures exps[i] <= exps[j]
    {
      QuotientOrder(row[i], row[j], t);
    }
  }

  lemma ArgMaxUnique(row: seq<real>, w: nat)
    requires w < |row| && forall i :: 0 <= i < |row| ==> row[i] <= row[w]
    requires forall i :: 0 <= i < w ==> row[i] < row[w]
    ensures ArgMax(row) == w
  {
    assert row[w] <= row[ArgMax(row)];
  }

  lemma ScalingKeepsArgMax(row: seq<real>, t: real)
    requires row != [] && t > 0.0
    ensures ArgMax(Divided(row, t)) == ArgMax(row)
  {
    var scaled, w := Divided(row, t), ArgMax(row);
    forall i | 0 <= i < |row|
      ensures scaled[i] <= scaled[w] && (i < w ==> scaled[i] < scaled[w])
    {
      QuotientOrder(row[i], row[w], t);
      QuotientOrder(row[w], row[i], t);
    }
    ArgMaxUnique(scaled, w);
  }

  lemma WinnerExp(scaled: seq<real>, exp: real -> real)
    requires scaled != [] && ExpLike(exp)
    ensures
      var w := ArgMax(scaled);
      var exps := Exps(scaled, scaled[w], exp);
      && exps[w] == 1.0 && (forall x | x in exps :: x >= 0.0) && Sum(exps) >= 1.0
      && forall i :: 0 <= i < |exps| ==> exps[i] <= exps[w]
  {
    var w := ArgMax(scaled);
    var exps := Exps(scaled, scaled[w], exp);
    assert exps[w] in exps;
    SumNonNegative(exps);
  }

  function Renormalize(s: seq<real>): (p: seq<real>)
    requires Sum(s) != 0.0
    ensures |p| == |s|
  {
    var once := Divided(s, Sum(s));
    SumDivided(s, Sum(s));
    QuotientOfOne(Sum(s));
    Divided(once, Sum(once))
  }

  /** Dividing by the sum, twice or once, gives the one distribution in the proportions of the row. */
  lemma RenormalizedSound(s: seq<real>)
    requires (forall x | x in s :: x >= 0.0) && Sum(s) > 0.0
    ensures
      var p := Renormalize(s);
      && Sum(p) == 1.0
      && (forall i :: 0 <= i < |s| ==> Probability(p[i]) && p[i] == s[i] / Sum(s))
      && (forall i, j :: 0 <= i < |s| && 0 <= j < |s| ==> (s[i] <= s[j] <==> p[i] <= p[j]))
  {
    Normalized(s);
    var once := Divided(s, Sum(s));
    assert Renormalize(s) == once;
  }

  /**
   With a positive temperature for k and enough logits, calibration never fails: it gives a
   distribution over the first k candidates that is greatest at the first greatest logit.
   */
  lemma CalibrationSound(logits: seq<real>, c: Calibrator, k: nat, exp: real -> real)
    requires ExpLike(exp) && k >= 1 && k in c.perK && c.perK[k] > 0.0 && |logits| >= k
    ensures
      var r := CalibratedDistribution(logits, c, k, exp);
      r.Success? && Calibrated(logits, k, r.value.0, r.value.1)
  {
    var row, t := logits[..k], c.perK[k];
    var scaled := Divided(row, t);
    var w := ArgMax(scaled);
    var exps := Exps(scaled, scaled[w], exp);
    ScalingKeepsArgMax(row, t);
    WinnerExp(scaled, exp);
    ExpsKeepOrder(row, t, scaled[w], exp);
    CalibratedFrom(logits, k, exps, w);
    DistributionIs(logits, c, k, exp);
  }

  lemma CalibratedFrom(logits: seq<real>, k: nat, exps: seq<real>, w: nat)
    requires 1 <= k <= |logits| && |exps| == k && w == ArgMax(logits[..k]) && OrderKept(logits[..k], exps)
    requires exps[w] == 1.0 && Sum(exps) >= 1.0 && forall x | x in exps :: x >= 0.0
    requires forall i :: 0 <= i < k ==> exps[i] <= exps[w]
    ensures Calibrated(logits, k, Renormalize(exps), w)
  {
    RenormalizedSound(exps);
    QuotientOrder(exps[w], 0.0, Sum(exps));
    OrderCarries(logits, k, exps, Renormalize(exps));
  }

  /** What is computed where nothing can fail. */
  lemma DistributionIs(logits: seq<real>, c: Calibrator, k: nat, exp: real -> real)
    requires k >= 1 && k in c.perK && c.perK[k] > 0.0 && |logits| >= k
    ensures
      var scaled := Divided(logits[..k], c.perK[k]);
      var exps := Exps(scaled, scaled[ArgMax(scaled)], exp);
      Sum(exps) > 0.0 ==>
        CalibratedDistribution(logits, c, k, exp) == Success((Renormalize(exps), ArgMax(scaled)))
  {
  }

  lemma OrderCarries(logits: seq<real>, k: nat, exps: seq<real>, probs: seq<real>)
    requires k <= |logits| && |exps| == |probs| == k && OrderKept(logits[..k], exps)
    requires forall i, j :: 0 <= i < k && 0 <= j < k ==> (exps[i] <= exps[j] <==> probs[i] <= probs[j])
    ensures OrderKept(logits, probs)
  {
    var row := logits[..k];
    forall i, j | 0 <= i < k && 0 <= j < k && logits[i] <= logits[j]
      ensures probs[i] <= probs[j]
    {
      assert row[i] <= row[j] && exps[i] <= exps[j];
    }
  }

  /** The exponential of a scaled logit, taken from the first greatest one. */
  function Weight(logits: seq<real>, t: real, k: nat, exp: real -> real, i: nat): real
    requires t > 0.0 && i < k <= |logits|
  {
    exp(logits[i] / t - logits[ArgMax(logits[..k])] / t)
  }

  datatype Scale = Scale(c: Calibrator, exp: real -> real)

  /** Each probability is its weight over z. */
  predicate Proportional(logits: seq<real>, t: real, probs: seq<real>, exp: real -> real, z: real)
    requires t > 0.0 && |probs| <= |logits|
  {
    z > 0.0 && forall i :: 0 <= i < |probs| ==> probs[i] == Weight(logits, t, |probs|, exp, i) / z
  }

  /** Each probability is its weight over one common z, which their sum of one then fixes. */
  ghost predicate Softmax(logits: seq<real>, k: nat, probs: seq<real>, scale: Scale) {
    && k in scale.c.perK && scale.c.perK[k] > 0.0 && |probs| == k <= |logits|
    && exists z :: Proportional(logits, scale.c.perK[k], probs, scale.exp, z)
  }

  /** The probabilities are those of a softmax at the temperature of exactly this k. */
  lemma CalibrationIsSoftmax(logits: seq<real>, c: Calibrator, k: nat, exp: real -> real)
    requires ExpLike(exp) && k >= 1 && k in c.perK && c.perK[k] > 0.0 && |logits| >= k
    ensures
      var r := CalibratedDistribution(logits, c, k, exp);
      r.Success? && Softmax(logits, k, r.value.0, Scale(c, exp))
  {
    var row, t := logits[..k], c.perK[k];
    var scaled := Divided(row, t);
    var w := ArgMax(scaled);
    var exps := Exps(scaled, scaled[w], exp);
    ScalingKeepsArgMax(row, t);
    WinnerExp(scaled, exp);
    RenormalizedSound(exps);
    assert forall i :: 0 <= i < k ==> exps[i] == Weight(logits, t, k, exp, i);
    assert Proportional(logits, t, Renormalize(exps), exp, Sum(exps));
  }

  /** The last candidate wins exactly when its logit is strictly above all the others. */
  lemma LastWins(logits: seq<real>, k: nat)
    requires 1 <= k <= |logits|
    ensures ArgMax(logits[..k]) == k - 1 <==> forall i :: 0 <= i < k - 1 ==> logits[i] < logits[k - 1]
  {
    var row := logits[..k];
    assert forall i :: 0 <= i < k ==> row[i] == logits[i];
  }

  /** When the last candidate does not win, the mass of the others is positive and can be conditioned on. */
  lemma ConditioningSound(probs: seq<real>, winner: nat)
    requires winner < |probs| && (forall i :: 0 <= i < |probs| ==> probs[i] >= 0.0) && probs[winner] > 0.0
    requires forall i :: 0 <= i < |probs| ==> probs[i] <= probs[winner]
    ensures
      var r := ConditionalMass(probs);
      && r.Success? && |r.value| == |probs| && Sum(r.value) == 1.0
      && (forall i :: 0 <= i < |probs| ==> Probability(r.value[i]) && r.value[i] <= r.value[winner])
  {
    assert probs[winner] in probs;
    SumNonNegative(probs);
    Normalized(probs);
  }
}
