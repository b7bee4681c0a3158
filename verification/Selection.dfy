/** How a leveled list picks among its entries, given the chance each entry's
    gate passes: the odds the engine computes, and the random processes those
    odds describe. */
module Selection {
  import opened RealMath
  import opened RandomProcess

  datatype Model = Pool | UseAll | UseFirstMatch

  /** Above this many entries the pool's subset enumeration is approximated. */
  const MAX_EXACT_POOL_ENTRIES := 16

  ghost predicate Probabilities(ps: seq<real>) {
    forall p <- ps :: 0.0 <= p <= 1.0
  }

  // -------------------------------------------------------------- sums of reals

  ghost function Sum(xs: seq<real>): real {
    if |xs| == 0 then 0.0 else xs[0] + Sum(xs[1..])
  }

  ghost function Dot(xs: seq<real>, ys: seq<real>): real
    requires |xs| == |ys|
  {
    if |xs| == 0 then 0.0 else Mul(xs[0], ys[0]) + Dot(xs[1..], ys[1..])
  }

  /** The chance that every gate fails. */
  ghost function AllFail(gates: seq<real>): real {
    if |gates| == 0 then 1.0 else Mul(1.0 - gates[0], AllFail(gates[1..]))
  }

  ghost function MixSeq(c: real, xs: seq<real>, ys: seq<real>): (zs: seq<real>)
    requires |xs| == |ys|
    ensures |zs| == |xs|
  {
    seq(|xs|, i requires 0 <= i < |xs| => Mix(c, xs[i], ys[i]))
  }

  lemma {:induction false} DotMixSeq(c: real, xs: seq<real>, ys: seq<real>, vs: seq<real>)
    requires |xs| == |ys| == |vs|
    ensures Dot(MixSeq(c, xs, ys), vs) == Mix(c, Dot(xs, vs), Dot(ys, vs))
  {
    hide Mul, Mix;
    if |xs| == 0 {
      MixConstant(c, 0.0);
    } else {
      DotMixSeq(c, xs[1..], ys[1..], vs[1..]);
      assert MixSeq(c, xs, ys)[1..] == MixSeq(c, xs[1..], ys[1..]);
      MixScaled(c, vs[0], xs[0], ys[0]);
      MulAssociates(vs[0], xs[0], 1.0);
      MulAssociates(vs[0], ys[0], 1.0);
      MulAssociates(vs[0], Mix(c, xs[0], ys[0]), 1.0);
      MixAdds(c, Mul(xs[0], vs[0]), Mul(ys[0], vs[0]), Dot(xs[1..], vs[1..]), Dot(ys[1..], vs[1..]));
    }
  }

  lemma {:induction false} SumMixSeq(c: real, xs: seq<real>, ys: seq<real>)
    requires |xs| == |ys|
    ensures Sum(MixSeq(c, xs, ys)) == Mix(c, Sum(xs), Sum(ys))
  {
    hide Mul, Mix;
    if |xs| == 0 {
      MixConstant(c, 0.0);
    } else {
      SumMixSeq(c, xs[1..], ys[1..]);
      assert MixSeq(c, xs, ys)[1..] == MixSeq(c, xs[1..], ys[1..]);
      MixAdds(c, xs[0], ys[0], Sum(xs[1..]), Sum(ys[1..]));
    }
  }

  // ------------------------------------------------------ the pool: uniform pick

  /** `1 / n`, and 0 for `n == 0`. */
  ghost function Inverse(n: nat): real {
    if n == 0 then 0.0 else 1.0 / (n as real)
  }

  /** The expected value of `1 / (k + number of passing gates)`. */
  ghost function ExpectedShare(gates: seq<real>, k: nat): real {
    if |gates| == 0 then Inverse(k)
    else Mix(gates[0], ExpectedShare(gates[1..], k + 1), ExpectedShare(gates[1..], k))
  }

  ghost function Without(gates: seq<real>, i: nat): seq<real>
    requires i < |gates|
  {
    gates[..i] + gates[i + 1..]
  }

  /** An entry is picked when its gate passes and it wins the uniform draw
      against the other entries that pass. */
  ghost function PoolOdds(gates: seq<real>, i: nat): real
    requires i < |gates|
  {
    Mul(gates[i], ExpectedShare(Without(gates, i), 1))
  }

  /** Each entry's chance to be drawn when `k` rivals already passed. */
  ghost function PoolDraw(gates: seq<real>, k: nat): (odds: seq<real>)
    ensures |odds| == |gates|
  {
    if |gates| == 0 then []
    else [Mul(gates[0], ExpectedShare(gates[1..], k + 1))]
         + MixSeq(gates[0], PoolDraw(gates[1..], k + 1), PoolDraw(gates[1..], k))
  }

  lemma {:induction false} PoolDrawIsPoolOdds(gates: seq<real>, k: nat, i: nat)
    requires i < |gates|
    ensures PoolDraw(gates, k)[i] == Mul(gates[i], ExpectedShare(Without(gates, i), k + 1))
  {
    hide Mul, Mix;
    var rest := gates[1..];
    if i == 0 {
      assert Without(gates, 0) == rest;
    } else {
      PoolDrawIsPoolOdds(rest, k + 1, i - 1);
      PoolDrawIsPoolOdds(rest, k, i - 1);
      var others := Without(rest, i - 1);
      assert Without(gates, i) == [gates[0]] + others;
      assert Without(gates, i)[1..] == others;
      MixScaled(gates[0], gates[i], ExpectedShare(others, k + 2), ExpectedShare(others, k + 1));
    }
  }

  ghost function PoolRest(gates: seq<real>, k: nat): real {
    if k == 0 then AllFail(gates) else Mul(k as real, ExpectedShare(gates, k))
  }

  lemma {:induction false} PoolDrawTotal(gates: seq<real>, k: nat)
    ensures Sum(PoolDraw(gates, k)) == 1.0 - PoolRest(gates, k)
  {
    hide Mul, Mix, Inverse;
    if |gates| == 0 {
      InverseLaw(k);
    } else {
      var g, rest := gates[0], gates[1..];
      PoolDrawTotal(rest, k + 1);
      PoolDrawTotal(rest, k);
      var a, b := PoolDraw(rest, k + 1), PoolDraw(rest, k);
      assert PoolDraw(gates, k)[1..] == MixSeq(g, a, b);
      SumMixSeq(g, a, b);
      PoolRestStep(g, rest, k);
      assert [g] + rest == gates;
    }
  }

  lemma InverseLaw(k: nat)
    ensures k > 0 ==> Mul(k as real, Inverse(k)) == 1.0
    ensures 0.0 <= Inverse(k) <= 1.0
  {}

  lemma PoolRestStep(g: real, rest: seq<real>, k: nat)
    ensures Mul(g, ExpectedShare(rest, k + 1)) + Mix(g, 1.0 - PoolRest(rest, k + 1), 1.0 - PoolRest(rest, k))
         == 1.0 - PoolRest([g] + rest, k)
  {
    var gates := [g] + rest;
    assert gates[1..] == rest;
    var x, y := ExpectedShare(rest, k + 1), ExpectedShare(rest, k);
    if k == 0 {
      assert PoolRest(gates, 0) == Mul(1.0 - g, AllFail(rest));
      PoolRestRing(g, x, AllFail(rest));
    } else {
      assert ExpectedShare(gates, k) == Mix(g, x, y);
      PoolRestRing'(g, k as real, x, y);
    }
  }

  lemma PoolRestRing(g: real, x: real, f: real)
    ensures Mul(g, x) + Mix(g, 1.0 - Mul(1.0, x), 1.0 - f) == 1.0 - Mul(1.0 - g, f)
  {}

  lemma PoolRestRing'(g: real, k: real, x: real, y: real)
    ensures Mul(g, x) + Mix(g, 1.0 - Mul(k + 1.0, x), 1.0 - Mul(k, y)) == 1.0 - Mul(k, Mix(g, x, y))
  {}

  lemma {:induction false} ExpectedShareBounded(gates: seq<real>, k: nat)
    requires Probabilities(gates)
    ensures 0.0 <= ExpectedShare(gates, k) <= 1.0
  {
    hide Mul, Mix, Inverse;
    if |gates| == 0 {
      InverseLaw(k);
    } else {
      assert gates[0] in gates && forall p <- gates[1..] :: p in gates;
      ExpectedShareBounded(gates[1..], k + 1);
      ExpectedShareBounded(gates[1..], k);
      MixBounded(gates[0], 0.0, ExpectedShare(gates[1..], k + 1), ExpectedShare(gates[1..], k), 1.0);
    }
  }

  lemma PoolOddsBounded(gates: seq<real>, i: nat)
    requires Probabilities(gates) && i < |gates|
    ensures 0.0 <= PoolOdds(gates, i) <= gates[i]
  {
    hide Mul, Mix, ExpectedShare;
    assert gates[i] in gates && forall p <- Without(gates, i) :: p in gates;
    ExpectedShareBounded(Without(gates, i), 1);
    MulBounded(gates[i], ExpectedShare(Without(gates, i), 1));
  }

  /** The pool's odds: every entry is drawn with its gate's chance times the
      expected share it gets of the draw, never more often than its gate passes,
      and together they are drawn unless every gate fails. */
  lemma PoolOddsLaw(gates: seq<real>)
    requires Probabilities(gates)
    ensures forall i | 0 <= i < |gates| :: PoolDraw(gates, 0)[i] == PoolOdds(gates, i)
    ensures forall i | 0 <= i < |gates| :: 0.0 <= PoolOdds(gates, i) <= gates[i]
    ensures Sum(PoolDraw(gates, 0)) == 1.0 - AllFail(gates)
  {
    hide Mul, Mix, ExpectedShare, AllFail, PoolDraw, Sum;
    forall i | 0 <= i < |gates|
      ensures PoolDraw(gates, 0)[i] == PoolOdds(gates, i)
      ensures 0.0 <= PoolOdds(gates, i) <= gates[i]
    {
      PoolDrawIsPoolOdds(gates, 0, i);
      PoolOddsBounded(gates, i);
    }
    PoolDrawTotal(gates, 0);
  }

  // --------------------------------------------------- the pool's mask enumeration

  function Pow2(n: nat): nat {
    if n == 0 then 1 else 2 * Pow2(n - 1)
  }

  function Shift(mask: nat, i: nat): nat {
    if i == 0 then mask else Shift(mask / 2, i - 1)
  }

  /** `mask & (1 << i) != 0` */
  predicate Bit(mask: nat, i: nat) {
    Shift(mask, i) % 2 == 1
  }

  function Ones(mask: nat, n: nat): nat {
    if n == 0 then 0 else mask % 2 + Ones(mask / 2, n - 1)
  }

  /** The joint chance that exactly the gates in `mask` pass. */
  ghost function Weight(gates: seq<real>, mask: nat): real {
    if |gates| == 0 then 1.0
    else Mul(if mask % 2 == 1 then gates[0] else 1.0 - gates[0], Weight(gates[1..], mask / 2))
  }

  ghost function MaskShare(gates: seq<real>, mask: nat, k: nat): real {
    Mul(Weight(gates, mask), Inverse(k + Ones(mask, |gates|)))
  }

  /** The shares of every mask below `limit`, with `k` rivals. */
  ghost function ShareSum(gates: seq<real>, k: nat, limit: nat): real {
    if limit == 0 then 0.0 else ShareSum(gates, k, limit - 1) + MaskShare(gates, limit - 1, k)
  }

  /** The shares entry `i` gets from every mask below `limit`. */
  ghost function EntryShareSum(gates: seq<real>, i: nat, k: nat, limit: nat): real {
    if limit == 0 then 0.0
    else EntryShareSum(gates, i, k, limit - 1)
         + (if Bit(limit - 1, i) then MaskShare(gates, limit - 1, k) else 0.0)
  }

  lemma MaskShareStep(gates: seq<real>, half: nat, k: nat)
    requires |gates| > 0
    ensures MaskShare(gates, 2 * half, k) == Mul(1.0 - gates[0], MaskShare(gates[1..], half, k))
    ensures MaskShare(gates, 2 * half + 1, k) == Mul(gates[0], MaskShare(gates[1..], half, k + 1))
  {
    hide Mul, Mix;
    var w, n := Weight(gates[1..], half), |gates| - 1;
    assert (2 * half) / 2 == half && (2 * half) % 2 == 0 && (2 * half + 1) / 2 == half && (2 * half + 1) % 2 == 1;
    assert Weight(gates, 2 * half) == Mul(1.0 - gates[0], w);
    assert Weight(gates, 2 * half + 1) == Mul(gates[0], w);
    MulAssociates(1.0 - gates[0], w, Inverse(k + Ones(half, n)));
    MulAssociates(gates[0], w, Inverse(k + 1 + Ones(half, n)));
    assert Ones(2 * half + 1, |gates|) == 1 + Ones(half, n);
  }

  lemma MixTwo(c: real, x: real, y: real, a: real, b: real)
    ensures Mix(c, x + a, y + b) == Mix(c, x, y) + Mul(1.0 - c, b) + Mul(c, a)
  {}

  lemma {:induction false} ShareSumSplit(gates: seq<real>, k: nat, half: nat)
    requires |gates| > 0
    ensures ShareSum(gates, k, 2 * half)
         == Mix(gates[0], ShareSum(gates[1..], k + 1, half), ShareSum(gates[1..], k, half))
  {
    hide Mul, Mix;
    if half == 0 {
      MixConstant(gates[0], 0.0);
    } else {
      var h := half - 1;
      ShareSumSplit(gates, k, h);
      MaskShareStep(gates, h, k);
      assert 2 * half - 1 == 2 * h + 1;
      assert ShareSum(gates, k, 2 * half) == ShareSum(gates, k, 2 * h) + MaskShare(gates, 2 * h, k) + MaskShare(gates, 2 * h + 1, k);
      MixTwo(gates[0], ShareSum(gates[1..], k + 1, h), ShareSum(gates[1..], k, h),
             MaskShare(gates[1..], h, k + 1), MaskShare(gates[1..], h, k));
    }
  }

  /** Enumerating every mask gives the expected share. */
  lemma {:induction false} ShareSumAll(gates: seq<real>, k: nat)
    ensures ShareSum(gates, k, Pow2(|gates|)) == ExpectedShare(gates, k)
  {
    if |gates| == 0 {
      assert ShareSum(gates, k, 1) == ShareSum(gates, k, 0) + MaskShare(gates, 0, k);
    } else {
      hide Mul, Mix;
      ShareSumAll(gates[1..], k + 1);
      ShareSumAll(gates[1..], k);
      ShareSumSplit(gates, k, Pow2(|gates| - 1));
    }
  }

  lemma {:induction false} EntryShareSumSplit(gates: seq<real>, i: nat, k: nat, half: nat)
    requires i < |gates|
    ensures EntryShareSum(gates, i, k, 2 * half)
         == if i == 0 then Mul(gates[0], ShareSum(gates[1..], k + 1, half))
            else Mix(gates[0], EntryShareSum(gates[1..], i - 1, k + 1, half), EntryShareSum(gates[1..], i - 1, k, half))
  {
    hide Mul, Mix;
    if half == 0 {
      MixConstant(gates[0], 0.0);
      MulUnits(gates[0]);
    } else {
      var h := half - 1;
      EntryShareSumSplit(gates, i, k, h);
      MaskShareStep(gates, h, k);
      assert 2 * half - 1 == 2 * h + 1;
      assert (2 * h) / 2 == h && (2 * h + 1) / 2 == h;
      assert i > 0 ==> Bit(2 * h, i) == Bit(h, i - 1) && Bit(2 * h + 1, i) == Bit(h, i - 1);
      assert i == 0 ==> !Bit(2 * h, i) && Bit(2 * h + 1, i);
      var low := if Bit(2 * h, i) then MaskShare(gates, 2 * h, k) else 0.0;
      var high := if Bit(2 * h + 1, i) then MaskShare(gates, 2 * h + 1, k) else 0.0;
      assert EntryShareSum(gates, i, k, 2 * half) == EntryShareSum(gates, i, k, 2 * h) + low + high;
      if i == 0 {
        MulAdds(gates[0], ShareSum(gates[1..], k + 1, h), MaskShare(gates[1..], h, k + 1));
      } else {
        var a := if Bit(h, i - 1) then MaskShare(gates[1..], h, k + 1) else 0.0;
        var b := if Bit(h, i - 1) then MaskShare(gates[1..], h, k) else 0.0;
        MulUnits(gates[0]);
        MulUnits(1.0 - gates[0]);
        MixTwo(gates[0], EntryShareSum(gates[1..], i - 1, k + 1, h), EntryShareSum(gates[1..], i - 1, k, h), a, b);
      }
    }
  }

  /** Enumerating every mask gives each entry its chance to be drawn. */
  lemma {:induction false} EntryShareSumAll(gates: seq<real>, i: nat, k: nat)
    requires i < |gates|
    ensures EntryShareSum(gates, i, k, Pow2(|gates|)) == PoolDraw(gates, k)[i]
  {
    hide Mul, Mix;
    EntryShareSumSplit(gates, i, k, Pow2(|gates| - 1));
    if i == 0 {
      ShareSumAll(gates[1..], k + 1);
    } else {
      EntryShareSumAll(gates[1..], i - 1, k + 1);
      EntryShareSumAll(gates[1..], i - 1, k);
    }
  }

  lemma {:induction false} ShiftStep(mask: nat, i: nat)
    ensures Shift(mask, i + 1) == Shift(mask, i) / 2
  {
    if i > 0 {
      ShiftStep(mask / 2, i - 1);
    }
  }

  lemma {:induction false} OnesPositive(mask: nat, n: nat)
    requires 0 < mask < Pow2(n)
    ensures Ones(mask, n) > 0
  {
    if mask % 2 == 0 {
      OnesPositive(mask / 2, n - 1);
    }
  }

  lemma WeightStep(gates: seq<real>, mask: nat, i: nat, p: real)
    requires i < |gates|
    ensures Mul(p, Weight(gates[i..], Shift(mask, i)))
         == Mul(Mul(p, if Bit(mask, i) then gates[i] else 1.0 - gates[i]), Weight(gates[i + 1..], Shift(mask, i + 1)))
  {
    hide Mul;
    ShiftStep(mask, i);
    assert gates[i..][1..] == gates[i + 1..];
    var g := if Bit(mask, i) then gates[i] else 1.0 - gates[i];
    assert Weight(gates[i..], Shift(mask, i)) == Mul(g, Weight(gates[i + 1..], Shift(mask, i + 1)));
    MulAssociates(p, g, Weight(gates[i + 1..], Shift(mask, i + 1)));
  }

  /** The joint chance of exactly the gates in `mask`, and how many they are. */
  method MaskWeight(gates: seq<real>, mask: nat) returns (p: real, k: nat)
    ensures p == Weight(gates, mask) && k == Ones(mask, |gates|)
  {
    hide Mul;
    p, k := 1.0, 0;
    MulUnits(Weight(gates, mask));
    assert gates[0..] == gates;
    for i := 0 to |gates|
      invariant Mul(p, Weight(gates[i..], Shift(mask, i))) == Weight(gates, mask)
      invariant k + Ones(Shift(mask, i), |gates| - i) == Ones(mask, |gates|)
    {
      WeightStep(gates, mask, i, p);
      ShiftStep(mask, i);
      if Bit(mask, i) {
        p, k := Mul(p, gates[i]), k + 1;
      } else {
        p := Mul(p, 1.0 - gates[i]);
      }
    }
    MulUnits(p);
  }

  /** Exact pool odds: enumerate every subset of passing gates, weight it by its
      joint chance and split it evenly among its members. */
  method ComputePoolOdds(gates: seq<real>) returns (odds: seq<real>)
    ensures |odds| == |gates|
    ensures forall i | 0 <= i < |gates| :: odds[i] == PoolOdds(gates, i)
  {
    hide Mul, MaskShare;
    var n := |gates|;
    odds := seq(n, _ => 0.0);
    var mask := 1;
    forall i | 0 <= i < n ensures EntryShareSum(gates, i, 0, 1) == 0.0 {
      ZeroMask(gates, i);
    }
    Pow2Positive(n);
    while mask < Pow2(n)
      invariant 1 <= mask <= Pow2(n) && |odds| == n
      invariant forall i | 0 <= i < n :: odds[i] == EntryShareSum(gates, i, 0, mask)
    {
      var p, k := MaskWeight(gates, mask);
      OnesPositive(mask, n);
      if p != 0.0 {
        var share := p / (k as real);
        ShareIs(gates, mask, p, k);
        odds := seq(n, i requires 0 <= i < n => if Bit(mask, i) then odds[i] + share else odds[i]);
      } else {
        NoShare(gates, mask);
      }
      mask := mask + 1;
    }
    forall i | 0 <= i < n ensures odds[i] == PoolOdds(gates, i) {
      EntryShareSumAll(gates, i, 0);
      PoolDrawIsPoolOdds(gates, 0, i);
    }
  }

  lemma {:induction false} Pow2Positive(n: nat)
    ensures Pow2(n) >= 1
  {
    if n > 0 {
      Pow2Positive(n - 1);
    }
  }

  lemma {:induction false} ZeroMask(gates: seq<real>, i: nat)
    ensures EntryShareSum(gates, i, 0, 1) == 0.0
  {
    assert EntryShareSum(gates, i, 0, 0) == 0.0;
    ShiftZero(i);
  }

  lemma {:induction false} ShiftZero(i: nat)
    ensures Shift(0, i) == 0
  {
    if i > 0 {
      ShiftZero(i - 1);
    }
  }

  lemma ShareIs(gates: seq<real>, mask: nat, p: real, k: nat)
    requires k > 0 && p == Weight(gates, mask) && k == Ones(mask, |gates|)
    ensures p / (k as real) == MaskShare(gates, mask, 0)
  {}

  lemma NoShare(gates: seq<real>, mask: nat)
    requires Weight(gates, mask) == 0.0
    ensures MaskShare(gates, mask, 0) == 0.0
  {}

  // ------------------------------------------------------ the first-match cascade

  /** An entry wins when its gate passes and every earlier one failed. */
  ghost function CascadeOdds(gates: seq<real>, remaining: real): (odds: seq<real>)
    ensures |odds| == |gates|
  {
    if |gates| == 0 then []
    else [Mul(remaining, gates[0])] + CascadeOdds(gates[1..], Mul(remaining, 1.0 - gates[0]))
  }

  lemma {:induction false} CascadeOddsAre(gates: seq<real>, remaining: real, i: nat)
    requires i < |gates|
    ensures CascadeOdds(gates, remaining)[i] == Mul(Mul(remaining, AllFail(gates[..i])), gates[i])
  {
    hide Mul;
    if i == 0 {
      MulUnits(remaining);
    } else {
      var r := Mul(remaining, 1.0 - gates[0]);
      CascadeOddsAre(gates[1..], r, i - 1);
      assert gates[..i][1..] == gates[1..][..i - 1];
      MulAssociates(remaining, 1.0 - gates[0], AllFail(gates[1..][..i - 1]));
    }
  }

  lemma {:induction false} CascadeTotal(gates: seq<real>, remaining: real)
    ensures Sum(CascadeOdds(gates, remaining)) == remaining - Mul(remaining, AllFail(gates))
  {
    hide Mul;
    if |gates| == 0 {
      MulUnits(remaining);
    } else {
      var g := gates[0];
      CascadeTotal(gates[1..], Mul(remaining, 1.0 - g));
      MulAssociates(remaining, 1.0 - g, AllFail(gates[1..]));
      MulAdds(remaining, g, 1.0 - g);
      MulUnits(remaining);
    }
  }

  lemma {:induction false} CascadeBounded(gates: seq<real>, remaining: real, i: nat)
    requires Probabilities(gates) && 0.0 <= remaining <= 1.0 && i < |gates|
    ensures 0.0 <= CascadeOdds(gates, remaining)[i] <= gates[i]
  {
    hide Mul;
    assert gates[0] in gates && forall p <- gates[1..] :: p in gates;
    MulBounded(remaining, gates[0]);
    MulBounded(remaining, 1.0 - gates[0]);
    if i > 0 {
      CascadeBounded(gates[1..], Mul(remaining, 1.0 - gates[0]), i - 1);
    }
  }

  // -------------------------------------------------------- the mean-field pool

  ghost function Denominator(gates: seq<real>): real {
    if Sum(gates) > 1.0 then Sum(gates) else 1.0
  }

  ghost function MeanFieldOdds(gates: seq<real>): (odds: seq<real>)
    ensures |odds| == |gates|
  {
    var d := Denominator(gates);
    seq(|gates|, i requires 0 <= i < |gates| => gates[i] / d)
  }

  lemma DivideBounded(x: real, d: real)
    requires 0.0 <= x && 1.0 <= d
    ensures 0.0 <= x / d <= x
    ensures x / d == Mul(1.0 / d, x)
  {
    var q := x / d;
    assert q * d == x;
    MulSign(q, d - 1.0);
    if q < 0.0 {
      MulSign(-q, d);
    }
  }

  lemma {:induction false} SumScaled(xs: seq<real>, ys: seq<real>, c: real)
    requires |xs| == |ys|
    requires forall i | 0 <= i < |xs| :: ys[i] == Mul(c, xs[i])
    ensures Sum(ys) == Mul(c, Sum(xs))
  {
    hide Mul;
    MulUnits(c);
    if |xs| > 0 {
      SumScaled(xs[1..], ys[1..], c);
      MulAdds(c, xs[0], Sum(xs[1..]));
    }
  }

  /** The approximation never draws an entry more often than its gate passes, nor
      more than one entry in all. */
  lemma MeanFieldLaw(gates: seq<real>)
    requires Probabilities(gates)
    ensures forall i | 0 <= i < |gates| :: 0.0 <= MeanFieldOdds(gates)[i] <= gates[i]
    ensures Sum(MeanFieldOdds(gates)) <= 1.0
  {
    var d, odds := Denominator(gates), MeanFieldOdds(gates);
    forall i | 0 <= i < |gates|
      ensures 0.0 <= odds[i] <= gates[i] && odds[i] == Mul(1.0 / d, gates[i])
    {
      assert gates[i] in gates;
      DivideBounded(gates[i], d);
    }
    SumScaled(gates, odds, 1.0 / d);
    assert (1.0 / d) * d == 1.0;
    MulOrdered(1.0 / d, Sum(gates), d);
  }

  // ------------------------------------------------------------------- all models

  /** The chance each entry is selected under `model`. */
  ghost function Odds(model: Model, gates: seq<real>): (odds: seq<real>)
    ensures |odds| == |gates|
  {
    match model
    case UseAll => gates
    case UseFirstMatch => CascadeOdds(gates, 1.0)
    case Pool =>
      if |gates| <= MAX_EXACT_POOL_ENTRIES then PoolDraw(gates, 0) else MeanFieldOdds(gates)
  }

  /** Every model selects an entry at most as often as its gate passes, and the
      two that select one entry do so unless every gate fails (the mean-field
      pool, at most once). */
  lemma OddsLaw(model: Model, gates: seq<real>)
    requires Probabilities(gates)
    ensures forall i | 0 <= i < |gates| :: 0.0 <= Odds(model, gates)[i] <= gates[i]
    ensures model.UseFirstMatch? || (model.Pool? && |gates| <= MAX_EXACT_POOL_ENTRIES) ==>
              Sum(Odds(model, gates)) == 1.0 - AllFail(gates)
    ensures !model.UseAll? ==> Sum(Odds(model, gates)) <= 1.0
  {
    hide Mul, AllFail, PoolDraw, PoolOdds, CascadeOdds, Sum, MeanFieldOdds;
    AllFailBounded(gates);
    match model
    case UseAll =>
      assert forall i | 0 <= i < |gates| :: gates[i] in gates;
    case UseFirstMatch =>
      CascadeTotal(gates, 1.0);
      MulUnits(AllFail(gates));
      forall i | 0 <= i < |gates| ensures 0.0 <= CascadeOdds(gates, 1.0)[i] <= gates[i] {
        CascadeBounded(gates, 1.0, i);
      }
    case Pool =>
      if |gates| <= MAX_EXACT_POOL_ENTRIES {
        PoolOddsLaw(gates);
      } else {
        MeanFieldLaw(gates);
      }
  }

  lemma {:induction false} AllFailBounded(gates: seq<real>)
    requires Probabilities(gates)
    ensures 0.0 <= AllFail(gates) <= 1.0
  {
    hide Mul;
    if |gates| > 0 {
      assert gates[0] in gates && forall p <- gates[1..] :: p in gates;
      AllFailBounded(gates[1..]);
      MulBounded(1.0 - gates[0], AllFail(gates[1..]));
    }
  }

  method ComputeMeanFieldOdds(gates: seq<real>) returns (odds: seq<real>)
    requires Probabilities(gates)
    ensures odds == MeanFieldOdds(gates)
  {
    var s := 0.0;
    assert gates[0..] == gates;
    for i := 0 to |gates|
      invariant s + Sum(gates[i..]) == Sum(gates)
    {
      assert gates[i..][1..] == gates[i + 1..];
      s := s + gates[i];
    }
    var denom := if s > 1.0 then s else 1.0;
    odds := seq(|gates|, i requires 0 <= i < |gates| => gates[i] / denom);
  }

  method ComputeCascadeOdds(gates: seq<real>) returns (odds: seq<real>)
    ensures odds == CascadeOdds(gates, 1.0)
  {
    odds := [];
    var remaining := 1.0;
    assert gates[0..] == gates;
    for i := 0 to |gates|
      invariant odds + CascadeOdds(gates[i..], remaining) == CascadeOdds(gates, 1.0)
    {
      hide Mul;
      assert gates[i..][1..] == gates[i + 1..];
      odds := odds + [Mul(remaining, gates[i])];
      remaining := Mul(remaining, 1.0 - gates[i]);
    }
    assert odds + [] == odds;
  }

  /** The chance each entry is selected, and whether the odds are only the
      mean-field approximation. */
  method SelectionOdds(model: Model, gates: seq<real>) returns (odds: seq<real>, approximate: bool)
    requires Probabilities(gates)
    ensures odds == Odds(model, gates)
    ensures approximate <==> model.Pool? && |gates| > 16
  {
    hide PoolDraw, PoolOdds;
    approximate := false;
    match model
    case UseAll => odds := gates;
    case UseFirstMatch => odds := ComputeCascadeOdds(gates);
    case Pool =>
      if |gates| <= MAX_EXACT_POOL_ENTRIES {
        odds := ComputePoolOdds(gates);
        PoolOddsLaw(gates);
      } else {
        odds := ComputeMeanFieldOdds(gates);
        approximate := true;
      }
  }
}
