/** The random process behind each selection model, and the proof that the odds
    of `Selection` are its probabilities. */
module SelectionProcess {
  import opened RealMath
  import opened RandomProcess
  import opened Selection

  /** Draw one of `ps`, each equally often. */
  ghost function DrawOne(ps: seq<Process>): Process {
    if |ps| == 0 then Nothing else Flip(Inverse(|ps|), ps[0], DrawOne(ps[1..]))
  }

  /** Roll every gate; draw one of the entries that passed. */
  ghost function PoolProcess(gates: seq<real>, entries: seq<Process>, passed: seq<Process>): Process
    requires |gates| == |entries|
    decreases |gates|
  {
    if |gates| == 0 then DrawOne(passed)
    else Flip(gates[0],
              PoolProcess(gates[1..], entries[1..], passed + [entries[0]]),
              PoolProcess(gates[1..], entries[1..], passed))
  }

  /** Roll the gates in order; the first that passes wins. */
  ghost function CascadeProcess(gates: seq<real>, entries: seq<Process>): Process
    requires |gates| == |entries|
  {
    if |gates| == 0 then Nothing
    else Flip(gates[0], entries[0], CascadeProcess(gates[1..], entries[1..]))
  }

  /** One ticket decides: entry `i` wins with chance `odds[i] / left`. */
  ghost function LotteryProcess(odds: seq<real>, entries: seq<Process>, left: real): Process
    requires |odds| == |entries|
  {
    if |odds| == 0 || left <= 0.0 then Nothing
    else Flip(odds[0] / left, entries[0], LotteryProcess(odds[1..], entries[1..], left - odds[0]))
  }

  /** Roll every gate; run every entry that passes. */
  ghost function UseAllProcess(gates: seq<real>, entries: seq<Process>): Process
    requires |gates| == |entries|
  {
    if |gates| == 0 then Nothing
    else Both(Thin(gates[0], entries[0]), UseAllProcess(gates[1..], entries[1..]))
  }

  /** What a list that selects by `model` does; a pool too large to enumerate is
      taken at its mean-field odds. */
  ghost function Select(model: Model, gates: seq<real>, entries: seq<Process>): Process
    requires |gates| == |entries|
  {
    match model
    case UseAll => UseAllProcess(gates, entries)
    case UseFirstMatch => CascadeProcess(gates, entries)
    case Pool =>
      if |gates| <= MAX_EXACT_POOL_ENTRIES then PoolProcess(gates, entries, [])
      else LotteryProcess(MeanFieldOdds(gates), entries, 1.0)
  }

  /** The same without the mean-field approximation. */
  ghost function ExactSelect(model: Model, gates: seq<real>, entries: seq<Process>): Process
    requires |gates| == |entries|
  {
    match model
    case UseAll => UseAllProcess(gates, entries)
    case UseFirstMatch => CascadeProcess(gates, entries)
    case Pool => PoolProcess(gates, entries, [])
  }

  ghost function Values(m: Measure, ps: seq<Process>): (vs: seq<real>)
    ensures |vs| == |ps|
  {
    seq(|ps|, i requires 0 <= i < |ps| => Expect(m, ps[i]))
  }

  lemma NothingIsNothing(m: Measure)
    ensures Expect(m, Nothing) == 0.0
  {}

  // ------------------------------------------------------------------- uniform draw

  lemma {:induction false} ExpectDrawOne(m: Measure, ps: seq<Process>)
    ensures Expect(m, DrawOne(ps)) == Mul(Inverse(|ps|), Sum(Values(m, ps)))
  {
    hide Mul, Mix, Inverse;
    if |ps| == 0 {
      MulUnits(Inverse(0));
    } else {
      ExpectDrawOne(m, ps[1..]);
      assert Values(m, ps)[1..] == Values(m, ps[1..]);
      DrawStep(|ps|, Expect(m, ps[0]), Sum(Values(m, ps[1..])));
      if |ps| == 1 {
        assert Sum(Values(m, ps[1..])) == 0.0;
      }
    }
  }

  lemma DrawStep(n: nat, x: real, s: real)
    requires n > 0 && (n == 1 ==> s == 0.0)
    ensures Mix(Inverse(n), x, Mul(Inverse(n - 1), s)) == Mul(Inverse(n), x + s)
  {
    var i := Inverse(n);
    var j := Inverse(n - 1);
    if n > 1 {
      assert i * (n as real) == 1.0 && j * ((n - 1) as real) == 1.0;
      assert (n - 1) as real == n as real - 1.0;
      var k := n as real - 1.0;
      assert i * k == 1.0 - i;
      MixInverse(i, j, k, x, s);
    }
  }

  lemma MixInverse(i: real, j: real, k: real, x: real, s: real)
    requires i * k == 1.0 - i && j * k == 1.0
    ensures Mix(i, x, Mul(j, s)) == Mul(i, x + s)
  {
    assert (1.0 - i) * j == (i * k) * j == i * (j * k);
    assert (1.0 - i) * (j * s) == ((1.0 - i) * j) * s == i * s;
  }

  // -------------------------------------------------------------------------- pool

  lemma {:induction false} ExpectPool(m: Measure, gates: seq<real>, entries: seq<Process>, passed: seq<Process>)
    requires |gates| == |entries|
    ensures Expect(m, PoolProcess(gates, entries, passed))
         == Mul(ExpectedShare(gates, |passed|), Sum(Values(m, passed)))
            + Dot(PoolDraw(gates, |passed|), Values(m, entries))
    decreases |gates|
  {
    hide Mul, Mix;
    var k, s := |passed|, Sum(Values(m, passed));
    if |gates| == 0 {
      ExpectDrawOne(m, passed);
    } else {
      var g, rest := gates[0], gates[1..];
      var v, vs := Expect(m, entries[0]), Values(m, entries[1..]);
      ExpectPool(m, rest, entries[1..], passed + [entries[0]]);
      ExpectPool(m, rest, entries[1..], passed);
      SumAppend(Values(m, passed), v);
      assert Values(m, passed + [entries[0]]) == Values(m, passed) + [v];
      assert Values(m, entries)[1..] == vs;
      var a, b := PoolDraw(rest, k + 1), PoolDraw(rest, k);
      assert PoolDraw(gates, k)[1..] == MixSeq(g, a, b);
      DotMixSeq(g, a, b, vs);
      PoolStep(g, ExpectedShare(rest, k + 1), ExpectedShare(rest, k), s, v, Dot(a, vs), Dot(b, vs));
    }
  }

  lemma {:induction false} SumAppend(xs: seq<real>, x: real)
    ensures Sum(xs + [x]) == Sum(xs) + x
  {
    if |xs| == 0 {
      assert xs + [x] == [x];
    } else {
      assert (xs + [x])[1..] == xs[1..] + [x];
      SumAppend(xs[1..], x);
    }
  }

  lemma PoolStep(g: real, a: real, b: real, s: real, v: real, d: real, e: real)
    ensures Mix(g, Mul(a, s + v) + d, Mul(b, s) + e)
         == Mul(Mix(g, a, b), s) + (Mul(Mul(g, a), v) + Mix(g, d, e))
  {}

  // ----------------------------------------------------------------------- cascade

  lemma {:induction false} ExpectCascade(m: Measure, gates: seq<real>, entries: seq<Process>, remaining: real)
    requires |gates| == |entries|
    ensures Mul(remaining, Expect(m, CascadeProcess(gates, entries)))
         == Dot(CascadeOdds(gates, remaining), Values(m, entries))
  {
    hide Mul, Mix;
    if |gates| == 0 {
      MulUnits(remaining);
    } else {
      var g, v, e := gates[0], Expect(m, entries[0]), Expect(m, CascadeProcess(gates[1..], entries[1..]));
      ExpectCascade(m, gates[1..], entries[1..], Mul(remaining, 1.0 - g));
      assert Values(m, entries)[1..] == Values(m, entries[1..]);
      CascadeStep(remaining, g, v, e);
    }
  }

  lemma CascadeStep(r: real, g: real, v: real, e: real)
    ensures Mul(r, Mix(g, v, e)) == Mul(Mul(r, g), v) + Mul(Mul(r, 1.0 - g), e)
  {}

  // ----------------------------------------------------------------------- lottery

  ghost predicate Tickets(odds: seq<real>, left: real) {
    (forall o <- odds :: o >= 0.0) && Sum(odds) <= left
  }

  lemma {:induction false} SumOfNonNegative(odds: seq<real>)
    requires forall o <- odds :: o >= 0.0
    ensures Sum(odds) >= 0.0
  {
    if |odds| > 0 {
      assert odds[0] in odds && forall o <- odds[1..] :: o in odds;
      SumOfNonNegative(odds[1..]);
    }
  }

  lemma {:induction false} DotZeros(odds: seq<real>, vs: seq<real>)
    requires |odds| == |vs| && Tickets(odds, 0.0)
    ensures Dot(odds, vs) == 0.0
  {
    hide Mul;
    if |odds| > 0 {
      assert odds[0] in odds && forall o <- odds[1..] :: o in odds;
      SumOfNonNegative(odds[1..]);
      DotZeros(odds[1..], vs[1..]);
      MulUnits(vs[0]);
    }
  }

  lemma {:induction false} ExpectLottery(m: Measure, odds: seq<real>, entries: seq<Process>, left: real)
    requires |odds| == |entries| && left >= 0.0 && Tickets(odds, left)
    ensures Mul(left, Expect(m, LotteryProcess(odds, entries, left))) == Dot(odds, Values(m, entries))
  {
    hide Mul, Mix;
    MulUnits(left);
    MulUnits(Expect(m, Nothing));
    if |odds| == 0 {
    } else if left <= 0.0 {
      DotZeros(odds, Values(m, entries));
    } else {
      assert odds[0] in odds && forall o <- odds[1..] :: o in odds;
      SumOfNonNegative(odds[1..]);
      var o, v := odds[0], Expect(m, entries[0]);
      ExpectLottery(m, odds[1..], entries[1..], left - o);
      assert Values(m, entries)[1..] == Values(m, entries[1..]);
      LotteryStep(left, o, v, Expect(m, LotteryProcess(odds[1..], entries[1..], left - o)));
    }
  }

  lemma LotteryStep(left: real, o: real, v: real, e: real)
    requires left > 0.0
    ensures Mul(left, Mix(o / left, v, e)) == Mul(o, v) + Mul(left - o, e)
  {
    var c := o / left;
    assert c * left == o;
    assert left * (c * v) == (c * left) * v && left * (1.0 - c) * e == (left - c * left) * e;
  }

  // ---------------------------------------------------------------- the odds are right

  /** Under the two models that select one entry, any measure of the selection is
      the entries' measures weighted by the engine's odds. */
  lemma ExpectSelect(m: Measure, model: Model, gates: seq<real>, entries: seq<Process>)
    requires |gates| == |entries| && Probabilities(gates) && !model.UseAll?
    ensures Expect(m, Select(model, gates, entries)) == Dot(Odds(model, gates), Values(m, entries))
  {
    hide Mul, Mix, PoolProcess, CascadeProcess, LotteryProcess, Dot, PoolDraw, CascadeOdds, MeanFieldOdds;
    var p := Select(model, gates, entries);
    MulUnits(Expect(m, p));
    match model
    case UseFirstMatch => ExpectCascade(m, gates, entries, 1.0);
    case Pool =>
      if |gates| <= MAX_EXACT_POOL_ENTRIES {
        ExpectPool(m, gates, entries, []);
        MulUnits(ExpectedShare(gates, 0));
        assert Sum(Values(m, [])) == 0.0;
      } else {
        MeanFieldLaw(gates);
        assert forall o <- MeanFieldOdds(gates) :: o >= 0.0;
        ExpectLottery(m, MeanFieldOdds(gates), entries, 1.0);
      }
  }

  lemma ExpectThin(m: Measure, c: real, p: Process)
    ensures Expect(m, Thin(c, p)) == Mul(c, Expect(m, p))
  {
    hide Mul, Mix;
    MixNothing(c, Expect(m, p));
  }

  /** Using everything, each item's copies add up. */
  lemma {:induction false} CopiesUseAll(f: FormId, gates: seq<real>, entries: seq<Process>)
    requires |gates| == |entries|
    ensures Expect(Copies(f), UseAllProcess(gates, entries)) == Dot(gates, Values(Copies(f), entries))
  {
    hide Mul, Mix;
    if |gates| > 0 {
      CopiesUseAll(f, gates[1..], entries[1..]);
      assert Values(Copies(f), entries)[1..] == Values(Copies(f), entries[1..]);
      BothCopies(Thin(gates[0], entries[0]), UseAllProcess(gates[1..], entries[1..]), f);
      ExpectThin(Copies(f), gates[0], entries[0]);
    }
  }

  /** The chance that none of several independent chances comes off. */
  ghost function NoneOf(chances: seq<real>, values: seq<real>): real
    requires |chances| == |values|
  {
    if |chances| == 0 then 1.0
    else Mul(1.0 - Mul(chances[0], values[0]), NoneOf(chances[1..], values[1..]))
  }

  /** Using everything, the chances of missing multiply. */
  lemma {:induction false} MissedUseAll(items: iset<FormId>, gates: seq<real>, entries: seq<Process>)
    requires |gates| == |entries|
    ensures Missed(items, UseAllProcess(gates, entries)) == NoneOf(gates, Values(Hits(items), entries))
  {
    hide Mul, Mix;
    if |gates| > 0 {
      MissedUseAll(items, gates[1..], entries[1..]);
      assert Values(Hits(items), entries)[1..] == Values(Hits(items), entries[1..]);
      var p, q := Thin(gates[0], entries[0]), UseAllProcess(gates[1..], entries[1..]);
      BothMissed(p, q, items, Missed(items, q));
      ExpectThin(Hits(items), gates[0], entries[0]);
      MulAssociates(Missed(items, q), Missed(items, p), 1.0);
    }
  }

  // -------------------------------------------------------------------- proper runs

  ghost predicate AllProper(ps: seq<Process>) {
    forall p <- ps :: Proper(p)
  }

  ghost predicate AllWhole(ps: seq<Process>) {
    forall p <- ps :: WholeCopies(p)
  }

  lemma {:induction false} DrawOneKeeps(ps: seq<Process>)
    ensures AllProper(ps) ==> Proper(DrawOne(ps))
    ensures AllWhole(ps) ==> WholeCopies(DrawOne(ps))
  {
    hide Inverse;
    if |ps| > 0 {
      assert ps[0] in ps && forall p <- ps[1..] :: p in ps;
      DrawOneKeeps(ps[1..]);
      InverseLaw(|ps|);
    }
  }

  lemma {:induction false} PoolKeeps(gates: seq<real>, entries: seq<Process>, passed: seq<Process>)
    requires |gates| == |entries| && Probabilities(gates)
    ensures AllProper(entries) && AllProper(passed) ==> Proper(PoolProcess(gates, entries, passed))
    ensures AllWhole(entries) && AllWhole(passed) ==> WholeCopies(PoolProcess(gates, entries, passed))
    decreases |gates|
  {
    if |gates| == 0 {
      DrawOneKeeps(passed);
    } else {
      assert gates[0] in gates && forall p <- gates[1..] :: p in gates;
      assert entries[0] in entries && forall p <- entries[1..] :: p in entries;
      PoolKeeps(gates[1..], entries[1..], passed + [entries[0]]);
      PoolKeeps(gates[1..], entries[1..], passed);
    }
  }

  lemma {:induction false} CascadeKeeps(gates: seq<real>, entries: seq<Process>)
    requires |gates| == |entries| && Probabilities(gates)
    ensures AllProper(entries) ==> Proper(CascadeProcess(gates, entries))
    ensures AllWhole(entries) ==> WholeCopies(CascadeProcess(gates, entries))
  {
    if |gates| > 0 {
      assert gates[0] in gates && forall p <- gates[1..] :: p in gates;
      assert entries[0] in entries && forall p <- entries[1..] :: p in entries;
      CascadeKeeps(gates[1..], entries[1..]);
    }
  }

  lemma {:induction false} LotteryKeeps(odds: seq<real>, entries: seq<Process>, left: real)
    requires |odds| == |entries| && left >= 0.0 && Tickets(odds, left)
    ensures AllProper(entries) ==> Proper(LotteryProcess(odds, entries, left))
    ensures AllWhole(entries) ==> WholeCopies(LotteryProcess(odds, entries, left))
  {
    if |odds| > 0 && left > 0.0 {
      assert odds[0] in odds && forall o <- odds[1..] :: o in odds;
      assert entries[0] in entries && forall p <- entries[1..] :: p in entries;
      SumOfNonNegative(odds[1..]);
      LotteryKeeps(odds[1..], entries[1..], left - odds[0]);
      FractionBounded(odds[0], left);
    }
  }

  lemma FractionBounded(o: real, left: real)
    requires 0.0 <= o <= left && left > 0.0
    ensures 0.0 <= o / left <= 1.0
  {}

  lemma {:induction false} UseAllKeeps(gates: seq<real>, entries: seq<Process>)
    requires |gates| == |entries| && Probabilities(gates)
    ensures AllProper(entries) ==> Proper(UseAllProcess(gates, entries))
    ensures AllWhole(entries) ==> WholeCopies(UseAllProcess(gates, entries))
  {
    if |gates| > 0 {
      assert gates[0] in gates && forall p <- gates[1..] :: p in gates;
      assert entries[0] in entries && forall p <- entries[1..] :: p in entries;
      UseAllKeeps(gates[1..], entries[1..]);
      var first := Thin(gates[0], entries[0]);
      assert AllProper(entries) ==> Proper(entries[0]) && Proper(Nothing);
      assert AllWhole(entries) ==> WholeCopies(entries[0]) && WholeCopies(Nothing);
      BothKeeps(first, UseAllProcess(gates[1..], entries[1..]));
    }
  }

  lemma SelectKeeps(model: Model, gates: seq<real>, entries: seq<Process>)
    requires |gates| == |entries| && Probabilities(gates)
    ensures AllProper(entries) ==> Proper(Select(model, gates, entries))
    ensures AllWhole(entries) ==> WholeCopies(Select(model, gates, entries))
  {
    match model
    case UseAll => UseAllKeeps(gates, entries);
    case UseFirstMatch => CascadeKeeps(gates, entries);
    case Pool =>
      if |gates| <= MAX_EXACT_POOL_ENTRIES {
        PoolKeeps(gates, entries, []);
      } else {
        MeanFieldLaw(gates);
        assert forall o <- MeanFieldOdds(gates) :: o >= 0.0;
        LotteryKeeps(MeanFieldOdds(gates), entries, 1.0);
      }
  }

  // ------------------------------------------------------ indistinguishable entries

  /** No measure tells the processes apart. */
  ghost predicate Same(p: Process, q: Process) {
    forall m :: Expect(m, p) == Expect(m, q)
  }

  /** Selected with chance `c`, no measure tells the processes apart. */
  ghost predicate SameShare(c: real, p: Process, q: Process) {
    forall m :: Mul(c, Expect(m, p)) == Mul(c, Expect(m, q))
  }

  lemma {:induction false} SameDot(m: Measure, odds: seq<real>, ps: seq<Process>, qs: seq<Process>)
    requires |odds| == |ps| == |qs| && forall i | 0 <= i < |ps| :: SameShare(odds[i], ps[i], qs[i])
    ensures Dot(odds, Values(m, ps)) == Dot(odds, Values(m, qs))
    ensures NoneOf(odds, Values(m, ps)) == NoneOf(odds, Values(m, qs))
  {
    hide Mul;
    if |odds| > 0 {
      SameDot(m, odds[1..], ps[1..], qs[1..]);
      assert Values(m, ps)[1..] == Values(m, ps[1..]) && Values(m, qs)[1..] == Values(m, qs[1..]);
      assert SameShare(odds[0], ps[0], qs[0]);
    }
  }

  /** Entries with the same shares make the same selection. */
  lemma SameSelect(model: Model, gates: seq<real>, ps: seq<Process>, qs: seq<Process>)
    requires |gates| == |ps| == |qs| && Probabilities(gates)
    requires model.Pool? ==> |gates| <= MAX_EXACT_POOL_ENTRIES
    requires forall i | 0 <= i < |ps| :: SameShare(Odds(model, gates)[i], ps[i], qs[i])
    ensures Same(Select(model, gates, ps), ExactSelect(model, gates, qs))
  {
    hide Mul, Mix, Odds, PoolProcess, CascadeProcess, UseAllProcess, Dot, NoneOf, SameShare, Expect;
    forall m ensures Expect(m, Select(model, gates, ps)) == Expect(m, ExactSelect(model, gates, qs)) {
      SameDot(m, Odds(model, gates), ps, qs);
      if !model.UseAll? {
        ExpectSelect(m, model, gates, ps);
        ExpectSelect(m, model, gates, qs);
      } else {
        AllOdds(gates);
        match m
        case Hits(items) =>
          MissedUseAll(items, gates, ps);
          MissedUseAll(items, gates, qs);
        case Copies(f) =>
          CopiesUseAll(f, gates, ps);
          CopiesUseAll(f, gates, qs);
      }
    }
  }

  lemma AllOdds(gates: seq<real>)
    ensures Odds(UseAll, gates) == gates
  {}

  lemma SameThin(c: real, p: Process, q: Process)
    requires Same(p, q)
    ensures Same(Thin(c, p), Thin(c, q))
  {
    hide Mul, Expect;
    forall m ensures Expect(m, Thin(c, p)) == Expect(m, Thin(c, q)) {
      ExpectThin(m, c, p);
      ExpectThin(m, c, q);
    }
  }

  lemma SameScaled(k: real, p: Process, q: Process)
    requires Same(p, q)
    ensures Same(Scaled(k, p), Scaled(k, q))
  {
    hide Mul, Expect;
    forall m ensures Expect(m, Scaled(k, p)) == Expect(m, Scaled(k, q)) {
      match m
      case Hits(items) =>
        ScaledHits(k, p, items);
        ScaledHits(k, q, items);
      case Copies(f) =>
        ScaledCopies(k, p, f);
        ScaledCopies(k, q, f);
    }
  }
}
