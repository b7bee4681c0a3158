/** Finite random processes over item drops: the reference meaning of a leveled
    list. A process is a tree of coin flips whose leaves say which items drop
    and how many copies of each. */
module RandomProcess {
  import opened RealMath

  type FormId = nat

  /** The items of one run and the number of copies of each. */
  type Drop = map<FormId, real>

  datatype Process =
    | Stop(drop: Drop)
    | Flip(chance: real, heads: Process, tails: Process)

  /** What is measured: whether some item of a set drops, or the copies of one
      item. */
  datatype Measure = Hits(items: iset<FormId>) | Copies(item: FormId)

  ghost predicate Meets(drop: Drop, items: iset<FormId>) {
    exists f :: f in drop && f in items
  }

  ghost function Value(m: Measure, drop: Drop): real {
    match m
    case Hits(items) => if Meets(drop, items) then 1.0 else 0.0
    case Copies(f) => if f in drop then drop[f] else 0.0
  }

  /** The expected value of `m`. */
  ghost function Expect(m: Measure, p: Process): real {
    match p
    case Stop(drop) => Value(m, drop)
    case Flip(c, heads, tails) => Mix(c, Expect(m, heads), Expect(m, tails))
  }

  // ---------------------------------------------------------------- combinators

  const Nothing: Process := Stop(map[])

  function Certain(f: FormId): Process {
    Stop(map[f := 1.0])
  }

  /** Run `p` with probability `c`, otherwise drop nothing. */
  function Thin(c: real, p: Process): Process {
    Flip(c, p, Nothing)
  }

  ghost function Times(q: real, drop: Drop): Drop {
    map f | f in drop :: Mul(q, drop[f])
  }

  /** Every copy counts `q` times. */
  ghost function Scaled(q: real, p: Process): Process {
    match p
    case Stop(drop) => Stop(Times(q, drop))
    case Flip(c, heads, tails) => Flip(c, Scaled(q, heads), Scaled(q, tails))
  }

  ghost function Merge(a: Drop, b: Drop): Drop {
    map f | f in a.Keys + b.Keys ::
      (if f in a then a[f] else 0.0) + (if f in b then b[f] else 0.0)
  }

  ghost function Adding(drop: Drop, p: Process): Process {
    match p
    case Stop(d) => Stop(Merge(drop, d))
    case Flip(c, heads, tails) => Flip(c, Adding(drop, heads), Adding(drop, tails))
  }

  /** Run `p` and `q` independently and keep everything both drop. */
  ghost function Both(p: Process, q: Process): Process {
    match p
    case Stop(drop) => Adding(drop, q)
    case Flip(c, heads, tails) => Flip(c, Both(heads, q), Both(tails, q))
  }

  // -------------------------------------------------------------- expectations

  lemma {:induction false} ScaledHits(q: real, p: Process, items: iset<FormId>)
    ensures Expect(Hits(items), Scaled(q, p)) == Expect(Hits(items), p)
  {
    hide Mul, Mix;
    match p
    case Stop(drop) =>
      assert Meets(Times(q, drop), items) == Meets(drop, items);
    case Flip(c, heads, tails) =>
      ScaledHits(q, heads, items);
      ScaledHits(q, tails, items);
  }

  lemma {:induction false} ScaledCopies(q: real, p: Process, f: FormId)
    ensures Expect(Copies(f), Scaled(q, p)) == Mul(q, Expect(Copies(f), p))
  {
    hide Mul, Mix;
    match p
    case Stop(drop) => MulUnits(q);
    case Flip(c, heads, tails) =>
      ScaledCopies(q, heads, f);
      ScaledCopies(q, tails, f);
      MixScaled(c, q, Expect(Copies(f), heads), Expect(Copies(f), tails));
  }

  lemma {:induction false} AddingHits(drop: Drop, p: Process, items: iset<FormId>)
    ensures Expect(Hits(items), Adding(drop, p)) == if Meets(drop, items) then 1.0 else Expect(Hits(items), p)
  {
    hide Mul, Mix;
    match p
    case Stop(d) => MeetsMerge(drop, d, items);
    case Flip(c, heads, tails) =>
      AddingHits(drop, heads, items);
      AddingHits(drop, tails, items);
      MixConstant(c, 1.0);
  }

  lemma MeetsMerge(a: Drop, b: Drop, items: iset<FormId>)
    ensures Meets(Merge(a, b), items) <==> Meets(a, items) || Meets(b, items)
  {
    if Meets(a, items) {
      var f :| f in a && f in items;
      assert f in Merge(a, b);
    }
    if Meets(b, items) {
      var f :| f in b && f in items;
      assert f in Merge(a, b);
    }
  }

  lemma {:induction false} AddingCopies(drop: Drop, p: Process, f: FormId)
    ensures Expect(Copies(f), Adding(drop, p)) == Value(Copies(f), drop) + Expect(Copies(f), p)
  {
    hide Mul, Mix;
    match p
    case Stop(d) =>
    case Flip(c, heads, tails) =>
      AddingCopies(drop, heads, f);
      AddingCopies(drop, tails, f);
      MixShifted(c, Value(Copies(f), drop), Expect(Copies(f), heads), Expect(Copies(f), tails));
  }

  /** The chance that no item of `items` drops. */
  ghost function Missed(items: iset<FormId>, p: Process): real {
    1.0 - Expect(Hits(items), p)
  }

  lemma MissedFlip(c: real, heads: Process, tails: Process, items: iset<FormId>)
    ensures Missed(items, Flip(c, heads, tails)) == Mix(c, Missed(items, heads), Missed(items, tails))
  {
    MixComplement(c, Expect(Hits(items), heads), Expect(Hits(items), tails));
  }

  /** Independent runs miss together: the chances of missing multiply. */
  lemma {:induction false} BothMissed(p: Process, q: Process, items: iset<FormId>, miss: real)
    requires miss == Missed(items, q)
    ensures Missed(items, Both(p, q)) == Mul(miss, Missed(items, p))
  {
    hide Mul, Mix;
    match p
    case Stop(drop) =>
      AddingHits(drop, q, items);
      MulUnits(miss);
    case Flip(c, heads, tails) =>
      BothMissed(heads, q, items, miss);
      BothMissed(tails, q, items, miss);
      MissedFlip(c, heads, tails, items);
      MissedFlip(c, Both(heads, q), Both(tails, q), items);
      MixScaled(c, miss, Missed(items, heads), Missed(items, tails));
  }

  /** Independent runs add up: so do the expected copies. */
  lemma {:induction false} BothCopies(p: Process, q: Process, f: FormId)
    ensures Expect(Copies(f), Both(p, q)) == Expect(Copies(f), p) + Expect(Copies(f), q)
  {
    hide Mul, Mix;
    match p
    case Stop(drop) => AddingCopies(drop, q, f);
    case Flip(c, heads, tails) =>
      BothCopies(heads, q, f);
      BothCopies(tails, q, f);
      MixShifted(c, Expect(Copies(f), q), Expect(Copies(f), heads), Expect(Copies(f), tails));
  }

  // ------------------------------------------------------------ proper processes

  /** Every flip is made with a probability. */
  ghost predicate Proper(p: Process) {
    p.Flip? ==> 0.0 <= p.chance <= 1.0 && Proper(p.heads) && Proper(p.tails)
  }

  /** Whatever drops, drops at least once. */
  ghost predicate WholeCopies(p: Process) {
    match p
    case Stop(drop) => forall f | f in drop :: drop[f] >= 1.0
    case Flip(c, heads, tails) => WholeCopies(heads) && WholeCopies(tails)
  }

  lemma ThinKeeps(c: real, p: Process)
    ensures 0.0 <= c <= 1.0 && Proper(p) ==> Proper(Thin(c, p))
    ensures WholeCopies(p) ==> WholeCopies(Thin(c, p))
  {
    assert Proper(Nothing) && WholeCopies(Nothing);
  }

  lemma {:induction false} ScaledKeeps(q: real, p: Process)
    ensures Proper(p) ==> Proper(Scaled(q, p))
    ensures q >= 1.0 && WholeCopies(p) ==> WholeCopies(Scaled(q, p))
  {
    match p
    case Stop(drop) =>
      if q >= 1.0 && WholeCopies(p) {
        forall f | f in drop ensures Times(q, drop)[f] >= 1.0 {
          MulOrdered(drop[f], 1.0, q);
        }
      }
    case Flip(c, heads, tails) =>
      ScaledKeeps(q, heads);
      ScaledKeeps(q, tails);
  }

  lemma {:induction false} AddingKeeps(drop: Drop, p: Process)
    ensures Proper(p) ==> Proper(Adding(drop, p))
    ensures WholeCopies(Stop(drop)) && WholeCopies(p) ==> WholeCopies(Adding(drop, p))
  {
    if p.Flip? {
      AddingKeeps(drop, p.heads);
      AddingKeeps(drop, p.tails);
    }
  }

  lemma {:induction false} BothKeeps(p: Process, q: Process)
    ensures Proper(p) && Proper(q) ==> Proper(Both(p, q))
    ensures WholeCopies(p) && WholeCopies(q) ==> WholeCopies(Both(p, q))
  {
    match p
    case Stop(drop) => AddingKeeps(drop, q);
    case Flip(c, heads, tails) =>
      BothKeeps(heads, q);
      BothKeeps(tails, q);
  }

  // ------------------------------------------------------- laws of probabilities

  lemma {:induction false} HitsBounded(p: Process, items: iset<FormId>)
    requires Proper(p)
    ensures 0.0 <= Expect(Hits(items), p) <= 1.0
  {
    hide Mul, Mix;
    match p
    case Stop(drop) =>
    case Flip(c, heads, tails) =>
      HitsBounded(heads, items);
      HitsBounded(tails, items);
      MixBounded(c, 0.0, Expect(Hits(items), heads), Expect(Hits(items), tails), 1.0);
  }

  /** A bigger set of items is hit at least as often. */
  lemma {:induction false} HitsMonotone(p: Process, a: iset<FormId>, b: iset<FormId>)
    requires Proper(p) && a <= b
    ensures Expect(Hits(a), p) <= Expect(Hits(b), p)
  {
    hide Mul, Mix;
    match p
    case Stop(drop) =>
      assert Meets(drop, a) ==> Meets(drop, b);
    case Flip(c, heads, tails) =>
      HitsMonotone(heads, a, b);
      HitsMonotone(tails, a, b);
      MixOrdered(c, Expect(Hits(a), heads), Expect(Hits(a), tails), Expect(Hits(b), heads), Expect(Hits(b), tails));
  }

  /** The union bound. */
  lemma {:induction false} HitsUnion(p: Process, a: iset<FormId>, b: iset<FormId>)
    requires Proper(p)
    ensures Expect(Hits(a + b), p) <= Expect(Hits(a), p) + Expect(Hits(b), p)
  {
    hide Mul, Mix;
    match p
    case Stop(drop) =>
      assert Meets(drop, a + b) ==> Meets(drop, a) || Meets(drop, b);
    case Flip(c, heads, tails) =>
      HitsUnion(heads, a, b);
      HitsUnion(tails, a, b);
      var x, y := Expect(Hits(a + b), heads), Expect(Hits(a + b), tails);
      var u, v, u', v' := Expect(Hits(a), heads), Expect(Hits(a), tails), Expect(Hits(b), heads), Expect(Hits(b), tails);
      MixOrdered(c, x, y, u + u', v + v');
      MixAdds(c, u, v, u', v');
  }

  /** Items that never drop do not count. */
  lemma {:induction false} HitsNeverDropping(p: Process, a: iset<FormId>, b: iset<FormId>)
    requires Proper(p) && a <= b
    requires forall f | f in b - a :: Expect(Hits(iset{f}), p) == 0.0
    ensures Expect(Hits(b), p) == Expect(Hits(a), p)
  {
    hide Mul, Mix;
    match p
    case Stop(drop) =>
      forall f | f in b - a
        ensures f !in drop
      {
        assert !Meets(drop, iset{f});
      }
    case Flip(c, heads, tails) =>
      forall f | f in b - a
        ensures c == 0.0 || Expect(Hits(iset{f}), heads) == 0.0
        ensures c == 1.0 || Expect(Hits(iset{f}), tails) == 0.0
      {
        HitsBounded(heads, iset{f});
        HitsBounded(tails, iset{f});
        MixZero(c, Expect(Hits(iset{f}), heads), Expect(Hits(iset{f}), tails));
      }
      MixEnds(Expect(Hits(a), heads), Expect(Hits(a), tails));
      MixEnds(Expect(Hits(b), heads), Expect(Hits(b), tails));
      if c != 0.0 {
        HitsNeverDropping(heads, a, b);
      }
      if c != 1.0 {
        HitsNeverDropping(tails, a, b);
      }
  }

  /** With whole copies, the expected number of copies is at least the chance of
      one. */
  lemma {:induction false} CopiesAtLeastHits(p: Process, f: FormId)
    requires Proper(p) && WholeCopies(p)
    ensures Expect(Hits(iset{f}), p) <= Expect(Copies(f), p)
  {
    hide Mul, Mix;
    match p
    case Stop(drop) =>
    case Flip(c, heads, tails) =>
      CopiesAtLeastHits(heads, f);
      CopiesAtLeastHits(tails, f);
      MixOrdered(c, Expect(Hits(iset{f}), heads), Expect(Hits(iset{f}), tails),
                 Expect(Copies(f), heads), Expect(Copies(f), tails));
  }
}
