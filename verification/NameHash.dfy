/** The archive name hash: a table-driven CRC against polynomial long division. */
module NameHash {

  const POLY: bv32 := 0xEDB8_8320

  // The word operations, named so that proofs can treat them as opaque.
  function Xor(x: bv32, y: bv32): bv32 { x ^ y }
  function Half(x: bv32): bv32 { x >> 1 }
  predicate Odd(x: bv32) { x & 1 != 0 }
  function High(x: bv32): bv32 { x >> 8 }
  function Low(x: bv32): bv32 { x & 0xff }
  function Word(b: bv8): bv32 { b as bv32 }

  // ------------------------------------------------------------ long division by hand

  /** One place of the division in reflected order, where bit 0 holds the highest
      power: a leading one is cancelled by subtracting the generator. */
  function Step(c: bv32): bv32 {
    if Odd(c) then Xor(Half(c), POLY) else Half(c)
  }

  function Steps(c: bv32, n: nat): bv32
    decreases n
  {
    if n == 0 then c else Steps(Step(c), n - 1)
  }

  /** A coefficient entering at the low power end of the window. */
  ghost function Incoming(bit: bool): bv32 {
    if bit then 0x8000_0000 else 0
  }

  /** Divides by the generator: the window holds the current remainder, and the
      coefficients still to come are brought down one at a time. */
  ghost function LongDivision(window: bv32, coefficients: seq<bool>): bv32
    decreases |coefficients|
  {
    if |coefficients| == 0 then window
    else LongDivision(Xor(Step(window), Incoming(coefficients[0])), coefficients[1..])
  }

  /** The low `k` bits of `x`, lowest first. */
  ghost function Bits(x: bv32, k: nat): seq<bool>
    decreases k
  {
    if k == 0 then [] else [Odd(x)] + Bits(Half(x), k - 1)
  }

  /** The message polynomial, each byte giving its lowest bit first. */
  ghost function MessageBits(bytes: seq<bv8>): seq<bool> {
    if |bytes| == 0 then [] else Bits(Word(bytes[0]), 8) + MessageBits(bytes[1..])
  }

  ghost function Zeros(n: nat): (z: seq<bool>)
    ensures |z| == n
  {
    seq(n, _ => false)
  }

  /** The remainder of the message times x to the 32. */
  ghost function Remainder(bytes: seq<bv8>): bv32 {
    LongDivision(0, MessageBits(bytes) + Zeros(32))
  }

  // ------------------------------------------------------------------- the hash itself

  ghost predicate IsTable(table: array<bv32>)
    reads table
  {
    table.Length == 256 && forall i | 0 <= i < 256 :: table[i] == Steps(i as bv32, 8)
  }

  method BuildTable() returns (table: array<bv32>)
    ensures fresh(table) && IsTable(table)
  {
    hide Steps;
    table := new bv32[256];
    for i := 0 to 256
      invariant forall j | 0 <= j < i :: table[j] == Steps(j as bv32, 8)
    {
      var c := EightPlaces(i as bv32);
      table[i] := c;
    }
  }

  method EightPlaces(x: bv32) returns (c: bv32)
    ensures c == Steps(x, 8)
  {
    hide Step;
    c := x;
    for k := 0 to 8
      invariant Steps(c, 8 - k) == Steps(x, 8)
    {
      StepIs(c);
      c := if c & 1 != 0 then (c >> 1) ^ POLY else c >> 1;
    }
  }

  lemma StepIs(c: bv32)
    ensures Step(c) == if c & 1 != 0 then (c >> 1) ^ POLY else c >> 1
  {}

  method BethCrc(table: array<bv32>, bytes: seq<bv8>) returns (crc: bv32)
    requires IsTable(table)
    ensures crc == Remainder(bytes)
  {
    hide Steps, Remainder, Absorbed, Index, Low, High, Xor, Word;
    crc := 0;
    AbsorbNothing(0);
    for i := 0 to |bytes|
      invariant crc == Absorbed(0, bytes[..i])
    {
      IndexOf(crc, bytes[i]);
      ByteAtOnce(crc, bytes[i]);
      AbsorbedLast(0, bytes[..i], bytes[i]);
      assert bytes[..i + 1] == bytes[..i] + [bytes[i]];
      crc := Xor(table[Index(crc, bytes[i])], High(crc));
    }
    assert bytes[..|bytes|] == bytes;
    AbsorbedIsRemainder(bytes);
  }

  lemma RoundTrip(x: bv32)
    ensures (x as int) as bv32 == x
  {}

  lemma InTable(x: bv32)
    ensures 0 <= (x & 0xff) as int < 256
  {}

  /** The table slot for the register's low byte and the next byte. */
  function Index(crc: bv32, b: bv8): int {
    Low(Xor(crc, Word(b))) as int
  }

  lemma IndexOf(crc: bv32, b: bv8)
    ensures 0 <= Index(crc, b) < 256
    ensures Index(crc, b) as bv32 == Low(Xor(crc, Word(b)))
  {
    hide Xor, Word;
    InTable(Xor(crc, Word(b)));
    RoundTrip(Low(Xor(crc, Word(b))));
  }

  // -------------------------------------------------------------------- word arithmetic

  lemma RawAssoc(a: bv32, b: bv32, c: bv32)
    ensures (a ^ b) ^ c == a ^ (b ^ c)
  {}

  lemma Assoc(a: bv32, b: bv32, c: bv32)
    ensures Xor(Xor(a, b), c) == Xor(a, Xor(b, c))
  {
    RawAssoc(a, b, c);
  }

  lemma RawCommute(a: bv32, b: bv32)
    ensures a ^ b == b ^ a
  {}

  lemma Commute(a: bv32, b: bv32)
    ensures Xor(a, b) == Xor(b, a)
  {
    RawCommute(a, b);
  }

  lemma RawUnit(a: bv32)
    ensures a ^ 0 == a && a ^ a == 0
  {}

  lemma Unit(a: bv32)
    ensures Xor(a, 0) == a && Xor(0, a) == a && Xor(a, a) == 0
  {
    RawUnit(a);
    RawCommute(0, a);
  }

  lemma Cancelled(a: bv32, b: bv32, p: bv32)
    ensures Xor(Xor(a, p), Xor(b, p)) == Xor(a, b)
    ensures Xor(a, Xor(b, p)) == Xor(Xor(a, b), p)
    ensures Xor(Xor(a, p), b) == Xor(Xor(a, b), p)
  {
    hide Xor;
    Assoc(a, b, p);
    Assoc(a, p, b);
    Commute(p, b);
    Assoc(a, p, Xor(b, p));
    Assoc(p, b, p);
    Assoc(b, p, p);
    Unit(p);
    Unit(b);
  }

  lemma EqualByXor(x: bv32, y: bv32)
    ensures Xor(x, y) == 0 <==> x == y
  {
    hide Xor;
    Unit(x);
    Unit(y);
    Assoc(x, y, y);
  }

  lemma RawParity(x: bv32, y: bv32)
    ensures (x ^ y) & 1 == (x & 1) ^ (y & 1)
    ensures (x & 1 == 0 || x & 1 == 1) && (y & 1 == 0 || y & 1 == 1)
  {}

  lemma OddXor(x: bv32, y: bv32)
    ensures Odd(Xor(x, y)) <==> Odd(x) != Odd(y)
  {
    RawParity(x, y);
  }

  lemma HalfXor(x: bv32, y: bv32)
    ensures Half(Xor(x, y)) == Xor(Half(x), Half(y))
  {}

  // ---------------------------------------------------------------------- linear steps

  lemma StepLinear(x: bv32, y: bv32)
    ensures Step(Xor(x, y)) == Xor(Step(x), Step(y))
  {
    hide Xor, Half, Odd;
    OddXor(x, y);
    HalfXor(x, y);
    Cancelled(Half(x), Half(y), POLY);
  }

  lemma {:induction false} StepsLinear(x: bv32, y: bv32, n: nat)
    ensures Steps(Xor(x, y), n) == Xor(Steps(x, n), Steps(y, n))
    decreases n
  {
    hide Step, Xor;
    if n > 0 {
      StepLinear(x, y);
      StepsLinear(Step(x), Step(y), n - 1);
    }
  }

  lemma {:induction false} StepsAdd(c: bv32, m: nat, n: nat)
    ensures Steps(Steps(c, m), n) == Steps(c, m + n)
    decreases m
  {
    hide Step;
    if m > 0 {
      StepsAdd(Step(c), m - 1, n);
    }
  }

  lemma OneStep(c: bv32)
    ensures Steps(c, 1) == Step(c)
  {
    hide Step;
    assert Steps(Step(c), 0) == Step(c);
  }

  lemma StepLast(c: bv32, n: nat)
    ensures Steps(Step(c), n) == Step(Steps(c, n))
  {
    hide Step, Steps;
    StepsAdd(c, n, 1);
    StepsAdd(c, 1, n);
    OneStep(c);
    OneStep(Steps(c, n));
  }

  lemma StepOfZero()
    ensures Step(0) == 0
  {}

  lemma {:induction false} StepsOfZero(n: nat)
    ensures Steps(0, n) == 0
  {
    hide Step;
    if n > 0 {
      StepOfZero();
      StepsOfZero(n - 1);
    }
  }

  lemma RawTop(x: bv32)
    ensures (x >> 1) ^ 0xEDB8_8320 != 0
    ensures x & 1 == 0 && x >> 1 == 0 ==> x == 0
  {}

  lemma StepToZero(x: bv32)
    ensures Step(x) == 0 ==> x == 0
  {
    RawTop(x);
  }

  /** No state but zero is divided away. */
  lemma {:induction false} StepsToZero(x: bv32, n: nat)
    ensures Steps(x, n) == 0 ==> x == 0
    decreases n
  {
    hide Step;
    if n > 0 {
      StepToZero(x);
      StepsToZero(Step(x), n - 1);
    }
  }

  lemma StepsInjective(x: bv32, y: bv32, n: nat)
    ensures Steps(x, n) == Steps(y, n) ==> x == y
  {
    hide Steps, Xor;
    StepsLinear(x, y, n);
    EqualByXor(Steps(x, n), Steps(y, n));
    StepsToZero(Xor(x, y), n);
    EqualByXor(x, y);
  }

  // ------------------------------------------------------------- several places at once

  ghost function Halves(x: bv32, k: nat): bv32
    decreases k
  {
    if k == 0 then x else Halves(Half(x), k - 1)
  }

  /** The low `k` bits of `x` are zero. */
  ghost predicate Clear(x: bv32, k: nat)
    decreases k
  {
    k == 0 || (!Odd(x) && Clear(Half(x), k - 1))
  }

  lemma {:induction false} ClearSteps(x: bv32, k: nat)
    requires Clear(x, k)
    ensures Steps(x, k) == Halves(x, k)
    decreases k
  {
    hide Half, Odd;
    if k > 0 {
      ClearSteps(Half(x), k - 1);
    }
  }

  lemma RawEight(x: bv32)
    ensures x >> 1 >> 1 >> 1 >> 1 >> 1 >> 1 >> 1 >> 1 == x >> 8
  {}

  lemma EightHalves(x: bv32)
    ensures Halves(x, 8) == High(x)
  {
    RawEight(x);
    var h := Half(Half(Half(Half(x))));
    assert Half(Half(Half(Half(h)))) == High(x);
    FourHalves(x, 4);
    FourHalves(h, 0);
  }

  lemma FourHalves(x: bv32, k: nat)
    ensures Halves(x, k + 4) == Halves(Half(Half(Half(Half(x)))), k)
  {
    hide Half;
    assert Halves(x, k + 4) == Halves(Half(x), k + 3);
    assert Halves(Half(x), k + 3) == Halves(Half(Half(x)), k + 2);
    assert Halves(Half(Half(x)), k + 2) == Halves(Half(Half(Half(x))), k + 1);
  }

  lemma RawClear(x: bv32)
    requires x & 0xff == 0
    ensures x & 1 == 0 && (x >> 1) & 1 == 0 && (x >> 1 >> 1) & 1 == 0 && (x >> 1 >> 1 >> 1) & 1 == 0
    ensures (x >> 1 >> 1 >> 1 >> 1) & 1 == 0 && (x >> 1 >> 1 >> 1 >> 1 >> 1) & 1 == 0
    ensures (x >> 1 >> 1 >> 1 >> 1 >> 1 >> 1) & 1 == 0 && (x >> 1 >> 1 >> 1 >> 1 >> 1 >> 1 >> 1) & 1 == 0
  {}

  lemma EvenHalves(x: bv32)
    requires Low(x) == 0
    ensures !Odd(x) && !Odd(Half(x)) && !Odd(Half(Half(x))) && !Odd(Half(Half(Half(x))))
    ensures var h := Half(Half(Half(Half(x)))); !Odd(h) && !Odd(Half(h)) && !Odd(Half(Half(h))) && !Odd(Half(Half(Half(h))))
  {
    RawClear(x);
  }

  lemma ClearFour(x: bv32, k: nat)
    requires !Odd(x) && !Odd(Half(x)) && !Odd(Half(Half(x))) && !Odd(Half(Half(Half(x))))
    requires Clear(Half(Half(Half(Half(x)))), k)
    ensures Clear(x, k + 4)
  {
    hide Odd, Half;
    assert Clear(Half(Half(Half(x))), k + 1);
    assert Clear(Half(Half(x)), k + 2);
    assert Clear(Half(x), k + 3);
  }

  /** Eight zero bits are shifted out. */
  lemma ShiftedOut(x: bv32)
    requires Low(x) == 0
    ensures Steps(x, 8) == High(x)
  {
    hide Odd, Half, High, Low, Steps, Halves;
    EvenHalves(x);
    var h := Half(Half(Half(Half(x))));
    ClearFour(h, 0);
    ClearFour(x, 4);
    ClearSteps(x, 8);
    EightHalves(x);
  }

  ghost function HighPart(x: bv32): bv32 { x & 0xffff_ff00 }

  lemma Parts(x: bv32)
    ensures x == Xor(Low(x), HighPart(x)) && Low(HighPart(x)) == 0 && High(HighPart(x)) == High(x)
  {}

  lemma HighIgnoresByte(c: bv32, b: bv8)
    ensures High(Xor(c, Word(b))) == High(c)
  {}

  /** Eight places at once, as the table does it. */
  lemma ByteAtOnce(c: bv32, b: bv8)
    ensures Steps(Xor(c, Word(b)), 8) == Xor(Steps(Low(Xor(c, Word(b))), 8), High(c))
  {
    hide Xor, Low, High, HighPart, Steps, Word;
    var x := Xor(c, Word(b));
    Parts(x);
    HighIgnoresByte(c, b);
    StepsLinear(Low(x), HighPart(x), 8);
    ShiftedOut(HighPart(x));
  }

  // ----------------------------------------------------------- the register, byte by byte

  /** The register after absorbing the bytes, eight places for each. */
  ghost function Absorbed(c: bv32, bytes: seq<bv8>): bv32
    decreases |bytes|
  {
    if |bytes| == 0 then c else Absorbed(Steps(Xor(c, Word(bytes[0])), 8), bytes[1..])
  }

  lemma AbsorbNothing(c: bv32)
    ensures Absorbed(c, []) == c
  {}

  lemma {:induction false} AbsorbedConcat(c: bv32, a: seq<bv8>, b: seq<bv8>)
    ensures Absorbed(c, a + b) == Absorbed(Absorbed(c, a), b)
    decreases |a|
  {
    hide Steps, Xor, Word;
    if |a| == 0 {
      assert a + b == b;
    } else {
      assert (a + b)[1..] == a[1..] + b;
      AbsorbedConcat(Steps(Xor(c, Word(a[0])), 8), a[1..], b);
    }
  }

  lemma AbsorbedLast(c: bv32, a: seq<bv8>, b: bv8)
    ensures Absorbed(c, a + [b]) == Steps(Xor(Absorbed(c, a), Word(b)), 8)
  {
    hide Steps, Xor, Word;
    AbsorbedConcat(c, a, [b]);
    var d := Absorbed(c, a);
    assert Absorbed(d, [b]) == Absorbed(Steps(Xor(d, Word(b)), 8), []);
  }

  // -------------------------------------------------- the register, coefficient by coefficient

  ghost function BitWord(bit: bool): bv32 { if bit then 1 else 0 }

  ghost function Fed(c: bv32, bits: seq<bool>): bv32
    decreases |bits|
  {
    if |bits| == 0 then c else Fed(Step(Xor(c, BitWord(bits[0]))), bits[1..])
  }

  ghost function EvenPart(x: bv32): bv32 { x & 0xffff_fffe }

  lemma RawSplit(x: bv32)
    ensures (x & 1) ^ (x & 0xffff_fffe) == x && (x & 1 == 0 || x & 1 == 1)
    ensures (x & 0xffff_fffe) & 1 == 0 && (x & 0xffff_fffe) >> 1 == x >> 1
  {}

  lemma SplitBit(x: bv32)
    ensures x == Xor(BitWord(Odd(x)), EvenPart(x)) && !Odd(EvenPart(x)) && Half(EvenPart(x)) == Half(x)
  {
    RawSplit(x);
  }

  lemma EvenStep(x: bv32)
    requires !Odd(x)
    ensures Step(x) == Half(x)
  {}

  lemma {:induction false} FedAtOnce(c: bv32, x: bv32, k: nat)
    requires Halves(x, k) == 0
    ensures Fed(c, Bits(x, k)) == Steps(Xor(c, x), k)
    decreases k
  {
    hide Xor, Odd, Half, Step, BitWord, EvenPart;
    if k == 0 {
      Unit(c);
    } else {
      var bit := BitWord(Odd(x));
      SplitBit(x);
      EvenStep(EvenPart(x));
      Assoc(c, bit, EvenPart(x));
      StepLinear(Xor(c, bit), EvenPart(x));
      FedAtOnce(Step(Xor(c, bit)), Half(x), k - 1);
      assert Bits(x, k)[1..] == Bits(Half(x), k - 1);
    }
  }

  lemma {:induction false} FedConcat(c: bv32, a: seq<bool>, b: seq<bool>)
    ensures Fed(c, a + b) == Fed(Fed(c, a), b)
    decreases |a|
  {
    hide Step, Xor, BitWord;
    if |a| == 0 {
      assert a + b == b;
    } else {
      assert (a + b)[1..] == a[1..] + b;
      FedConcat(Step(Xor(c, BitWord(a[0]))), a[1..], b);
    }
  }

  lemma ByteHasEightBits(b: bv8)
    ensures Halves(Word(b), 8) == 0
  {
    hide Halves;
    EightHalves(Word(b));
  }

  lemma FedNothing(c: bv32)
    ensures Fed(c, []) == c
  {}

  lemma {:induction false} AbsorbedIsFed(c: bv32, bytes: seq<bv8>)
    ensures Absorbed(c, bytes) == Fed(c, MessageBits(bytes))
    decreases |bytes|
  {
    hide Steps, Fed, Bits, Halves, Xor, Word;
    if |bytes| == 0 {
      FedNothing(c);
    } else {
      var b := Word(bytes[0]);
      ByteHasEightBits(bytes[0]);
      FedAtOnce(c, b, 8);
      FedConcat(c, Bits(b, 8), MessageBits(bytes[1..]));
      AbsorbedIsFed(Steps(Xor(c, b), 8), bytes[1..]);
    }
  }

  // -------------------------------------------------------- register against long division

  lemma Landmarks()
    ensures Low(0x8000_0000) == 0 && High(0x8000_0000) == 0x80_0000
    ensures Low(0x80_0000) == 0 && High(0x80_0000) == 0x8000
    ensures Low(0x8000) == 0 && High(0x8000) == 0x80
    ensures Step(0x80) == 0x40 && Step(0x40) == 0x20 && Step(0x20) == 0x10 && Step(0x10) == 8
    ensures Step(8) == 4 && Step(4) == 2 && Step(2) == 1
  {}

  lemma SevenShifts()
    ensures Steps(0x80, 8) == Step(1)
  {
    hide Step;
    Landmarks();
    assert Steps(0x80, 8) == Steps(0x40, 7) == Steps(0x20, 6);
    assert Steps(0x20, 6) == Steps(0x10, 5) == Steps(8, 4);
    assert Steps(8, 4) == Steps(4, 3) == Steps(2, 2);
    assert Steps(2, 2) == Steps(1, 1);
    OneStep(1);
  }

  /** A one brought down reaches the leading place after 31 more places. */
  lemma IncomingArrives(bit: bool)
    ensures Steps(Incoming(bit), 32) == Step(BitWord(bit))
  {
    hide Steps, Step;
    if bit {
      Landmarks();
      ShiftedOut(0x8000_0000);
      ShiftedOut(0x80_0000);
      ShiftedOut(0x8000);
      StepsAdd(0x8000_0000, 8, 8);
      StepsAdd(0x8000_0000, 16, 8);
      StepsAdd(0x8000_0000, 24, 8);
      SevenShifts();
    } else {
      StepsOfZero(32);
      StepOfZero();
    }
  }

  lemma {:induction false} DivideZeros(w: bv32, n: nat)
    ensures LongDivision(w, Zeros(n)) == Steps(w, n)
    decreases n
  {
    hide Step, Xor;
    if n > 0 {
      assert Zeros(n)[1..] == Zeros(n - 1);
      Unit(Step(w));
      DivideZeros(Step(w), n - 1);
    }
  }

  /** Feeding the register gives the remainder of the message followed by 32 zeros. */
  lemma {:induction false} FedIsDivision(w: bv32, bits: seq<bool>)
    ensures LongDivision(w, bits + Zeros(32)) == Fed(Steps(w, 32), bits)
    decreases |bits|
  {
    hide Step, Incoming, Steps, Xor, BitWord;
    if |bits| == 0 {
      assert bits + Zeros(32) == Zeros(32);
      DivideZeros(w, 32);
    } else {
      var w' := Xor(Step(w), Incoming(bits[0]));
      assert (bits + Zeros(32))[1..] == bits[1..] + Zeros(32);
      FedIsDivision(w', bits[1..]);
      StepsLinear(Step(w), Incoming(bits[0]), 32);
      IncomingArrives(bits[0]);
      StepLast(w, 32);
      StepLinear(Steps(w, 32), BitWord(bits[0]));
    }
  }

  lemma AbsorbedIsRemainder(bytes: seq<bv8>)
    ensures Absorbed(0, bytes) == Remainder(bytes)
  {
    hide Steps, Fed, LongDivision, Absorbed, MessageBits;
    AbsorbedIsFed(0, bytes);
    FedIsDivision(0, MessageBits(bytes));
    StepsOfZero(32);
  }

  // ----------------------------------------------------------------- laws of the hash

  ghost function XorBytes(a: seq<bv8>, b: seq<bv8>): (r: seq<bv8>)
    requires |a| == |b|
    ensures |r| == |a|
  {
    seq(|a|, i requires 0 <= i < |a| => a[i] ^ b[i])
  }

  lemma WordXor(a: bv8, b: bv8)
    ensures Word(a ^ b) == Xor(Word(a), Word(b))
  {}

  lemma Interleave(c: bv32, d: bv32, a: bv32, b: bv32)
    ensures Xor(Xor(c, d), Xor(a, b)) == Xor(Xor(c, a), Xor(d, b))
  {
    hide Xor;
    Assoc(c, d, Xor(a, b));
    Cancelled(d, a, b);
    Assoc(d, a, b);
    Commute(d, a);
    Assoc(a, d, b);
    Assoc(c, a, Xor(d, b));
  }

  lemma {:induction false} AbsorbedLinear(c: bv32, d: bv32, a: seq<bv8>, b: seq<bv8>)
    requires |a| == |b|
    ensures Absorbed(Xor(c, d), XorBytes(a, b)) == Xor(Absorbed(c, a), Absorbed(d, b))
    decreases |a|
  {
    hide Steps, Xor, Word;
    if |a| > 0 {
      var x, y := Xor(c, Word(a[0])), Xor(d, Word(b[0]));
      assert XorBytes(a, b)[1..] == XorBytes(a[1..], b[1..]);
      WordXor(a[0], b[0]);
      Interleave(c, d, Word(a[0]), Word(b[0]));
      StepsLinear(x, y, 8);
      AbsorbedLinear(Steps(x, 8), Steps(y, 8), a[1..], b[1..]);
    }
  }

  /** The hash is linear over messages of one length. */
  lemma HashLinear(a: seq<bv8>, b: seq<bv8>)
    requires |a| == |b|
    ensures Remainder(XorBytes(a, b)) == Remainder(a) ^ Remainder(b)
  {
    hide Remainder, Absorbed;
    AbsorbedLinear(0, 0, a, b);
    Unit(0);
    AbsorbedIsRemainder(a);
    AbsorbedIsRemainder(b);
    AbsorbedIsRemainder(XorBytes(a, b));
  }

  lemma {:induction false} AbsorbedZeros(n: nat)
    ensures Absorbed(0, seq(n, _ => 0)) == 0
  {
    hide Steps, Xor;
    if n > 0 {
      var zeros: seq<bv8> := seq(n, _ => 0);
      assert zeros[1..] == seq(n - 1, _ => 0);
      StepsOfZero(8);
      Unit(0);
      AbsorbedZeros(n - 1);
    }
  }

  /** Leading zero bytes are invisible. */
  lemma LeadingZeros(n: nat, bytes: seq<bv8>)
    ensures Remainder(seq(n, _ => 0) + bytes) == Remainder(bytes)
  {
    hide Remainder, Absorbed;
    AbsorbedZeros(n);
    AbsorbedConcat(0, seq(n, _ => 0), bytes);
    AbsorbedIsRemainder(bytes);
    AbsorbedIsRemainder(seq(n, _ => 0) + bytes);
  }

  lemma {:induction false} SameTail(c: bv32, d: bv32, bytes: seq<bv8>)
    ensures Absorbed(c, bytes) == Absorbed(d, bytes) ==> c == d
    decreases |bytes|
  {
    hide Steps, Xor, Word;
    if |bytes| > 0 {
      var x, y := Xor(c, Word(bytes[0])), Xor(d, Word(bytes[0]));
      SameTail(Steps(x, 8), Steps(y, 8), bytes[1..]);
      StepsInjective(x, y, 8);
      EqualByXor(x, y);
      Cancelled(c, d, Word(bytes[0]));
      EqualByXor(c, d);
    }
  }

  // Up to four bytes as one word, lowest byte first.

  ghost function Up(x: bv32): bv32 { x << 8 }

  ghost predicate Below(x: bv32, n: nat) {
    match n
    case 0 => x == 0
    case 1 => x < 0x100
    case 2 => x < 0x1_0000
    case 3 => x < 0x100_0000
    case _ => true
  }

  ghost function Pack(w: seq<bv8>): bv32 {
    if |w| == 0 then 0 else Xor(Word(w[0]), Up(Pack(w[1..])))
  }

  lemma RawPack(b: bv32, x: bv32)
    requires b <= 0xff
    ensures x == 0 ==> b ^ (x << 8) < 0x100
    ensures x < 0x100 ==> b ^ (x << 8) < 0x1_0000
    ensures x < 0x1_0000 ==> b ^ (x << 8) < 0x100_0000
  {}

  lemma RawUp(x: bv32)
    ensures (x << 8) & 0xff == 0
    ensures x < 0x100_0000 ==> (x << 8) >> 8 == x
  {}

  lemma WordIsByte(b: bv8)
    ensures Word(b) <= 0xff
  {}

  lemma NamedPack(b: bv32, x: bv32)
    ensures Xor(b, Up(x)) == b ^ (x << 8) && Low(Up(x)) == (x << 8) & 0xff && High(Up(x)) == (x << 8) >> 8
  {}

  lemma PackStep(b: bv8, x: bv32, n: nat)
    requires n < 4 && Below(x, n)
    ensures Below(Xor(Word(b), Up(x)), n + 1)
    ensures Low(Up(x)) == 0 && High(Up(x)) == x
  {
    hide Xor, Word, Up, Low, High;
    WordIsByte(b);
    NamedPack(Word(b), x);
    RawUp(x);
    RawPack(Word(b), x);
    BelowThree(x, n);
  }

  lemma RawUnpack(b: bv32, x: bv32)
    requires b <= 0xff
    ensures (b ^ (x << 8)) & 0xff == b
    ensures x < 0x100_0000 ==> (b ^ (x << 8)) >> 8 == x
  {}

  lemma WordInjective(a: bv8, b: bv8)
    ensures Word(a) == Word(b) ==> a == b
  {}

  lemma PackApart(a: bv8, x: bv32, b: bv8, y: bv32)
    ensures x < 0x100_0000 && y < 0x100_0000 && Xor(Word(a), Up(x)) == Xor(Word(b), Up(y)) ==> a == b && x == y
  {
    hide Xor, Word, Up;
    WordIsByte(a);
    WordIsByte(b);
    NamedPack(Word(a), x);
    NamedPack(Word(b), y);
    RawUnpack(Word(a), x);
    RawUnpack(Word(b), y);
    WordInjective(a, b);
  }

  lemma BelowThree(x: bv32, n: nat)
    requires n < 4 && Below(x, n)
    ensures x < 0x100_0000
  {}

  lemma {:induction false} PackBelow(w: seq<bv8>)
    requires |w| <= 4
    ensures Below(Pack(w), |w|)
  {
    hide Xor, Word, Up;
    if |w| > 0 {
      PackBelow(w[1..]);
      PackStep(w[0], Pack(w[1..]), |w| - 1);
    }
  }

  lemma {:induction false} PackInjective(v: seq<bv8>, w: seq<bv8>)
    requires |v| == |w| <= 4
    ensures Pack(v) == Pack(w) ==> v == w
  {
    hide Xor, Word, Up, Below;
    if |w| > 0 {
      PackBelow(v[1..]);
      PackBelow(w[1..]);
      BelowThree(Pack(v[1..]), |v| - 1);
      BelowThree(Pack(w[1..]), |w| - 1);
      PackApart(v[0], Pack(v[1..]), w[0], Pack(w[1..]));
      PackInjective(v[1..], w[1..]);
      assert v == [v[0]] + v[1..] && w == [w[0]] + w[1..];
    }
  }

  /** Absorbing up to four bytes is absorbing one word. */
  lemma {:induction false} AbsorbedAsWord(c: bv32, w: seq<bv8>)
    requires |w| <= 4
    ensures Absorbed(c, w) == Steps(Xor(c, Pack(w)), 8 * |w|)
    decreases |w|
  {
    hide Xor, Word, Up, Steps, Below, Low, High;
    if |w| == 0 {
      Unit(c);
      NoSteps(c);
    } else {
      var n, p := 8 * (|w| - 1), Pack(w[1..]);
      var d := Steps(Xor(c, Word(w[0])), 8);
      AbsorbedAsWord(d, w[1..]);
      PackBelow(w[1..]);
      PackStep(w[0], p, |w| - 1);
      ShiftedOut(Up(p));
      Assoc(c, Word(w[0]), Up(p));
      StepsLinear(Xor(c, Word(w[0])), Up(p), 8);
      StepsAdd(Xor(c, Pack(w)), 8, n);
    }
  }

  lemma NoSteps(c: bv32)
    ensures Steps(c, 0) == c
  {}

  /** Two messages that differ only inside one window of at most four bytes never
      collide. */
  lemma BurstsAreDetected(pre: seq<bv8>, v: seq<bv8>, w: seq<bv8>, post: seq<bv8>)
    requires |v| == |w| <= 4 && v != w
    ensures Remainder(pre + v + post) != Remainder(pre + w + post)
  {
    hide Remainder, Absorbed, Steps, Pack, Xor;
    var c := Absorbed(0, pre);
    AbsorbedIsRemainder(pre + v + post);
    AbsorbedIsRemainder(pre + w + post);
    AbsorbedConcat(0, pre + v, post);
    AbsorbedConcat(0, pre + w, post);
    AbsorbedConcat(0, pre, v);
    AbsorbedConcat(0, pre, w);
    SameTail(Absorbed(c, v), Absorbed(c, w), post);
    AbsorbedAsWord(c, v);
    AbsorbedAsWord(c, w);
    StepsInjective(Xor(c, Pack(v)), Xor(c, Pack(w)), 8 * |v|);
    SameFront(c, Pack(v), Pack(w));
    PackInjective(v, w);
  }

  lemma SameFront(c: bv32, x: bv32, y: bv32)
    ensures Xor(c, x) == Xor(c, y) ==> x == y
  {
    hide Xor;
    Commute(c, x);
    Commute(c, y);
    Cancelled(x, y, c);
    EqualByXor(Xor(x, c), Xor(y, c));
    EqualByXor(x, y);
  }

  /** The four bytes that drive the register to zero are its own, lowest first. */
  lemma OwnTail(bytes: seq<bv8>, tail: seq<bv8>)
    requires |tail| == 4
    ensures Remainder(bytes + tail) == 0 <==> Pack(tail) == Remainder(bytes)
  {
    hide Remainder, Absorbed, Steps, Pack, Xor;
    var c := Absorbed(0, bytes);
    AbsorbedIsRemainder(bytes);
    AbsorbedIsRemainder(bytes + tail);
    AbsorbedConcat(0, bytes, tail);
    AbsorbedAsWord(c, tail);
    StepsOfZero(32);
    StepsToZero(Xor(c, Pack(tail)), 32);
    EqualByXor(c, Pack(tail));
  }

  ghost function LittleEndian(x: bv32): (w: seq<bv8>)
    ensures |w| == 4
  {
    [Low(x) as bv8, Low(High(x)) as bv8, Low(High(High(x))) as bv8, Low(High(High(High(x)))) as bv8]
  }

  lemma RawSplitWord(x: bv32)
    ensures (x & 0xff) ^ ((x >> 8) << 8) == x && ((x & 0xff) as bv8) as bv32 == x & 0xff
  {}

  lemma SplitWord(x: bv32)
    ensures Xor(Word(Low(x) as bv8), Up(High(x))) == x
  {
    RawSplitWord(x);
  }

  lemma FourHighs(x: bv32)
    ensures High(High(High(High(x)))) == 0
  {
    assert x >> 8 >> 8 >> 8 >> 8 == 0;
  }

  lemma PackOfLittleEndian(x: bv32)
    ensures Pack(LittleEndian(x)) == x
  {
    hide Xor, Word, Up, Low, High;
    var w := LittleEndian(x);
    SplitWord(x);
    SplitWord(High(x));
    SplitWord(High(High(x)));
    SplitWord(High(High(High(x))));
    FourHighs(x);
    assert Pack([]) == 0;
    assert w[1..][1..][1..][1..] == [];
    assert Pack(w[1..][1..][1..]) == High(High(High(x)));
    assert Pack(w[1..][1..]) == High(High(x));
    assert Pack(w[1..]) == High(x);
  }

  /** Appending the little-endian hash gives zero. */
  lemma AppendedHash(bytes: seq<bv8>)
    ensures Remainder(bytes + LittleEndian(Remainder(bytes))) == 0
  {
    hide Remainder, Pack, LittleEndian;
    var r := Remainder(bytes);
    PackOfLittleEndian(r);
    assert Remainder(bytes + LittleEndian(r)) == 0 by {
      OwnTail(bytes, LittleEndian(r));
    }
  }

  // ------------------------------------------------------------------- the standard one

  /** The exponents of the generator of CRC-32 below its highest, 32. */
  ghost const EXPONENTS: set<nat> := {26, 23, 22, 16, 12, 11, 10, 8, 7, 5, 4, 2, 1, 0}

  /** The generator in reflected order: the bit for x to the power `e` is bit `31 - e`. */
  lemma GeneratorIsStandard(e: nat)
    requires e < 32
    ensures (POLY >> (31 - e)) & 1 == 1 <==> e in EXPONENTS
  {
    if e < 16 { LowExponents(e); } else { HighExponents(e); }
  }

  lemma LowExponents(e: nat)
    requires e < 16
    ensures (POLY >> (31 - e)) & 1 == 1 <==> e in EXPONENTS
  {
  }

  lemma HighExponents(e: nat)
    requires 16 <= e < 32
    ensures (POLY >> (31 - e)) & 1 == 1 <==> e in EXPONENTS
  {
  }

  lemma EightSteps(c: bv32)
    ensures Steps(c, 8) == Step(Step(Step(Step(Step(Step(Step(Step(c))))))))
  {
    assert Steps(c, 8) == Steps(Step(Step(Step(Step(c)))), 4);
  }

  lemma ByteSteps(c: bv32, b: bv8, d: bv32)
    requires Step(Step(Step(Step(Step(Step(Step(Step(c ^ (b as bv32))))))))) == d
    ensures Steps(Xor(c, Word(b)), 8) == d
  {
    hide Step;
    EightSteps(Xor(c, Word(b)));
  }

  lemma AbsorbedTurn(c: bv32, bytes: seq<bv8>, i: nat, d: bv32)
    requires i < |bytes| && Steps(Xor(c, Word(bytes[i])), 8) == d
    ensures Absorbed(c, bytes[i..]) == Absorbed(d, bytes[i + 1..])
  {
    hide Steps, Xor, Word;
    assert bytes[i..][1..] == bytes[i + 1..];
  }

  /** One byte on a known register. */
  lemma Turn(c: bv32, bytes: seq<bv8>, i: nat, d: bv32)
    requires i < |bytes| && Step(Step(Step(Step(Step(Step(Step(Step(c ^ (bytes[i] as bv32))))))))) == d
    ensures Absorbed(c, bytes[i..]) == Absorbed(d, bytes[i + 1..])
  {
    hide Step, Steps, Xor, Word, Absorbed;
    ByteSteps(c, bytes[i], d);
    AbsorbedTurn(c, bytes, i, d);
  }

  ghost const DIGITS: seq<bv8> := [0x31, 0x32, 0x33, 0x34, 0x35, 0x36, 0x37, 0x38, 0x39]

  /** The hash of the nine digits, the usual check message: the register starts at zero
      and is not inverted at the end, which tells this hash from CRC-32 proper. */
  lemma HashOfDigits()
    ensures Remainder([0x31, 0x32, 0x33, 0x34, 0x35, 0x36, 0x37, 0x38, 0x39]) == 0x2DFD_2D88
  {
    hide Steps, Step, Remainder, Absorbed;
    AbsorbedIsRemainder(DIGITS);
    FirstDigits();
    SecondDigits();
    ThirdDigits();
    LastDigits();
  }

  lemma FirstDigits()
    ensures Absorbed(0, DIGITS) == Absorbed(0x0E8A_5632, DIGITS[2..])
  {
    hide Steps, Absorbed;
    assert DIGITS[0..] == DIGITS;
    Turn(0, DIGITS, 0, 0x51DE_003A);
    Turn(0x51DE_003A, DIGITS, 1, 0x0E8A_5632);
  }

  lemma SecondDigits()
    ensures Absorbed(0x0E8A_5632, DIGITS[2..]) == Absorbed(0xBAA7_3FBF, DIGITS[4..])
  {
    hide Steps, Absorbed;
    Turn(0x0E8A_5632, DIGITS, 2, 0x7709_BAC0);
    Turn(0x7709_BAC0, DIGITS, 3, 0xBAA7_3FBF);
  }

  lemma ThirdDigits()
    ensures Absorbed(0xBAA7_3FBF, DIGITS[4..]) == Absorbed(0xB8B0_72C2, DIGITS[6..])
  {
    hide Steps, Absorbed;
    Turn(0xBAA7_3FBF, DIGITS, 4, 0x0DD7_CD01);
    Turn(0x0DD7_CD01, DIGITS, 5, 0xB8B0_72C2);
  }

  lemma LastDigits()
    ensures Absorbed(0xB8B0_72C2, DIGITS[6..]) == 0x2DFD_2D88
  {
    hide Steps, Absorbed;
    assert DIGITS[9..] == [];
    Turn(0xB8B0_72C2, DIGITS, 6, 0xCD6F_B6E1);
    Turn(0xCD6F_B6E1, DIGITS, 7, 0xFFC2_05C6);
    Turn(0xFFC2_05C6, DIGITS, 8, 0x2DFD_2D88);
    AbsorbNothing(0x2DFD_2D88);
  }
}
