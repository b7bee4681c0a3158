/** Byte strings and little-endian numbers. */
module Bytes {

  newtype byte = b: int | 0 <= b < 256

  type Blob = seq<byte>

  const U16: nat := 0x1_0000
  const U32: nat := 0x1_0000_0000
  const U64: nat := 0x1_0000_0000_0000_0000

  function Pow256(k: nat): nat {
    if k == 0 then 1 else 256 * Pow256(k - 1)
  }

  /** The `k` low bytes of `n`, least significant first. */
  function LE(n: nat, k: nat): (s: Blob)
    ensures |s| == k
  {
    if k == 0 then [] else [(n % 256) as byte] + LE(n / 256, k - 1)
  }

  function FromLE(s: Blob): nat {
    if |s| == 0 then 0 else s[0] as nat + 256 * FromLE(s[1..])
  }

  /** The number stored in the `k` bytes of `data` at `pos`. */
  function Read(data: Blob, pos: nat, k: nat): nat
    requires pos + k <= |data|
  {
    FromLE(data[pos..pos + k])
  }

  lemma {:induction false} FromLEOfLE(n: nat, k: nat)
    requires n < Pow256(k)
    ensures FromLE(LE(n, k)) == n
  {
    if k > 0 {
      FromLEOfLE(n / 256, k - 1);
      assert LE(n, k)[1..] == LE(n / 256, k - 1);
    }
  }

  lemma {:induction false} LEOfFromLE(s: Blob)
    ensures FromLE(s) < Pow256(|s|)
    ensures LE(FromLE(s), |s|) == s
  {
    if |s| > 0 {
      LEOfFromLE(s[1..]);
      var rest := FromLE(s[1..]);
      assert FromLE(s) % 256 == s[0] as nat && FromLE(s) / 256 == rest;
    }
  }

  lemma Widths()
    ensures Pow256(1) == 256 && Pow256(2) == U16 && Pow256(4) == U32 && Pow256(8) == U64
  {
    assert Pow256(1) == 256 * Pow256(0);
    assert Pow256(2) == 256 * Pow256(1);
    assert Pow256(3) == 256 * Pow256(2);
    assert Pow256(4) == 256 * Pow256(3);
    assert Pow256(5) == 256 * Pow256(4);
    assert Pow256(6) == 256 * Pow256(5);
    assert Pow256(7) == 256 * Pow256(6);
    assert Pow256(8) == 256 * Pow256(7);
  }

  // ------------------------------------------------------------------ byte order

  lemma {:induction false} Pow256Positive(k: nat)
    ensures Pow256(k) > 0
  {
    if k > 0 {
      Pow256Positive(k - 1);
    }
  }

  /** Byte `i` of a printed number is its digit at 256 to the power `i`: the least
      significant byte comes first. */
  lemma {:induction false} LEDigit(n: nat, k: nat, i: nat)
    requires i < k
    ensures Pow256(i) > 0 && LE(n, k)[i] as nat == n / Pow256(i) % 256
  {
    Pow256Positive(i);
    if i > 0 {
      LEDigit(n / 256, k - 1, i - 1);
      Pow256Positive(i - 1);
      DivideTwice(n, 256, Pow256(i - 1));
    }
  }

  /** The four bytes of a 32-bit number. */
  lemma LEFour(n: nat)
    ensures LE(n, 4) == [(n % 256) as byte, (n / 0x100 % 256) as byte, (n / 0x1_0000 % 256) as byte, (n / 0x100_0000 % 256) as byte]
  {
    LEDigit(n, 4, 0);
    LEDigit(n, 4, 1);
    LEDigit(n, 4, 2);
    LEDigit(n, 4, 3);
    assert Pow256(3) == 256 * Pow256(2);
    Widths();
  }

  lemma DivideTwice(n: nat, a: nat, b: nat)
    requires a > 0 && b > 0
    ensures a * b > 0 && n / a / b == n / (a * b)
  {
    var q, r := n / a, n % a;
    var q', r' := q / b, q % b;
    NestedRemainder(a, b, r, r');
    Regroup(q', b, r', a, r);
    QuotientIs(n, a * b, q', r' * a + r);
  }

  lemma Regroup(q: nat, b: nat, r: nat, a: nat, c: nat)
    ensures (q * b + r) * a + c == q * (a * b) + (r * a + c)
  {}

  lemma NestedRemainder(a: nat, b: nat, r: nat, r': nat)
    requires r < a && r' < b
    ensures 0 <= r' * a + r < a * b
  {
    assert a * b == (b - 1 - r') * a + r' * a + a;
    assert (b - 1 - r') * a >= 0;
  }

  lemma QuotientIs(n: nat, d: nat, q: nat, r: nat)
    requires d > 0 && n == q * d + r && r < d
    ensures n / d == q
  {
    var e := n / d - q;
    assert e * d == n / d * d - q * d;
    MultipleIsFar(e, d);
  }

  lemma MultipleIsFar(e: int, d: nat)
    requires d > 0
    ensures e >= 1 ==> e * d >= d
    ensures e <= -1 ==> e * d + d <= 0
  {}

  lemma WeighMore(x: nat, y: nat, p: nat, z: nat)
    ensures x + 256 * (y + p * z) == x + 256 * y + 256 * p * z
  {}

  /** Reading a byte string, each later byte weighs 256 times the one before it. */
  lemma {:induction false} FromLEConcat(a: Blob, b: Blob)
    ensures FromLE(a + b) == FromLE(a) + Pow256(|a|) * FromLE(b)
  {
    if |a| == 0 {
      assert a + b == b;
    } else {
      FromLEConcat(a[1..], b);
      assert (a + b)[1..] == a[1..] + b;
      WeighMore(a[0] as nat, FromLE(a[1..]), Pow256(|a| - 1), FromLE(b));
    }
  }

  lemma FromLEOne(x: byte)
    ensures FromLE([x]) == x as nat
  {
    assert [x][1..] == [];
  }

  /** Two, four and eight bytes as a number, the lowest first. */
  function Word2(a: byte, b: byte): nat {
    a as nat + 0x100 * b as nat
  }

  function Word4(a: byte, b: byte, c: byte, d: byte): nat {
    Word2(a, b) + 0x1_0000 * Word2(c, d)
  }

  function Word8(a: byte, b: byte, c: byte, d: byte, e: byte, f: byte, g: byte, h: byte): nat {
    Word4(a, b, c, d) + 0x1_0000_0000 * Word4(e, f, g, h)
  }

  lemma SliceOfSlice(data: Blob, base: nat, n: nat, i: nat, j: nat)
    requires base + n <= |data| && i <= j <= n
    ensures data[base..base + n][i..j] == data[base + i..base + j]
  {
    var a, b := data[base..base + n][i..j], data[base + i..base + j];
    forall k | 0 <= k < j - i ensures a[k] == b[k] {
      assert a[k] == data[base + i + k];
    }
  }

  lemma ReadsByte(data: Blob, pos: nat)
    requires pos + 1 <= |data|
    ensures Read(data, pos, 1) == data[pos] as nat
  {
    FromLEOne(data[pos]);
    assert data[pos..pos + 1] == [data[pos]];
  }

  /** The widths the formats use, byte by byte. */
  lemma ReadsWord2(data: Blob, pos: nat)
    requires pos + 2 <= |data|
    ensures Read(data, pos, 2) == Word2(data[pos], data[pos + 1])
  {
    var s := data[pos..pos + 2];
    FromLEConcat(s[..1], s[1..]);
    FromLEOne(data[pos]);
    FromLEOne(data[pos + 1]);
    assert s == s[..1] + s[1..] && s[..1] == [data[pos]] && s[1..] == [data[pos + 1]];
    Widths();
  }

  lemma ReadsWord4(data: Blob, pos: nat)
    requires pos + 4 <= |data|
    ensures Read(data, pos, 4) == Word4(data[pos], data[pos + 1], data[pos + 2], data[pos + 3])
  {
    hide Word2;
    assert data[pos..pos + 4] == data[pos..pos + 2] + data[pos + 2..pos + 4];
    FromLEConcat(data[pos..pos + 2], data[pos + 2..pos + 4]);
    ReadsWord2(data, pos);
    ReadsWord2(data, pos + 2);
    Widths();
  }

  lemma ReadsWord8(data: Blob, pos: nat)
    requires pos + 8 <= |data|
    ensures Read(data, pos, 8) == Word8(data[pos], data[pos + 1], data[pos + 2], data[pos + 3],
                                        data[pos + 4], data[pos + 5], data[pos + 6], data[pos + 7])
  {
    hide Word4;
    assert data[pos..pos + 8] == data[pos..pos + 4] + data[pos + 4..pos + 8];
    FromLEConcat(data[pos..pos + 4], data[pos + 4..pos + 8]);
    ReadsWord4(data, pos);
    ReadsWord4(data, pos + 4);
    Widths();
  }

  /** A field that fits is read back wherever it stands. */
  lemma ReadField(pre: Blob, n: nat, k: nat, post: Blob)
    requires n < Pow256(k)
    ensures Read(pre + LE(n, k) + post, |pre|, k) == n
  {
    FromLEOfLE(n, k);
    assert (pre + LE(n, k) + post)[|pre|..|pre| + k] == LE(n, k);
  }

  /** A number read depends only on its own bytes. */
  lemma ReadShift(pre: Blob, s: Blob, post: Blob, pos: nat, k: nat)
    requires pos + k <= |s|
    ensures Read(pre + s + post, |pre| + pos, k) == Read(s, pos, k)
  {
    assert (pre + s + post)[|pre| + pos..|pre| + pos + k] == s[pos..pos + k];
  }
}
