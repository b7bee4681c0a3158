/** How a texture's mips are split into chunks. */
module TextureChunks {
  import opened Wrappers
  import opened Bytes
  import opened Ba2Format
  import opened Dds

  const CHUNK_AREA: nat := 512 * 512

  function CountFrom(count: nat, width: nat, height: nat, mips: nat): nat
    requires 1 <= count <= 4
    decreases 4 - count
  {
    if count < mips && count < 4 && width * height >= CHUNK_AREA then CountFrom(count + 1, width / 2, height / 2, mips)
    else count
  }

  function MipsOf(desc: TextureDesc): nat {
    if desc.mipCount == 0 then 1 else desc.mipCount
  }

  function ChunkCount(desc: TextureDesc): nat {
    if desc.cubemap then 1 else CountFrom(1, desc.width, desc.height, MipsOf(desc))
  }

  /** One chunk more for every mip of large enough area, up to four. */
  method Dx10ChunkCount(desc: TextureDesc) returns (count: nat)
    ensures count == ChunkCount(desc)
  {
    if desc.cubemap {
      return 1;
    }
    var width: nat, height: nat, mips: nat := desc.width, desc.height, MipsOf(desc);
    count := 1;
    while count < mips && count < 4 && width * height >= CHUNK_AREA
      invariant 1 <= count <= 4
      invariant CountFrom(count, width, height, mips) == ChunkCount(desc)
      decreases 4 - count
    {
      count := count + 1;
      width := width / 2;
      height := height / 2;
    }
  }

  lemma {:induction false} CountFromLaw(count: nat, width: nat, height: nat, mips: nat)
    requires 1 <= count <= 4
    ensures var c := CountFrom(count, width, height, mips);
      && count <= c <= 4 && (count <= mips ==> c <= mips)
      && (forall i | 0 <= i < c - count :: Shr(width, i) * Shr(height, i) >= CHUNK_AREA)
      && (c == 4 || c >= mips || Shr(width, c - count) * Shr(height, c - count) < CHUNK_AREA)
    decreases 4 - count
  {
    if count < mips && count < 4 && width * height >= CHUNK_AREA {
      CountFromLaw(count + 1, width / 2, height / 2, mips);
      var c := CountFrom(count, width, height, mips);
      forall i | 0 <= i < c - count ensures Shr(width, i) * Shr(height, i) >= CHUNK_AREA {
        if i > 0 {
          assert Shr(width, i) == Shr(width / 2, i - 1) && Shr(height, i) == Shr(height / 2, i - 1);
        }
      }
      assert Shr(width, c - count) == Shr(width / 2, c - count - 1);
      assert Shr(height, c - count) == Shr(height / 2, c - count - 1);
    }
  }

  /** At most four chunks and no more than there are mips; the count stops growing only
      at a cap or at the first mip whose area is too small. */
  lemma ChunkCountLaw(desc: TextureDesc)
    ensures var c := ChunkCount(desc);
      && 1 <= c <= 4 && (c == 1 || c <= desc.mipCount)
      && (desc.cubemap ==> c == 1)
      && (forall i | 0 <= i < c - 1 :: Shr(desc.width, i) * Shr(desc.height, i) >= 262144)
      && (desc.cubemap || c == 4 || c >= desc.mipCount || Shr(desc.width, c - 1) * Shr(desc.height, c - 1) < 262144)
  {
    hide CountFrom, Shr;
    if !desc.cubemap {
      CountFromLaw(1, desc.width, desc.height, MipsOf(desc));
    }
  }

  // --------------------------------------------------------------------------- chunks

  /** The length of chunk `i`, which starts at `offset`: one mip, or the rest of the file
      for the last chunk. Nothing when the file is too short. */
  function ChunkLen(desc: TextureDesc, mipData: Blob, offset: nat, i: nat, count: nat): (len: Option<nat>)
    requires i < count && offset <= |mipData|
    ensures len.Some? ==> offset + len.value <= |mipData|
  {
    if i == count - 1 then Some(|mipData| - offset)
    else
      var len := MipSize(desc, i);
      if len.Some? && offset + len.value > |mipData| then None else len
  }

  /** The chunks from `i` on. */
  function ChunksFrom(desc: TextureDesc, mipData: Blob, offset: nat, i: nat, count: nat): Option<seq<Blob>>
    requires i <= count && offset <= |mipData|
    decreases count - i
  {
    if i == count then Some([])
    else
      var len := ChunkLen(desc, mipData, offset, i, count);
      if len.None? then None
      else
        var rest := ChunksFrom(desc, mipData, offset + len.value, i + 1, count);
        if rest.None? then None else Some([mipData[offset..offset + len.value]] + rest.value)
  }

  function ChunksOf(desc: TextureDesc, mipData: Blob): Option<seq<Blob>> {
    ChunkCountLaw(desc);
    ChunksFrom(desc, mipData, 0, 0, ChunkCount(desc))
  }

  ghost function Concat(pieces: seq<Blob>): Blob {
    if |pieces| == 0 then [] else pieces[0] + Concat(pieces[1..])
  }

  lemma {:induction false} ChunksFromLaw(desc: TextureDesc, mipData: Blob, offset: nat, i: nat, count: nat)
    requires i < count && offset <= |mipData| && ChunksFrom(desc, mipData, offset, i, count).Some?
    ensures var chunks := ChunksFrom(desc, mipData, offset, i, count).value;
      && |chunks| == count - i && Concat(chunks) == mipData[offset..]
      && forall j | 0 <= j < |chunks| - 1 :: MipSize(desc, i + j) == Some(|chunks[j]|)
    decreases count - i
  {
    hide MipSize;
    var chunks := ChunksFrom(desc, mipData, offset, i, count).value;
    var len := ChunkLen(desc, mipData, offset, i, count).value;
    if i == count - 1 {
      assert Concat(chunks[1..]) == [];
      assert mipData[offset..offset + len] == mipData[offset..];
    } else {
      ChunksFromLaw(desc, mipData, offset + len, i + 1, count);
      var rest := ChunksFrom(desc, mipData, offset + len, i + 1, count).value;
      assert chunks[1..] == rest;
      assert mipData[offset..] == mipData[offset..offset + len] + mipData[offset + len..];
      forall j | 0 <= j < |chunks| - 1 ensures MipSize(desc, i + j) == Some(|chunks[j]|) {
        if j > 0 {
          assert chunks[j] == rest[j - 1];
          assert MipSize(desc, i + 1 + (j - 1)) == Some(|rest[j - 1]|);
        }
      }
    }
  }

  /** The chunks are the mips, in order and complete; every one but the last is exactly
      one mip, of an area that deserves its own chunk. */
  lemma ChunksTileTheMips(desc: TextureDesc, mipData: Blob)
    requires ChunksOf(desc, mipData).Some?
    ensures var chunks := ChunksOf(desc, mipData).value;
      && |chunks| == ChunkCount(desc) && Concat(chunks) == mipData
      && forall j | 0 <= j < |chunks| - 1 ::
           MipSize(desc, j) == Some(|chunks[j]|) && Halved(desc.width, j) * Halved(desc.height, j) >= CHUNK_AREA
  {
    hide MipSize, ChunksFrom;
    ChunkCountLaw(desc);
    ChunksFromLaw(desc, mipData, 0, 0, ChunkCount(desc));
    assert mipData[0..] == mipData;
    var chunks := ChunksOf(desc, mipData).value;
    forall j | 0 <= j < |chunks| - 1
      ensures MipSize(desc, j) == Some(|chunks[j]|) && Halved(desc.width, j) * Halved(desc.height, j) >= CHUNK_AREA
    {
      assert MipSize(desc, 0 + j) == Some(|chunks[j]|);
      LargeMip(desc, j);
    }
  }

  lemma LargeMip(desc: TextureDesc, j: nat)
    requires Shr(desc.width, j) * Shr(desc.height, j) >= CHUNK_AREA
    ensures Halved(desc.width, j) * Halved(desc.height, j) >= CHUNK_AREA
  {
    hide Shr;
    Factors(Shr(desc.width, j), Shr(desc.height, j));
  }

  lemma Factors(a: nat, b: nat)
    requires a * b > 0
    ensures a != 0 && b != 0
  {}

  function MipFirst(i: nat): nat {
    i
  }

  function MipLast(desc: TextureDesc, i: nat): nat {
    if i + 1 == ChunkCount(desc) then (if desc.mipCount == 0 then 0 else desc.mipCount - 1) else i
  }

  /** The mip ranges of the chunks tile the levels from zero to the last. */
  lemma MipRangesTile(desc: TextureDesc, i: nat)
    requires desc.mipCount > 0 && i < ChunkCount(desc)
    ensures MipFirst(0) == 0 && MipFirst(i) <= MipLast(desc, i)
    ensures if i + 1 < ChunkCount(desc) then MipLast(desc, i) + 1 == MipFirst(i + 1) else MipLast(desc, i) == desc.mipCount - 1
  {
    hide CountFrom;
    ChunkCountLaw(desc);
  }

  lemma MipRangeFits(desc: TextureDesc, i: nat)
    requires FitsDesc(desc) && i < ChunkCount(desc)
    ensures MipFirst(i) < U16 && MipLast(desc, i) < U16 && ChunkCount(desc) < 256
  {
    hide CountFrom;
    ChunkCountLaw(desc);
  }

  /** Pieces no longer than the originals that join to the same whole are the originals. */
  lemma {:induction false} SameWhole(xs: seq<Blob>, cs: seq<Blob>)
    requires |xs| == |cs| && forall i | 0 <= i < |xs| :: |xs[i]| <= |cs[i]|
    ensures |Concat(xs)| <= |Concat(cs)|
    ensures Concat(xs) == Concat(cs) ==> xs == cs
  {
    if |xs| > 0 {
      SameWhole(xs[1..], cs[1..]);
      if Concat(xs) == Concat(cs) {
        assert |xs[0]| == |cs[0]|;
        assert xs[0] == Concat(xs)[..|xs[0]|] && cs[0] == Concat(cs)[..|cs[0]|];
        assert Concat(xs[1..]) == Concat(xs)[|xs[0]|..] && Concat(cs[1..]) == Concat(cs)[|cs[0]|..];
        assert xs == [xs[0]] + xs[1..] && cs == [cs[0]] + cs[1..];
      }
    }
  }
}
