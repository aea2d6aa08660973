/**
 * The block: packed entries followed by a table of u16 offsets and a u16
 * entry count, all little-endian.
 *
 *   entry_0 | ... | entry_{n-1} | offset_0 | ... | offset_{n-1} | n
 *   entry   = key_len (u8) | key | value_len (u8) | value
 *
 * `Encoded` and `Decoded` are the specification functions; the methods
 * `Encode` and `Decode` follow the loops of the Rust code and are proved
 * equal to them. `RoundTrip` is the left-inverse property for every block
 * whose entries tile its data.
 */
module Blocks {
  import opened Bytes

  /** Width in bytes of one offset and of the trailing count (`size_of::<u16>()`). */
  const MEMORY_SIZE: nat := 2

  datatype Block = Block(data: seq<u8>, offsets: seq<u16>)

  // ---------------------------------------------------------------- encoding

  /** The offset table: every offset as two little-endian bytes, in order. */
  function OffsetBytes(offsets: seq<u16>): (r: seq<u8>)
    ensures |r| == 2 * |offsets|
  {
    if offsets == [] then []
    else OffsetBytes(offsets[..|offsets| - 1]) + LE16(offsets[|offsets| - 1])
  }

  /** Offset `i` sits at bytes `2i` and `2i + 1` of the table. */
  lemma {:induction false} OffsetBytesAt(offsets: seq<u16>, i: nat)
    requires i < |offsets|
    ensures ReadU16(OffsetBytes(offsets), 2 * i) == offsets[i]
  {
    var last := |offsets| - 1;
    var front := offsets[..last];
    assert OffsetBytes(offsets) == OffsetBytes(front) + LE16(offsets[last]);
    if i < last {
      OffsetBytesAt(front, i);
    }
  }

  /** The byte layout `Block::encode` produces. The count is cast `as u16`. */
  function Encoded(b: Block): (r: seq<u8>)
    ensures |r| == |b.data| + 2 * |b.offsets| + 2
    ensures r[..|b.data|] == b.data
  {
    b.data + OffsetBytes(b.offsets) + LE16(TruncU16(|b.offsets|))
  }

  /** A u16 inside the middle part of `a + t + c` reads as it does in `t`. */
  lemma ReadU16Middle(a: seq<u8>, t: seq<u8>, c: seq<u8>, p: nat)
    requires p + 1 < |t|
    ensures ReadU16(a + t + c, |a| + p) == ReadU16(t, p)
  {
    var s := a + t + c;
    assert s[|a| + p] == t[p];
    assert s[|a| + p + 1] == t[p + 1];
  }

  /** Offset `i` is written little-endian at byte `|data| + 2i`. */
  lemma EncodedOffsetAt(b: Block, i: nat)
    requires i < |b.offsets|
    ensures ReadU16(Encoded(b), |b.data| + 2 * i) == b.offsets[i]
  {
    OffsetBytesAt(b.offsets, i);
    ReadU16Middle(b.data, OffsetBytes(b.offsets), LE16(TruncU16(|b.offsets|)), 2 * i);
  }

  /** The last two bytes hold the entry count, truncated to 16 bits. */
  lemma EncodedCount(b: Block)
    ensures ReadU16(Encoded(b), |Encoded(b)| - 2) as int == |b.offsets| % 0x1_0000
  {
    var s := Encoded(b);
    var trailer := LE16(TruncU16(|b.offsets|));
    assert s[|s| - 2] == trailer[0] && s[|s| - 1] == trailer[1];
  }

  /** `Block::encode`: copy the data, append each offset, append the count. */
  method Encode(b: Block) returns (bytes: seq<u8>)
    ensures bytes == Encoded(b)
  {
    var numOfElements := |b.offsets|;
    bytes := b.data;
    for i := 0 to |b.offsets|
      invariant bytes == b.data + OffsetBytes(b.offsets[..i])
    {
      assert b.offsets[..i + 1][..i] == b.offsets[..i];
      bytes := bytes + LE16(b.offsets[i]);
    }
    assert b.offsets[..|b.offsets|] == b.offsets;
    bytes := bytes + LE16(TruncU16(numOfElements));
  }

  // ----------------------------------------------------------------- entries

  /** End of the entry at `o`: past its key_len byte, key, value_len byte and value. */
  function EntryEnd(s: seq<u8>, o: int): int
    requires 0 <= o < |s| && o + s[o] as int + 1 < |s|
  {
    o + s[o] as int + s[o + s[o] as int + 1] as int + 2
  }

  /** Reading the entry at `o` (both length bytes and the whole slice) stays inside `s`. */
  predicate EntryInBounds(s: seq<u8>, o: int)
  {
    0 <= o < |s| && o + s[o] as int + 1 < |s| && EntryEnd(s, o) <= |s|
  }

  /** An entry that lies inside a prefix of `s` reads the same in `s`. */
  lemma EntryInPrefix(data: seq<u8>, s: seq<u8>, o: int)
    requires EntryInBounds(data, o)
    requires |data| <= |s| && s[..|data|] == data
    ensures EntryInBounds(s, o) && EntryEnd(s, o) == EntryEnd(data, o)
    ensures s[o..EntryEnd(s, o)] == data[o..EntryEnd(data, o)]
  {
    assert s[o] == data[o];
    assert s[o + s[o] as int + 1] == data[o + data[o] as int + 1];
    var e := EntryEnd(data, o);
    assert s[o..e] == s[..|data|][o..e];
  }

  /** Every entry named in `offsets` can be read inside `s`. */
  predicate AllInBounds(s: seq<u8>, offsets: seq<u16>)
  {
    forall i :: 0 <= i < |offsets| ==> EntryInBounds(s, offsets[i] as int)
  }

  /** The bytes of the entries at `offsets`, copied one after the other. */
  function CopyEntries(s: seq<u8>, offsets: seq<u16>): (r: seq<u8>)
    requires AllInBounds(s, offsets)
    ensures |r| >= 2 * |offsets|
  {
    if offsets == [] then []
    else
      var o := offsets[|offsets| - 1] as int;
      CopyEntries(s, offsets[..|offsets| - 1]) + s[o..EntryEnd(s, o)]
  }

  // ---------------------------------------------------------------- decoding

  /** The entry count read from the last two bytes. */
  function Count(s: seq<u8>): nat
    requires |s| >= 2
  {
    ReadU16(s, |s| - 2) as int
  }

  /**
   * The offset table read back: offset `i` is the little-endian u16 at
   * byte `|s| - 2 - 2n + 2i`, which is where `Encoded` writes it.
   */
  function OffsetTable(s: seq<u8>): (r: seq<u16>)
    requires |s| >= 2 && 2 * Count(s) + 2 <= |s|
    ensures |r| == Count(s)
  {
    var n := Count(s);
    seq(n, i requires 0 <= i < n => ReadU16(s, |s| - 2 - 2 * n + 2 * i))
  }

  /**
   * What `Block::decode` needs in order not to panic in a build with overflow
   * checks on: at least three bytes (`len - 3` must not underflow), room for the offset table below that
   * point, and every entry named by the table readable inside the input.
   */
  predicate DecodeSafe(s: seq<u8>)
  {
    |s| >= 3 && 2 * Count(s) <= |s| - 3 && AllInBounds(s, OffsetTable(s))
  }

  /** The block `Block::decode` returns. */
  function Decoded(s: seq<u8>): Block
    requires DecodeSafe(s)
  {
    var offsets := OffsetTable(s);
    Block(CopyEntries(s, offsets), offsets)
  }

  /**
   * The encoding of the empty block is two bytes, on which `len - 3`
   * underflows: with overflow checks on, `decode` panics on it.
   */
  lemma EmptyBlockNotDecodable()
    ensures !DecodeSafe(Encoded(Block([], [])))
  {
    assert |Encoded(Block([], []))| == 2;
  }

  /**
   * Corrupt input that stays in bounds is decoded without complaint: these
   * seven bytes are the encoding of `Block([0, 0, 0], [0])`, whose single
   * entry does not span its data, and they decode to another block.
   */
  lemma CorruptInputDecodesQuietly()
    ensures !Tiled([0, 0, 0], [0]) && Encoded(Block([0, 0, 0], [0])) == [0, 0, 0, 0, 0, 1, 0]
    ensures DecodeSafe([0, 0, 0, 0, 0, 1, 0]) && Decoded([0, 0, 0, 0, 0, 1, 0]) == Block([0, 0], [0])
  {
    CorruptEncoding();
    CorruptDecoding();
  }

  /** `[0, 0, 0, 0, 0, 1, 0]` is the encoding of an untiled block. */
  lemma CorruptEncoding()
    ensures !Tiled([0, 0, 0], [0]) && Encoded(Block([0, 0, 0], [0])) == [0, 0, 0, 0, 0, 1, 0]
  {
    assert !EntryTiles([0, 0, 0], [0], 0);
    assert OffsetBytes([0]) == [0, 0] by {
      assert OffsetBytes([0]) == OffsetBytes([]) + LE16(0);
    }
    assert LE16(TruncU16(1)) == [1, 0];
  }

  /** `[0, 0, 0, 0, 0, 1, 0]` decodes, without a panic, to `Block([0, 0], [0])`. */
  lemma CorruptDecoding()
    ensures DecodeSafe([0, 0, 0, 0, 0, 1, 0]) && Decoded([0, 0, 0, 0, 0, 1, 0]) == Block([0, 0], [0])
  {
    var s: seq<u8> := [0, 0, 0, 0, 0, 1, 0];
    assert ReadU16(s, 5) == 1;
    assert Count(s) == 1;
    assert ReadU16(s, 3) == 0;
    var t := OffsetTable(s);
    assert t[0] == 0;
    assert t == [0];
    assert EntryEnd(s, 0) == 2;
    assert CopyEntries(s, [0]) == CopyEntries(s, []) + s[0..2];
  }

  /**
   * `Block::decode`. The code places the offset table at `len - 3 - 2n` and
   * reads offset `i` at `+1` and `+2` past `2i`; the loop invariant shows that
   * this is the table of `OffsetTable`.
   */
  method Decode(data: seq<u8>) returns (b: Block)
    requires DecodeSafe(data)
    ensures b == Decoded(data)
  {
    var numOfElements := FromLE16(data[|data| - 2], data[|data| - 1]) as int;
    var offsetEnd := |data| - 3;
    var offsetStart := offsetEnd - numOfElements * MEMORY_SIZE;

    var offsets: seq<u16> := [];
    for i := 0 to numOfElements
      invariant offsets == OffsetTable(data)[..i]
    {
      var offset := FromLE16(data[offsetStart + i * MEMORY_SIZE + 1],
                             data[offsetStart + i * MEMORY_SIZE + 2]);
      offsets := offsets + [offset];
    }
    assert offsets == OffsetTable(data);

    var d: seq<u8> := [];
    for i := 0 to |offsets|
      invariant d == CopyEntries(data, offsets[..i])
    {
      var offset := offsets[i] as int;
      var keyLen := data[offset] as int;
      var valueLen := data[offset + keyLen + 1] as int;
      assert offsets[..i + 1][..i] == offsets[..i];
      d := d + data[offset..offset + keyLen + valueLen + 2];
    }
    assert offsets[..|offsets|] == offsets;
    b := Block(d, offsets);
  }

  // ----------------------------------------------------------------- tiling

  /** Where entry `i` must end: at the next offset, or at the end of the data. */
  function EntryLimit(data: seq<u8>, offsets: seq<u16>, i: nat): int
    requires i < |offsets|
  {
    if i + 1 < |offsets| then offsets[i + 1] as int else |data|
  }

  /** Entry `i` starts at `offsets[i]` and its length bytes span exactly to `EntryLimit`. */
  predicate EntryTiles(data: seq<u8>, offsets: seq<u16>, i: nat)
    requires i < |offsets|
  {
    EntryInBounds(data, offsets[i] as int) && EntryEnd(data, offsets[i] as int) == EntryLimit(data, offsets, i)
  }

  /**
   * The invariant the builder keeps: the first offset is 0 and every entry's
   * length bytes span exactly to the next offset or to the end of the data;
   * no offsets means no data.
   */
  predicate Tiled(data: seq<u8>, offsets: seq<u16>)
  {
    (offsets == [] ==> data == []) &&
    (offsets != [] ==> offsets[0] == 0) &&
    forall i :: 0 <= i < |offsets| ==> EntryTiles(data, offsets, i)
  }

  /** In a tiled block, offset `i` is at least `2i`: every entry takes two length bytes. */
  lemma {:induction false} TiledOffsetLowerBound(data: seq<u8>, offsets: seq<u16>, i: nat)
    requires Tiled(data, offsets) && i < |offsets|
    ensures offsets[i] as int >= 2 * i
  {
    if i > 0 {
      TiledOffsetLowerBound(data, offsets, i - 1);
      assert EntryTiles(data, offsets, i - 1);
    }
  }

  /** In a tiled block the offsets strictly increase. */
  lemma {:induction false} TiledIncreasing(data: seq<u8>, offsets: seq<u16>, i: nat, j: nat)
    requires Tiled(data, offsets) && i < j < |offsets|
    ensures offsets[i] < offsets[j]
    decreases j - i
  {
    assert EntryTiles(data, offsets, i);
    if i + 1 < j {
      TiledIncreasing(data, offsets, i + 1, j);
    }
  }

  /** A tiled block has at most 32768 entries, so its count survives the `as u16` cast. */
  lemma TiledCountFits(data: seq<u8>, offsets: seq<u16>)
    requires Tiled(data, offsets)
    ensures |offsets| <= 0x8000
  {
    if offsets != [] {
      TiledOffsetLowerBound(data, offsets, |offsets| - 1);
    }
  }

  /**
   * Copying the first `k` entries of a tiled block out of any extension of
   * its data gives back the data up to where entry `k` starts.
   */
  lemma {:induction false} CopyTiledPrefix(data: seq<u8>, offsets: seq<u16>, s: seq<u8>, k: nat)
    requires Tiled(data, offsets) && k <= |offsets|
    requires |data| <= |s| && s[..|data|] == data
    ensures AllInBounds(s, offsets[..k])
    ensures k < |offsets| ==> offsets[k] as int < |data|
    ensures CopyEntries(s, offsets[..k]) == data[..if k < |offsets| then offsets[k] as int else |data|]
  {
    if k < |offsets| {
      assert EntryTiles(data, offsets, k);
    }
    if k > 0 {
      CopyTiledPrefix(data, offsets, s, k - 1);
      var o := offsets[k - 1] as int;
      assert EntryTiles(data, offsets, k - 1);
      EntryInPrefix(data, s, o);
      var e := EntryLimit(data, offsets, k - 1);
      assert offsets[..k][..k - 1] == offsets[..k - 1];
      assert data[..o] + data[o..e] == data[..e];
    } else if offsets != [] {
      assert offsets[0] == 0;
    }
  }

  /**
   * Decoding the encoding of a non-empty tiled block gives the block back,
   * and `decode` does not panic on it.
   */
  lemma RoundTrip(b: Block)
    requires Tiled(b.data, b.offsets) && b.offsets != []
    ensures DecodeSafe(Encoded(b)) && Decoded(Encoded(b)) == b
  {
    var s := Encoded(b);
    var n := |b.offsets|;
    TiledCountFits(b.data, b.offsets);
    EncodedCount(b);
    assert Count(s) == n;
    assert EntryTiles(b.data, b.offsets, 0);
    var table := OffsetTable(s);
    forall i | 0 <= i < n
      ensures table[i] == b.offsets[i]
    {
      EncodedOffsetAt(b, i);
    }
    assert table == b.offsets;
    CopyTiledPrefix(b.data, b.offsets, s, n);
    assert b.offsets[..n] == b.offsets;
  }
}
