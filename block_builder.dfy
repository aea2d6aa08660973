/**
 * The block builder: an accumulator that appends serialised entries to
 * `data` and their start positions to `offsets` while the block stays
 * within its size budget, and finally hands both buffers to a `Block`.
 */
module BlockBuilding {
  import opened Bytes
  import opened Blocks

  /** One (key, value) pair offered to the builder. */
  datatype Entry = Entry(key: seq<u8>, value: seq<u8>)

  /** The bytes `add` appends for one entry; the lengths are cast `as u8`. */
  function Serialised(key: seq<u8>, value: seq<u8>): seq<u8>
  {
    [TruncU8(|key|)] + key + [TruncU8(|value|)] + value
  }

  /** The data of a block holding `entries`, in order. */
  function SerialisedAll(entries: seq<Entry>): seq<u8>
  {
    if entries == [] then []
    else SerialisedAll(entries[..|entries| - 1]) + Serialised(entries[|entries| - 1].key, entries[|entries| - 1].value)
  }

  /**
   * The size `add` budgets for a block that would hold `count` entries
   * taking `dataLen` bytes plus one more entry of `keyLen + valueLen` bytes.
   * It is two bytes more than the encoded size of that block.
   */
  function EstimatedSize(count: nat, dataLen: nat, keyLen: nat, valueLen: nat): nat
  {
    MEMORY_SIZE + count * MEMORY_SIZE + dataLen + keyLen + valueLen + MEMORY_SIZE * 3
  }

  /** The estimate is the encoded size of the block with the entry appended, plus two bytes. */
  lemma EstimateOverEncodedSize(data: seq<u8>, offsets: seq<u16>, key: seq<u8>, value: seq<u8>, start: u16)
    ensures EstimatedSize(|offsets|, |data|, |key|, |value|) ==
            |Encoded(Block(data + Serialised(key, value), offsets + [start]))| + 2
  {
  }

  /** Appending one entry whose lengths fit in a byte keeps a block tiled. */
  lemma AppendKeepsTiled(data: seq<u8>, offsets: seq<u16>, key: seq<u8>, value: seq<u8>)
    requires Tiled(data, offsets)
    requires |key| <= 0xFF && |value| <= 0xFF && |data| < 0x1_0000
    ensures Tiled(data + Serialised(key, value), offsets + [TruncU16(|data|)])
  {
    var data' := data + Serialised(key, value);
    var offsets' := offsets + [TruncU16(|data|)];
    var n := |offsets|;
    assert data'[..|data|] == data;
    forall i | 0 <= i < n
      ensures EntryTiles(data', offsets', i)
    {
      assert EntryTiles(data, offsets, i);
      EntryInPrefix(data, data', offsets[i] as int);
    }
    var o := |data|;
    assert data'[o] as int == |key|;
    assert data'[o + |key| + 1] as int == |value|;
    assert EntryTiles(data', offsets', n);
  }

  class BlockBuilder {
    /** Start of each entry in `data`. */
    var offsets: seq<u16>
    /** All serialised entries. */
    var data: seq<u8>
    /** The expected block size. */
    var blockSize: nat
    /** The key most recently passed to `Add`. */
    var firstKey: seq<u8>

    /**
     * Every entry takes at least three bytes, so there is data exactly when
     * there are offsets; once a second entry is in, the encoded block is at
     * least two bytes under the budget.
     */
    ghost predicate Valid()
      reads this
    {
      (offsets == [] <==> data == []) &&
      (|offsets| >= 2 ==> |data| + 2 * |offsets| + 2 + 2 <= blockSize)
    }

    constructor (blockSize: nat)
      ensures Valid() && IsEmpty()
      ensures offsets == [] && data == [] && firstKey == []
      ensures this.blockSize == blockSize
      ensures Tiled(data, offsets)
    {
      offsets := [];
      data := [];
      this.blockSize := blockSize;
      firstKey := [];
    }

    /** No entry has been added. */
    predicate IsEmpty()
      reads this
      requires Valid()
      ensures IsEmpty() <==> data == []
    {
      offsets == []
    }

    /**
     * Adds `key`/`value` when the block has room for it, or when the block is
     * empty; answers whether it did. `firstKey` takes `key` in either case.
     */
    method Add(key: seq<u8>, value: seq<u8>) returns (ok: bool)
      requires Valid()
      requires key != []
      modifies this
      ensures Valid()
      ensures blockSize == old(blockSize) && firstKey == key
      ensures ok <==> old(offsets) == [] ||
                      EstimatedSize(old(|offsets|), old(|data|), |key|, |value|) <= blockSize
      ensures ok ==> offsets == old(offsets) + [TruncU16(old(|data|))]
      ensures ok ==> data == old(data) + Serialised(key, value)
      ensures !ok ==> offsets == old(offsets) && data == old(data)
      ensures old(Tiled(data, offsets)) && |key| <= 0xFF && |value| <= 0xFF && old(|data|) < 0x1_0000 ==>
                Tiled(data, offsets)
    {
      firstKey := key;

      var keyLen := |key|;
      var valueLen := |value|;

      var estimatedSize := MEMORY_SIZE + |offsets| * MEMORY_SIZE + |data|;
      var hasEnoughSpace := estimatedSize + keyLen + valueLen + MEMORY_SIZE * 3 <= blockSize;

      if !hasEnoughSpace && !IsEmpty() {
        return false;
      }

      ghost var oldData, oldOffsets := data, offsets;
      offsets := offsets + [TruncU16(|data|)];

      data := data + [TruncU8(keyLen)];
      data := data + key;
      data := data + [TruncU8(valueLen)];
      data := data + value;

      assert data == oldData + Serialised(key, value);
      if Tiled(oldData, oldOffsets) && keyLen <= 0xFF && valueLen <= 0xFF && |oldData| < 0x1_0000 {
        AppendKeepsTiled(oldData, oldOffsets, key, value);
      }
      return true;
    }

    /**
     * Hands the buffers to a block. With two or more entries its encoding
     * stays two bytes under the budget; when the entries tile the data it
     * decodes back to itself.
     */
    method Build() returns (b: Block)
      requires Valid() && !IsEmpty()
      ensures b.data == data && b.offsets == offsets
      ensures |offsets| >= 2 ==> |Encoded(b)| + 2 <= blockSize
      ensures Tiled(data, offsets) ==> DecodeSafe(Encoded(b)) && Decoded(Encoded(b)) == b
    {
      b := Block(data, offsets);
      if Tiled(data, offsets) {
        RoundTrip(b);
      }
    }
  }

  /**
   * Feeds `entries` to a fresh builder until one is refused or none is left,
   * builds the block, encodes it and decodes the bytes again. With key and
   * value lengths that fit in a byte and a budget no larger than the u16
   * offset space, the decoded block is the built one.
   */
  method BuildBlock(blockSize: nat, entries: seq<Entry>) returns (built: Block, bytes: seq<u8>, decoded: Block)
    requires entries != [] && blockSize <= 0x1_0000
    requires forall e :: e in entries ==> 0 < |e.key| <= 0xFF && |e.value| <= 0xFF
    ensures 1 <= |built.offsets| <= |entries|
    ensures built.data == SerialisedAll(entries[..|built.offsets|])
    ensures bytes == Encoded(built) && decoded == built
    ensures |built.offsets| < |entries| ==>
              var next := entries[|built.offsets|];
              EstimatedSize(|built.offsets|, |built.data|, |next.key|, |next.value|) > blockSize
  {
    var builder := new BlockBuilder(blockSize);
    var added := 0;
    var full := false;
    while added < |entries| && !full
      invariant added <= |entries| && (full ==> added > 0)
      invariant builder.Valid() && Tiled(builder.data, builder.offsets)
      invariant |builder.offsets| == added && |builder.data| < 0x1_0000
      invariant builder.blockSize == blockSize
      invariant builder.data == SerialisedAll(entries[..added])
      invariant full ==> added < |entries| &&
                         EstimatedSize(added, |builder.data|, |entries[added].key|, |entries[added].value|) > blockSize
      decreases |entries| - added, !full
    {
      var entry := entries[added];
      assert entry in entries;
      var ok := builder.Add(entry.key, entry.value);
      if ok {
        assert entries[..added + 1][..added] == entries[..added];
        added := added + 1;
      } else {
        full := true;
      }
    }
    built := builder.Build();
    bytes := Encode(built);
    decoded := Decode(bytes);
  }
}
