# mini-LSM block layer in Dafny

A model of the block layer of the mini-LSM storage engine: the `Block`
with its `encode`/`decode` pair (`mini-lsm-starter/src/block.rs`) and the
`BlockBuilder` that packs entries into a block under a size budget
(`mini-lsm-starter/src/block/builder.rs`).

A block is `data` followed by a table of little-endian `u16` offsets and a
little-endian `u16` entry count. Each entry in `data` is
`key_len (u8) | key | value_len (u8) | value`.

- `bytes.dfy` (module `Bytes`): `u8`/`u16` newtypes, the truncating
  `as u8` / `as u16` casts, and the little-endian `u16` layout
  (`put_u16_le`, `u16::from_le_bytes`).
- `block.dfy` (module `Blocks`): the `Block` datatype, and the
  specification functions `Encoded` and `Decoded`. The methods `Encode` and
  `Decode` follow the Rust loops and are proved equal to those functions.
  The file also holds the tiling invariant `Tiled` and the round-trip
  theorem `RoundTrip`.
- `block_builder.dfy` (module `BlockBuilding`): the class `BlockBuilder`.
  Its fields `offsets`, `data`, `blockSize` and `firstKey` are updated in
  place by `Add`. The file also holds `BuildBlock`, which takes a sequence of
  entries through the builder, `Build`, `Encode` and `Decode`, and proves
  that the decoded block is the built one.

A `Block` is never mutated, so it is a datatype. Byte buffers (`Vec<u8>`,
`BytesMut`, `Bytes`) are `seq<u8>`. Keys are non-empty `seq<u8>`:
`raw_ref()` is the identity and `len()` is `|key|`. Rust panics become
`requires` clauses:
- `decode` needs at least three bytes, because `len - 3` must not underflow.
- It needs room for the offset table below that point.
- Every entry it reads must lie inside the input. The `DecodeSafe` predicate
  states all three.
- `add` needs a non-empty key.
- `build` needs at least one entry.

Facts about the code that the model keeps as they are:
- **Decode indexing.** `decode` sets `offset_end = len - 3` and reads
  offset `i` at `offset_start + 2i + 1` and `+ 2`
  (`mini-lsm-starter/src/block.rs:57-64`). That looks shifted by one byte,
  but it lands exactly on `len - 2 - 2n + 2i`, where `encode` wrote offset
  `i`. `Decode` is proved against a specification that reads from that
  position.
- **`first_key`.** The field comment calls it the first key in the block
  (`mini-lsm-starter/src/block/builder.rs:30`). But `add` assigns it on every
  call, before the size check (`builder.rs:50`). So it holds the key most
  recently passed to `add`, even a rejected one. `Add`'s contract says
  exactly that.
- **Lengths.** `add` writes the key length, the value length and the offset
  with `as u8` / `as u16` (`builder.rs:63-67`). Nothing checks them, so an
  over-long key or value, or data of 65536 bytes or more, wraps silently.
  The model writes the wrap-around out (`TruncU8`, `TruncU16`).
- **Corrupt input.** `decode` has no error path. On corrupt input it either
  panics on an out-of-bounds read or underflow, which the model turns into
  the precondition `DecodeSafe`, or it decodes quietly to some other block.
  `CorruptInputDecodesQuietly` shows a 7-byte input of the second kind.
- **Entry slices.** `decode` slices each entry out of the whole input, the
  trailer included, not only out of the data region. The model does the
  same.

## Model

| member | source | states |
|---|---|---|
| `Bytes.TruncU8` | mini-lsm-starter/src/block/builder.rs:65 | `len as u8` keeps a length below 256 unchanged |
| `Bytes.TruncU16` | mini-lsm-starter/src/block.rs:44 | `n as u16` keeps a count below 65536 unchanged |
| `Bytes.LE16` | mini-lsm-starter/src/block.rs:41 | `put_u16_le` writes two bytes that `u16::from_le_bytes` reads back as the same value |
| `Blocks.OffsetBytes` | mini-lsm-starter/src/block.rs:40-42 | the offset table takes exactly two bytes per offset |
| `Blocks.OffsetBytesAt` | mini-lsm-starter/src/block.rs:40-42 | offset `i` is stored little-endian at bytes `2i`, `2i+1` of the table |
| `Blocks.Encoded` | mini-lsm-starter/src/block.rs:34-47 | the encoding has length `len(data) + 2·len(offsets) + 2`, and its first `len(data)` bytes are `data` |
| `Blocks.EncodedOffsetAt` | mini-lsm-starter/src/block.rs:38-42 | the little-endian u16 at byte `len(data) + 2i` of the encoding is `offsets[i]` |
| `Blocks.EncodedCount` | mini-lsm-starter/src/block.rs:35-44 | the last two bytes read back as the number of offsets modulo 65536 |
| `Blocks.Encode` | mini-lsm-starter/src/block.rs:34-47 | the loop that appends each offset and then the count produces exactly `Encoded(b)` |
| `Blocks.CopyEntries` | mini-lsm-starter/src/block.rs:68-74 | the rebuilt data holds at least the two length bytes of every copied entry |
| `Blocks.OffsetTable` | mini-lsm-starter/src/block.rs:51-66 | the table read back has exactly `n` offsets, with `n` the trailing count |
| `Blocks.EmptyBlockNotDecodable` | mini-lsm-starter/src/block.rs:57 | the 2-byte encoding of the empty block violates decode's precondition, because `len - 3` underflows (a panic with overflow checks on) |
| `Blocks.CorruptInputDecodesQuietly` | mini-lsm-starter/src/block.rs:68-76 | `[0,0,0,0,0,1,0]`, the encoding of the untiled `Block([0,0,0],[0])`, meets decode's precondition and decodes to the different block `Block([0,0],[0])` |
| `Blocks.Decode` | mini-lsm-starter/src/block.rs:50-77 | on input that does not make it panic, the two loops produce `Decoded(data)`. Offset `i` comes from bytes `len-2-2n+2i` and `len-1-2n+2i`, and the data is the in-order concatenation of the entry slices `o .. o + key_len + value_len + 2` |
| `Blocks.TiledOffsetLowerBound` | mini-lsm-starter/src/block/builder.rs:63-68 | in a tiled block, offset `i` is at least `2i` |
| `Blocks.TiledIncreasing` | mini-lsm-starter/src/block/builder.rs:63-68 | in a tiled block, offsets strictly increase |
| `Blocks.TiledCountFits` | mini-lsm-starter/src/block.rs:44 | a tiled block has at most 32768 entries, so `as u16` keeps its count |
| `Blocks.CopyTiledPrefix` | mini-lsm-starter/src/block.rs:68-74 | copying the first `k` entries of a tiled block gives back `data` up to the start of entry `k`, and every read stays in bounds |
| `Blocks.RoundTrip` | mini-lsm-starter/src/block.rs:34-77 | for a non-empty block whose first offset is 0 and whose entries tile `data`, `decode` does not panic on `encode(b)` and returns `b` |
| `BlockBuilding.EstimateOverEncodedSize` | mini-lsm-starter/src/block/builder.rs:55-57 | the size `add` checks against the budget is the encoded size of the block with the new entry, plus two |
| `BlockBuilding.AppendKeepsTiled` | mini-lsm-starter/src/block/builder.rs:63-68 | appending the new offset `len(data)` and the serialised entry keeps a block tiled, when key and value lengths are at most 255 and `len(data) < 65536` |
| `BlockBuilding.BlockBuilder.constructor` | mini-lsm-starter/src/block/builder.rs:36-43 | a new builder has no offsets, no data and an empty key, holds the given budget, and is empty |
| `BlockBuilding.BlockBuilder.IsEmpty` | mini-lsm-starter/src/block/builder.rs:74-76 | the builder has no offsets exactly when it has no data |
| `BlockBuilding.BlockBuilder.Add` | mini-lsm-starter/src/block/builder.rs:47-71 | `Add` returns true iff the builder is empty or `2 + 2·len(offsets) + len(data) + key_len + value_len + 6 <= block_size`. On true it appends the old `len(data)` (as u16) to `offsets` and `[key_len as u8] + key + [value_len as u8] + value` to `data`. On false `offsets` and `data` are unchanged. In both cases `first_key` becomes the key. The budget invariant is kept, and so is the tiling, given the no-truncation conditions |
| `BlockBuilding.BlockBuilder.Build` | mini-lsm-starter/src/block/builder.rs:79-88 | a non-empty builder yields a block with its `data` and `offsets`. With two or more entries, the encoding is at most `block_size - 2` bytes. When tiled, the block survives an encode/decode round trip |
| `BlockBuilding.BuildBlock` | mini-lsm-starter/src/block/builder.rs:45-88 | take entries (key/value lengths 1..255 / 0..255, budget at most 65536) through `add` until one is refused, then `build`, `encode` and `decode`. The block holds the serialised first entries (at least one). When it stopped early, the next entry failed the size check. Decoding the block's encoding returns the block |

## Left out

- The block iterator (`mod iterator`, `BlockIterator`): its source is not part of this model, so seeking and stepping are not modelled.
- The key types `KeySlice`/`KeyVec` are not part of this model; a key is a `seq<u8>` and its length is `|key|`.
- `Vec::with_capacity` hints in `decode` have no observable effect and are not modelled. The subtraction in the second hint (`len - 2n`) cannot underflow once the precondition holds.
- Panics are preconditions, not an error result: the code has no error path to model.
- Integer underflow in `decode` (`len - 3` and `offset_end - 2n`, `mini-lsm-starter/src/block.rs:57-58`) is modelled as a panic, as in a build with overflow checks on. A release build wraps instead. The wrapped read positions still land on `len - 2 - 2n + 2i`, so such a build also accepts inputs of exactly `2n + 2` bytes, including the two-byte encoding of the empty block. `DecodeSafe` rejects those inputs.
- `BlockBuilding.BuildBlock`: asks for a budget of at most 65536 so that every accepted `add` starts below offset 65536. The general condition is only that `len(data) < 65536` at each accepted `add`. Under it, the round trip follows from the contracts of the constructor, `Add` (tiling kept) and `Build` (round trip when tiled), without the budget bound.
- `usize` arithmetic in `add`'s size check is unbounded here; overflowing it would need a `block_size` near `usize::MAX`.
- Ownership (`build(self)` consuming the builder) is not modelled: the Dafny builder can still be used after `Build`.
- `BlockBuilding.BlockBuilder.Add`: states that the tiling is kept only under the no-truncation conditions (key and value lengths at most 255, `|data|` below 65536). Otherwise the `as u8` / `as u16` casts wrap. The wrapped values are in the contract, but nothing is claimed about decoding such a block.
