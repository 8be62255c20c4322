# Player dressup save data, modelled in Dafny

A model of `plaza/types/playerdata.py` from plza-save-utils. The file decodes and encodes a
player's cosmetic state: which item hash is equipped in each dressup slot, and which style
variant each style category uses. It also holds a one-slot copy buffer that backs a
"randomize and optionally keep" workflow.

- `little_endian.dfy` (`LittleEndian`): bytes, unsigned little-endian values, and both round trips.
- `struct_codec.dfy` (`StructCodec`): what the code uses from Python's `struct` module, written by
  hand. `<Q` is an unsigned 64-bit field and `<i` a two's-complement signed 32-bit field. The
  module also has Python's clamping slice and the decode and `data +=` encode loops over
  consecutive fields.
- `categories.dfy` (`Categories`): `DressupCategory` (14 members) and `StyleCategory` (19 members).
  Each ends in a `Max` sentinel. The module also holds the two display-name tables, with 13 and
  18 entries.
- `records.dfy` (`Records`): the classes `SaveData` and `CopyDressUpSaveData`. Each storage list
  is an `array`. The module also has functions that give each record's decode and encode as
  values, and lemmas about them.
- `accessor.dfy` (`Accessor`): the class `PlayerSaveDataAccessor` and its abstract value
  `AccessorState`. Each operation is a function on that value. Each method is proved to move
  the object's `State()` by that function, and the copy-buffer properties are lemmas about those
  functions.

The model follows the code as written. In four places the code does something other than what
its own constants, comments and docstrings state:

- `SaveData.SIZE` is 176 (plaza/types/playerdata.py:59), and the comments at :62 and :65 count
  13 labels of 8 bytes and 18 styles of 4 bytes. But `to_bytes` packs every storage slot,
  sentinel slots included, so it always emits 14·8 + 19·4 = 188 bytes. `from_bytes` therefore
  never accepts what `to_bytes` writes (`Records.SaveDataToBytesNotReadable`). A 176-byte
  buffer comes back with eight zero bytes inserted at offset 104 and four zero bytes appended
  (`Records.SaveDataReencode`); it is not returned unchanged.
- `CopyDressUpSaveData.SIZE` is 104 (:136), and the comments at :139 and :150 say 13 categories.
  But the loop at :151 unpacks `len(DressupCategory)` = 14 fields. The fourteenth slice,
  `data[104:112]`, is empty, so `struct.unpack` raises, and the method never returns a record
  (`Records.CopyDressUpFromBytes`). The accessor's `from_bytes` therefore fails for every
  non-empty copy buffer, whatever its length.
- The getters and setters bound the index by `len(list)` (:107, :113, :118, :124), which is 14
  or 19, not the 13 and 18 categories the comments count. So the `Max` sentinel slot can be
  read and written. A non-zero sentinel is then encoded by `to_bytes` and counts for `is_empty`.
- The docstrings of `set_store_current_dressup_info` (:211) and `is_stored_dressup_info` (:223)
  speak of storing and of there being stored info, but the test is "buffer not all zero" (:224,
  :178). Storing an all-zero selection therefore leaves `is_stored_dressup_info` false
  (`Accessor.StoredIffSomeLabel`).

Errors are values. `DecodeError.SizeMismatch(record, expected, actual)` stands for the
`ValueError` a `from_bytes` raises, and `DecodeError.UnpackError(StructError(8))` stands for the
`struct.error` raised by unpacking a short slice.

## Model

| member | source | states |
|---|---|---|
| `LittleEndian.FromLe` | plaza/types/playerdata.py:80 | the little-endian value of n bytes is below 256^n |
| `LittleEndian.ToLe` | plaza/types/playerdata.py:97 | the n-byte little-endian encoding has exactly n bytes |
| `LittleEndian.FromLeToLe` | plaza/types/playerdata.py:97 | reading an encoding gives back the encoded value |
| `LittleEndian.ToLeFromLe` | plaza/types/playerdata.py:80 | re-encoding a read value at the same width gives back the bytes |
| `StructCodec.PySlice` | plaza/types/playerdata.py:78-80 | Python slice length with both bounds clamped to the buffer; the ordinary slice when in range |
| `StructCodec.UnpackQ` | plaza/types/playerdata.py:80 | `<Q` unpack succeeds exactly on 8-byte input and otherwise raises struct.error for size 8 |
| `StructCodec.PackQ` | plaza/types/playerdata.py:97 | `<Q` pack of a u64 gives 8 bytes that unpack to the same value |
| `StructCodec.PackQUnpackQ` | plaza/types/playerdata.py:80 | packing the unpacked value of any 8 bytes gives back those bytes |
| `StructCodec.Signed32` | plaza/types/playerdata.py:87 | two's-complement reading: negative exactly when the top bit is set, and congruent to the pattern mod 2^32 |
| `StructCodec.UnpackI` | plaza/types/playerdata.py:87 | `<i` unpack succeeds exactly on 4-byte input and otherwise raises struct.error for size 4 |
| `StructCodec.PackI` | plaza/types/playerdata.py:101 | `<i` pack of an i32 gives 4 bytes that unpack to the same value |
| `StructCodec.PackIUnpackI` | plaza/types/playerdata.py:87 | packing the unpacked value of any 4 bytes gives back those bytes |
| `StructCodec.UnpackISign` | plaza/types/playerdata.py:87 | a decoded `<i` is negative exactly when the last byte is at least 0x80 |
| `StructCodec.DecodeU64Fields` | plaza/types/playerdata.py:77-80 | decoding n consecutive `<Q` fields yields n values on success |
| `StructCodec.EncodeU64Fields` | plaza/types/playerdata.py:93-97 | appending n packed `<Q` fields gives 8n bytes |
| `StructCodec.DecodeU64FieldsSucceeds` | plaza/types/playerdata.py:77-80 | the fields decode exactly when they all lie inside the buffer; otherwise struct.error for size 8 |
| `StructCodec.DecodeU64FieldsAt` | plaza/types/playerdata.py:77-80 | decoded field k is the little-endian value of bytes off+8k .. off+8k+8 |
| `StructCodec.EncodeU64FieldsAt` | plaza/types/playerdata.py:96-97 | encoded field k occupies bytes 8k .. 8k+8 and is the packed value k |
| `StructCodec.EncodeDecodeU64Fields` | plaza/types/playerdata.py:77-97 | re-encoding decoded `<Q` fields gives back the bytes they came from |
| `StructCodec.DecodeEncodeU64Fields` | plaza/types/playerdata.py:77-97 | decoding an encoding of `<Q` fields gives back the values |
| `StructCodec.DecodeI32Fields` | plaza/types/playerdata.py:84-87 | decoding n consecutive `<i` fields yields n values on success |
| `StructCodec.EncodeI32Fields` | plaza/types/playerdata.py:100-101 | appending n packed `<i` fields gives 4n bytes |
| `StructCodec.DecodeI32FieldsSucceeds` | plaza/types/playerdata.py:84-87 | the fields decode exactly when they all lie inside the buffer; otherwise struct.error for size 4 |
| `StructCodec.DecodeI32FieldsAt` | plaza/types/playerdata.py:84-87 | decoded field k is the `<i` value of bytes off+4k .. off+4k+4 |
| `StructCodec.EncodeI32FieldsAt` | plaza/types/playerdata.py:100-101 | encoded field k occupies bytes 4k .. 4k+4 and is the packed value k |
| `StructCodec.EncodeDecodeI32Fields` | plaza/types/playerdata.py:84-101 | re-encoding decoded `<i` fields gives back the bytes they came from |
| `StructCodec.DecodeEncodeI32Fields` | plaza/types/playerdata.py:84-101 | decoding an encoding of `<i` fields gives back the values |
| `Categories.DressupCategory.Ordinal` | plaza/types/playerdata.py:5-19 | every value is below `len(DressupCategory)` = 14, and only `Max` has value 13 |
| `Categories.DressupFromOrdinal` | plaza/types/playerdata.py:5-19 | a member exists exactly for values 0..13 and has that value |
| `Categories.DressupOrdinalRoundTrip` | plaza/types/playerdata.py:5-19 | looking a member up by its value gives back the member |
| `Categories.DressupNamesCoverAddressable` | plaza/types/playerdata.py:45-48 | the dressup name table has 13 distinct entries, one per category before `Max` |
| `Categories.StyleCategory.Ordinal` | plaza/types/playerdata.py:22-41 | every value is below `len(StyleCategory)` = 19, and only `Max` has value 18 |
| `Categories.StyleFromOrdinal` | plaza/types/playerdata.py:22-41 | a member exists exactly for values 0..18 and has that value |
| `Categories.StyleOrdinalRoundTrip` | plaza/types/playerdata.py:22-41 | looking a member up by its value gives back the member |
| `Categories.StyleNamesCoverAddressable` | plaza/types/playerdata.py:50-55 | the style name table has 18 distinct entries, one per category before `Max` |
| `Records.Update` | plaza/types/playerdata.py:111-114 | the setters' policy keeps the length and changes exactly slot i when 0 <= i < len, and no slot otherwise |
| `Records.AllZero` | plaza/types/playerdata.py:178 | the `all(label == 0 ...)` scan is true exactly when every element is 0 |
| `Records.SaveDataFromBytes` | plaza/types/playerdata.py:68-89 | a decoded record came from 176 bytes, has 14 labels and 19 styles, and has both sentinel slots 0 |
| `Records.SaveDataToBytes` | plaza/types/playerdata.py:91-103 | the encoding has 8 bytes per label slot and 4 per style slot, sentinels included |
| `Records.SaveDataSizeCheck` | plaza/types/playerdata.py:71-72 | `from_bytes` succeeds exactly on 176 bytes and otherwise raises the size error naming 176 and the actual length |
| `Records.SaveDataLayout` | plaza/types/playerdata.py:74-89 | labels 0..12 are the u64 of bytes 8i..8i+8, styles 0..17 the signed i32 of bytes 104+4i..104+4i+4, both sentinel slots 0, lists of 14 and 19 |
| `Records.SaveDataToBytesLength` | plaza/types/playerdata.py:91-103 | encoding any well-formed record gives 188 bytes, not 176 |
| `Records.SaveDataReencode` | plaza/types/playerdata.py:91-103 | `to_bytes(from_bytes(d)) == d[0:104] + 8 zero bytes + d[104:176] + 4 zero bytes` |
| `Records.SaveDataToBytesNotReadable` | plaza/types/playerdata.py:71-72 | `from_bytes` rejects every `to_bytes` output with the size error (176 expected, 188 given) |
| `Records.CopyDressUpFromBytes` | plaza/types/playerdata.py:142-156 | the copy buffer never decodes: ValueError for a length other than 104, struct.error for size 8 for 104 bytes |
| `Records.CopyDressUpToBytesLength` | plaza/types/playerdata.py:158-163 | the copy buffer always encodes to 112 bytes, not 104 |
| `Records.SaveData.constructor` | plaza/types/playerdata.py:61-66 | fresh record: 14 zero labels and 19 zero styles in new arrays |
| `Records.SaveData.FromBytes` | plaza/types/playerdata.py:68-89 | the two fill loops produce exactly the decoded record, or the size error, as a fresh object with fresh arrays |
| `Records.SaveData.ParseDressupLabels` | plaza/types/playerdata.py:76-80 | the label array becomes the 13 decoded `<Q` fields of bytes 0..104 followed by its untouched sentinel slot |
| `Records.SaveData.ParseStyleData` | plaza/types/playerdata.py:82-87 | the style array becomes the 18 decoded `<i` fields of bytes 104..176 followed by its untouched sentinel slot |
| `Records.SaveData.ToBytes` | plaza/types/playerdata.py:91-103 | the `data +=` loops produce the encoding of all 14 labels followed by all 19 styles |
| `Records.SaveData.GetDressupHash` | plaza/types/playerdata.py:105-109 | slot i for 0 <= i < 14 (sentinel included), 0 otherwise |
| `Records.SaveData.SetDressupHash` | plaza/types/playerdata.py:111-114 | the labels become the old labels with slot i replaced when in range, unchanged otherwise |
| `Records.SaveData.GetStyleIndex` | plaza/types/playerdata.py:116-120 | slot i for 0 <= i < 19 (sentinel included), 0 otherwise |
| `Records.SaveData.SetStyleIndex` | plaza/types/playerdata.py:122-125 | the styles become the old styles with slot i replaced when in range, unchanged otherwise |
| `Records.CopyDressUpSaveData.constructor` | plaza/types/playerdata.py:138-140 | fresh buffer of 14 zero labels |
| `Records.CopyDressUpSaveData.FromBytes` | plaza/types/playerdata.py:142-156 | always fails, with the value-level decode's error: the 14-step fill loop never completes on a 104-byte buffer |
| `Records.CopyDressUpSaveData.ToBytes` | plaza/types/playerdata.py:158-163 | the `data +=` loop produces the encoding of all 14 labels |
| `Records.CopyDressUpSaveData.GetDressupHash` | plaza/types/playerdata.py:165-169 | slot i for 0 <= i < 14 (sentinel included), 0 otherwise |
| `Records.CopyDressUpSaveData.SetDressupHash` | plaza/types/playerdata.py:171-174 | the labels become the old labels with slot i replaced when in range, unchanged otherwise |
| `Records.CopyDressUpSaveData.IsEmpty` | plaza/types/playerdata.py:176-178 | true exactly when all 14 slots are 0 |
| `Accessor.InitialState` | plaza/types/playerdata.py:187-189 | a new accessor has lists of 14, 19 and 14 slots |
| `Accessor.InitialIsEmpty` | plaza/types/playerdata.py:187-189 | a new accessor has no stored dressup info |
| `Accessor.WithDressupHash` | plaza/types/playerdata.py:193-195 | only live label slot i changes, to the new hash, under the `0 <= i < len` policy; styles and buffer are kept |
| `Accessor.WithStyleIndex` | plaza/types/playerdata.py:201-203 | only style slot i changes, to the new index, under the `0 <= i < len` policy; labels and buffer are kept |
| `Accessor.StoreCurrent` | plaza/types/playerdata.py:210-214 | afterwards the buffer agrees with the live labels, and the live labels and styles are kept |
| `Accessor.ApplyStored` | plaza/types/playerdata.py:216-220 | afterwards the live labels agree with the buffer, and the buffer and styles are kept |
| `Accessor.HasStored` | plaza/types/playerdata.py:222-224 | true exactly when some buffer slot, the sentinel included, is non-zero |
| `Accessor.ClearStored` | plaza/types/playerdata.py:226-228 | the buffer becomes 14 zero slots, and the live labels and styles are kept |
| `Accessor.AccessorFromBytes` | plaza/types/playerdata.py:242-249 | on success the player record is the `SaveData` decode and the buffer is all zero; the copy argument is decoded only when truthy (:245) |
| `Accessor.AccessorToBytes` | plaza/types/playerdata.py:251-257 | the player bytes have 8 bytes per label and 4 per style, and the copy bytes decode back to the stored labels |
| `Accessor.StoreCopiesLabels` | plaza/types/playerdata.py:210-214 | store copies all 14 live labels into the buffer and leaves the player record unchanged |
| `Accessor.StoreIsIdempotent` | plaza/types/playerdata.py:210-214 | storing twice is the same as storing once |
| `Accessor.StoredIffSomeLabel` | plaza/types/playerdata.py:222-224 | after a store, there is stored info exactly when some live label is non-zero |
| `Accessor.StoreIsNotAliased` | plaza/types/playerdata.py:210-214 | a live write after a store leaves the buffer as it was stored |
| `Accessor.ApplyCopiesBuffer` | plaza/types/playerdata.py:216-220 | apply copies all 14 buffer labels over the live ones; styles, buffer and has-stored unchanged |
| `Accessor.StoreThenApplyKeepsRecord` | plaza/types/playerdata.py:210-220 | store immediately followed by apply leaves the player record unchanged |
| `Accessor.StoreOverwriteApplyRestores` | plaza/types/playerdata.py:210-220 | store, any live write, apply: the live labels are the ones stored |
| `Accessor.HeadRestoredAfterApply` | plaza/types/playerdata.py:216-220 | a stored Head hash 0xAABBCCDD survives zeroing Head and is restored by apply |
| `Accessor.ClearEmptiesBuffer` | plaza/types/playerdata.py:226-228 | after clear there is no stored info and the player record is unchanged |
| `Accessor.StoreThenClear` | plaza/types/playerdata.py:210-228 | store then clear: no stored info, player record as before |
| `Accessor.AccessorFromBytesOutcome` | plaza/types/playerdata.py:231-249 | succeeds exactly for 176 player bytes with the copy buffer absent or empty, leaving it all-zero; a non-empty copy buffer always fails |
| `Accessor.AccessorToBytesLengths` | plaza/types/playerdata.py:251-257 | the two encoded buffers always have 188 and 112 bytes |
| `Accessor.AccessorBytesNotReadable` | plaza/types/playerdata.py:231-257 | `from_bytes` fails on what `to_bytes` returns, with or without the copy buffer |
| `Accessor.PlayerSaveDataAccessor.constructor` | plaza/types/playerdata.py:187-189 | fresh accessor, all-zero state, two distinct fresh records |
| `Accessor.PlayerSaveDataAccessor.SetDressupHash` | plaza/types/playerdata.py:193-195 | the state moves by the record setter's bounds policy on the live labels only |
| `Accessor.PlayerSaveDataAccessor.GetDressupHash` | plaza/types/playerdata.py:197-199 | live label i for 0 <= i < 14, 0 otherwise |
| `Accessor.PlayerSaveDataAccessor.SetStyleIndex` | plaza/types/playerdata.py:201-203 | the state moves by the record setter's bounds policy on the styles only |
| `Accessor.PlayerSaveDataAccessor.GetStyleIndex` | plaza/types/playerdata.py:205-207 | style i for 0 <= i < 19, 0 otherwise |
| `Accessor.PlayerSaveDataAccessor.SetStoreCurrentDressupInfo` | plaza/types/playerdata.py:210-214 | the copy loop leaves the state as `StoreCurrent` of the old state |
| `Accessor.PlayerSaveDataAccessor.ApplyStoredDressupInfo` | plaza/types/playerdata.py:216-220 | the copy loop leaves the state as `ApplyStored` of the old state |
| `Accessor.PlayerSaveDataAccessor.IsStoredDressupInfo` | plaza/types/playerdata.py:222-224 | true exactly when some buffer slot is non-zero |
| `Accessor.PlayerSaveDataAccessor.ClearStoredDressupInfo` | plaza/types/playerdata.py:226-228 | a fresh all-zero buffer replaces the old one; the player record object and contents are kept |
| `Accessor.PlayerSaveDataAccessor.FromBytes` | plaza/types/playerdata.py:231-249 | produces a fresh accessor, with fresh records and arrays inside, whose state is the value-level decode, or that decode's error |
| `Accessor.PlayerSaveDataAccessor.ToBytes` | plaza/types/playerdata.py:251-257 | returns both records' encodings of the current state |
| `Accessor.StoreOverwriteApply` | plaza/types/playerdata.py:210-220 | on the class: store, overwrite a slot, apply ends with the original labels and styles and a buffer that is non-empty iff a label was |

## Left out

- The `__str__` methods of all three classes (plaza/types/playerdata.py:127-132, 180-183, 259-260) only format diagnostic text.
- The `rotom_data` and `style_data` parameters of `PlayerSaveDataAccessor.from_bytes` are ignored by the code and are not parameters of the model.
- `struct.pack` raises for a label outside the u64 range or a style outside the i32 range. The model types the setters' values and the storage arrays as `U64` and `I32`, so those values cannot occur, and that exception is not modelled.
- Accessor.PlayerSaveDataAccessor.FromBytes: has no statement for the assignment of the decoded copy record at plaza/types/playerdata.py:246. `CopyDressUpSaveData.from_bytes` never returns a record, so that assignment is unreachable.
- Python's dynamic typing: the setters and `from_bytes` accept any object; the model takes integer indices and byte sequences.
- In `SaveData.from_bytes` every slice lies inside the 176-byte buffer, so that loop's unpack cannot fail. The model reads the unpacked value directly there and has no error path for it.
- `DressupCategory(n)` and `StyleCategory(n)` raise ValueError for an unknown value; the model returns `None`.
- plaza/util/pokemon.py loads a JSON lookup table at import time. That is file I/O over data that is not available, so it is not part of this model.
- plaza/types/__init__.py only re-exports names, several of them from modules that are not part of this model.
