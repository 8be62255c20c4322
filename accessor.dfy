/**
 * `PlayerSaveDataAccessor`: one `SaveData` and one `CopyDressUpSaveData`, with field access
 * delegated to the first and a store / apply / has / clear protocol on the second.
 * `AccessorState` is the accessor's abstract value; each operation is specified as a function
 * on it, and the properties of the copy buffer are lemmas about those functions.
 */
module Accessor {
  import opened Wrappers
  import opened LittleEndian
  import opened StructCodec
  import opened Categories
  import opened Records

  /** The three storage lists an accessor owns: live labels, live styles, stored labels. */
  datatype AccessorState = AccessorState(dressupLabels: seq<U64>, styleData: seq<I32>, storedLabels: seq<U64>)

  /** The two buffers `to_bytes` returns, keyed `player_data` and `copy_dressup_data`. */
  datatype AccessorBytes = AccessorBytes(playerData: seq<Byte>, copyDressupData: seq<Byte>)

  predicate WellFormed(s: AccessorState)
  {
    |s.dressupLabels| == DRESSUP_CATEGORY_LEN && |s.styleData| == STYLE_CATEGORY_LEN
    && |s.storedLabels| == DRESSUP_CATEGORY_LEN
  }

  /** A freshly constructed accessor: everything zero. */
  function InitialState(): (s: AccessorState)
    ensures WellFormed(s)
  {
    AccessorState(U64Zeros(DRESSUP_CATEGORY_LEN), I32Zeros(STYLE_CATEGORY_LEN), U64Zeros(DRESSUP_CATEGORY_LEN))
  }

  /** `set_dressup_hash`: live label slot `categoryIndex` alone, under the bounds policy. */
  function WithDressupHash(s: AccessorState, categoryIndex: int, hashValue: U64): (r: AccessorState)
    ensures r.styleData == s.styleData && r.storedLabels == s.storedLabels
    ensures |r.dressupLabels| == |s.dressupLabels|
    ensures forall k :: 0 <= k < |s.dressupLabels| ==>
      r.dressupLabels[k] == if k == categoryIndex then hashValue else s.dressupLabels[k]
  {
    s.(dressupLabels := Update(s.dressupLabels, categoryIndex, hashValue))
  }

  /** `set_style_index`: live style slot `categoryIndex` alone, under the bounds policy. */
  function WithStyleIndex(s: AccessorState, categoryIndex: int, styleIndex: I32): (r: AccessorState)
    ensures r.dressupLabels == s.dressupLabels && r.storedLabels == s.storedLabels
    ensures |r.styleData| == |s.styleData|
    ensures forall k :: 0 <= k < |s.styleData| ==>
      r.styleData[k] == if k == categoryIndex then styleIndex else s.styleData[k]
  {
    s.(styleData := Update(s.styleData, categoryIndex, styleIndex))
  }

  /** `set_store_current_dressup_info`: the live labels are copied into the buffer. */
  function StoreCurrent(s: AccessorState): (r: AccessorState)
    ensures r.dressupLabels == s.dressupLabels && r.styleData == s.styleData
    ensures r.storedLabels == r.dressupLabels
  {
    s.(storedLabels := s.dressupLabels)
  }

  /** `apply_stored_dressup_info`: the buffer is copied back over the live labels. */
  function ApplyStored(s: AccessorState): (r: AccessorState)
    ensures r.storedLabels == s.storedLabels && r.styleData == s.styleData
    ensures r.dressupLabels == r.storedLabels
  {
    s.(dressupLabels := s.storedLabels)
  }

  /** `clear_stored_dressup_info`: the buffer is replaced by a fresh, all-zero one. */
  function ClearStored(s: AccessorState): (r: AccessorState)
    ensures r.dressupLabels == s.dressupLabels && r.styleData == s.styleData
    ensures |r.storedLabels| == DRESSUP_CATEGORY_LEN && forall k :: 0 <= k < DRESSUP_CATEGORY_LEN ==> r.storedLabels[k] == 0
  {
    s.(storedLabels := U64Zeros(DRESSUP_CATEGORY_LEN))
  }

  /** `is_stored_dressup_info`: some buffer slot, the sentinel included, is non-zero. */
  function HasStored(s: AccessorState): (b: bool)
    ensures b <==> exists k :: 0 <= k < |s.storedLabels| && s.storedLabels[k] != 0
  {
    !AllZero(s.storedLabels)
  }

  /**
   * `PlayerSaveDataAccessor.from_bytes`: the player record is decoded; the copy buffer is
   * decoded only when its argument is present and non-empty (Python truthiness).
   */
  function AccessorFromBytes(playerData: seq<Byte>, copyData: Option<seq<Byte>>): (r: Result<AccessorState, DecodeError>)
    ensures r.Success? ==> SaveDataFromBytes(playerData).Success? && WellFormed(r.value)
    ensures r.Success? ==>
      SaveDataValue(r.value.dressupLabels, r.value.styleData) == SaveDataFromBytes(playerData).value
      && r.value.storedLabels == U64Zeros(DRESSUP_CATEGORY_LEN)
  {
    match SaveDataFromBytes(playerData)
    case Failure(e) => Failure(e)
    case Success(v) =>
      if copyData.Some? && |copyData.value| > 0 then
        match CopyDressUpFromBytes(copyData.value)
        case Failure(e) => Failure(e)
        case Success(stored) => Success(AccessorState(v.dressupLabels, v.styleData, stored))
      else Success(AccessorState(v.dressupLabels, v.styleData, U64Zeros(DRESSUP_CATEGORY_LEN)))
  }

  /** `PlayerSaveDataAccessor.to_bytes`: both records encoded independently. */
  function AccessorToBytes(s: AccessorState): (r: AccessorBytes)
    ensures |r.playerData| == 8 * |s.dressupLabels| + 4 * |s.styleData|
    ensures DecodeU64Fields(r.copyDressupData, 0, |s.storedLabels|) == Success(s.storedLabels)
  {
    DecodeEncodeU64Fields(s.storedLabels);
    AccessorBytes(SaveDataToBytes(SaveDataValue(s.dressupLabels, s.styleData)), EncodeU64Fields(s.storedLabels))
  }

  // ---------------------------------------------------------------- copy-buffer lemmas

  /** A new accessor has no stored dressup info. */
  lemma InitialIsEmpty()
    ensures !HasStored(InitialState())
  {
  }

  /** Storing copies every live label and touches nothing else. */
  lemma StoreCopiesLabels(s: AccessorState)
    requires WellFormed(s)
    ensures WellFormed(StoreCurrent(s))
    ensures forall k :: 0 <= k < DRESSUP_CATEGORY_LEN ==> StoreCurrent(s).storedLabels[k] == s.dressupLabels[k]
    ensures StoreCurrent(s).dressupLabels == s.dressupLabels && StoreCurrent(s).styleData == s.styleData
  {
  }

  lemma StoreIsIdempotent(s: AccessorState)
    ensures StoreCurrent(StoreCurrent(s)) == StoreCurrent(s)
  {
  }

  /** After a store there is stored info exactly when some live label, the sentinel included, is non-zero. */
  lemma StoredIffSomeLabel(s: AccessorState)
    requires WellFormed(s)
    ensures HasStored(StoreCurrent(s)) <==> exists k :: 0 <= k < DRESSUP_CATEGORY_LEN && s.dressupLabels[k] != 0
  {
  }

  /** The buffer is a copy, not an alias: later live writes leave it as it was stored. */
  lemma StoreIsNotAliased(s: AccessorState, categoryIndex: int, hashValue: U64)
    ensures WithDressupHash(StoreCurrent(s), categoryIndex, hashValue).storedLabels == s.dressupLabels
  {
  }

  /** Applying overwrites only the live labels, with the buffer's contents. */
  lemma ApplyCopiesBuffer(s: AccessorState)
    requires WellFormed(s)
    ensures WellFormed(ApplyStored(s))
    ensures forall k :: 0 <= k < DRESSUP_CATEGORY_LEN ==> ApplyStored(s).dressupLabels[k] == s.storedLabels[k]
    ensures ApplyStored(s).styleData == s.styleData && ApplyStored(s).storedLabels == s.storedLabels
    ensures HasStored(ApplyStored(s)) == HasStored(s)
  {
  }

  /** Store immediately followed by apply leaves the player record as it was. */
  lemma StoreThenApplyKeepsRecord(s: AccessorState)
    ensures ApplyStored(StoreCurrent(s)).dressupLabels == s.dressupLabels
    ensures ApplyStored(StoreCurrent(s)).styleData == s.styleData
  {
  }

  /** Store, overwrite one live slot, apply: every live label is back to its stored value. */
  lemma StoreOverwriteApplyRestores(s: AccessorState, categoryIndex: int, hashValue: U64)
    ensures ApplyStored(WithDressupHash(StoreCurrent(s), categoryIndex, hashValue)).dressupLabels == s.dressupLabels
  {
  }

  /** The Head scenario: 0xAABBCCDD stored, Head zeroed, apply restores 0xAABBCCDD. */
  lemma HeadRestoredAfterApply(s: AccessorState)
    requires WellFormed(s) && s.dressupLabels[Head.Ordinal()] == 0xAABB_CCDD
    ensures ApplyStored(WithDressupHash(StoreCurrent(s), Head.Ordinal(), 0)).dressupLabels[Head.Ordinal()] == 0xAABB_CCDD
  {
    StoreOverwriteApplyRestores(s, Head.Ordinal(), 0);
  }

  /** Clearing empties the buffer and leaves the player record untouched. */
  lemma ClearEmptiesBuffer(s: AccessorState)
    requires WellFormed(s)
    ensures WellFormed(ClearStored(s)) && !HasStored(ClearStored(s))
    ensures ClearStored(s).dressupLabels == s.dressupLabels && ClearStored(s).styleData == s.styleData
  {
  }

  /** Storing then clearing gives no stored info and the player record as before. */
  lemma StoreThenClear(s: AccessorState)
    requires WellFormed(s)
    ensures !HasStored(ClearStored(StoreCurrent(s)))
    ensures ClearStored(StoreCurrent(s)).dressupLabels == s.dressupLabels
    ensures ClearStored(StoreCurrent(s)).styleData == s.styleData
  {
    ClearEmptiesBuffer(StoreCurrent(s));
  }

  // ---------------------------------------------------------------- decode / encode lemmas

  /**
   * `from_bytes` succeeds exactly when the player buffer has 176 bytes and the copy buffer is
   * absent or empty; the buffer is then left all-zero. A non-empty copy buffer always fails.
   */
  lemma AccessorFromBytesOutcome(playerData: seq<Byte>, copyData: Option<seq<Byte>>)
    ensures AccessorFromBytes(playerData, copyData).Success? <==>
      |playerData| == SAVE_DATA_SIZE && (copyData.None? || copyData.value == [])
    ensures |playerData| != SAVE_DATA_SIZE ==>
      AccessorFromBytes(playerData, copyData) == Failure(SizeMismatch("SaveData", SAVE_DATA_SIZE, |playerData|))
    ensures |playerData| == SAVE_DATA_SIZE && copyData.Some? && copyData.value != [] ==>
      AccessorFromBytes(playerData, copyData) == Failure(CopyDressUpFromBytes(copyData.value).error)
    ensures AccessorFromBytes(playerData, copyData).Success? ==>
      var s := AccessorFromBytes(playerData, copyData).value;
      WellFormed(s) && s.storedLabels == U64Zeros(DRESSUP_CATEGORY_LEN) && !HasStored(s)
      && SaveDataValue(s.dressupLabels, s.styleData) == SaveDataFromBytes(playerData).value
  {
    SaveDataSizeCheck(playerData);
    if |playerData| == SAVE_DATA_SIZE {
      SaveDataLayout(playerData);
    }
  }

  /** The two encoded buffers always have 188 and 112 bytes. */
  lemma AccessorToBytesLengths(s: AccessorState)
    requires WellFormed(s)
    ensures |AccessorToBytes(s).playerData| == 188 && |AccessorToBytes(s).copyDressupData| == 112
  {
    SaveDataToBytesLength(SaveDataValue(s.dressupLabels, s.styleData));
    CopyDressUpToBytesLength(s.storedLabels);
  }

  /** Nothing `to_bytes` writes can be read back by `from_bytes`. */
  lemma AccessorBytesNotReadable(s: AccessorState)
    requires WellFormed(s)
    ensures AccessorFromBytes(AccessorToBytes(s).playerData, None).Failure?
    ensures AccessorFromBytes(AccessorToBytes(s).playerData, Some(AccessorToBytes(s).copyDressupData)).Failure?
  {
    AccessorToBytesLengths(s);
    SaveDataSizeCheck(AccessorToBytes(s).playerData);
  }

  // ---------------------------------------------------------------- the class

  class PlayerSaveDataAccessor {
    var saveData: SaveData
    var copyDressupData: CopyDressUpSaveData

    ghost predicate Valid()
      reads this, saveData, copyDressupData
    {
      saveData.Valid() && copyDressupData.Valid() && saveData.dressupLabels != copyDressupData.dressupLabels
    }

    ghost function State(): (s: AccessorState)
      reads this, saveData, copyDressupData
      reads saveData.dressupLabels, saveData.styleData, copyDressupData.dressupLabels
      requires Valid()
      ensures WellFormed(s)
    {
      AccessorState(saveData.dressupLabels[..], saveData.styleData[..], copyDressupData.dressupLabels[..])
    }

    constructor ()
      ensures Valid() && State() == InitialState()
      ensures fresh(saveData) && fresh(saveData.dressupLabels) && fresh(saveData.styleData)
      ensures fresh(copyDressupData) && fresh(copyDressupData.dressupLabels)
    {
      saveData := new SaveData();
      copyDressupData := new CopyDressUpSaveData();
    }

    method SetDressupHash(categoryIndex: int, hashValue: U64)
      requires Valid()
      modifies saveData.dressupLabels
      ensures Valid() && State() == WithDressupHash(old(State()), categoryIndex, hashValue)
    {
      saveData.SetDressupHash(categoryIndex, hashValue);
    }

    function GetDressupHash(categoryIndex: int): (h: U64)
      reads this, saveData, copyDressupData, saveData.dressupLabels
      requires Valid()
      ensures 0 <= categoryIndex < DRESSUP_CATEGORY_LEN ==> h == saveData.dressupLabels[categoryIndex]
      ensures !(0 <= categoryIndex < DRESSUP_CATEGORY_LEN) ==> h == 0
    {
      saveData.GetDressupHash(categoryIndex)
    }

    method SetStyleIndex(categoryIndex: int, styleIndex: I32)
      requires Valid()
      modifies saveData.styleData
      ensures Valid() && State() == WithStyleIndex(old(State()), categoryIndex, styleIndex)
    {
      saveData.SetStyleIndex(categoryIndex, styleIndex);
    }

    function GetStyleIndex(categoryIndex: int): (s: I32)
      reads this, saveData, copyDressupData, saveData.styleData
      requires Valid()
      ensures 0 <= categoryIndex < STYLE_CATEGORY_LEN ==> s == saveData.styleData[categoryIndex]
      ensures !(0 <= categoryIndex < STYLE_CATEGORY_LEN) ==> s == 0
    {
      saveData.GetStyleIndex(categoryIndex)
    }

    method SetStoreCurrentDressupInfo()
      requires Valid()
      modifies copyDressupData.dressupLabels
      ensures Valid() && State() == StoreCurrent(old(State()))
    {
      for i := 0 to DRESSUP_CATEGORY_LEN
        invariant copyDressupData.dressupLabels[..i] == saveData.dressupLabels[..i]
      {
        copyDressupData.dressupLabels[i] := saveData.dressupLabels[i];
      }
      assert copyDressupData.dressupLabels[..] == copyDressupData.dressupLabels[..DRESSUP_CATEGORY_LEN];
    }

    method ApplyStoredDressupInfo()
      requires Valid()
      modifies saveData.dressupLabels
      ensures Valid() && State() == ApplyStored(old(State()))
    {
      for i := 0 to DRESSUP_CATEGORY_LEN
        invariant saveData.dressupLabels[..i] == copyDressupData.dressupLabels[..i]
      {
        saveData.dressupLabels[i] := copyDressupData.dressupLabels[i];
      }
      assert saveData.dressupLabels[..] == saveData.dressupLabels[..DRESSUP_CATEGORY_LEN];
    }

    /** True exactly when some slot of the buffer, the sentinel included, is non-zero. */
    function IsStoredDressupInfo(): (b: bool)
      reads this, saveData, copyDressupData, copyDressupData.dressupLabels
      requires Valid()
      ensures b <==> exists k :: 0 <= k < DRESSUP_CATEGORY_LEN && copyDressupData.dressupLabels[k] != 0
    {
      !copyDressupData.IsEmpty()
    }

    method ClearStoredDressupInfo()
      requires Valid()
      modifies this
      ensures Valid() && State() == ClearStored(old(State()))
      ensures saveData == old(saveData) && fresh(copyDressupData) && fresh(copyDressupData.dressupLabels)
    {
      copyDressupData := new CopyDressUpSaveData();
    }

    static method FromBytes(playerData: seq<Byte>, copyData: Option<seq<Byte>>) returns (r: Result<PlayerSaveDataAccessor, DecodeError>)
      ensures r.Failure? <==> AccessorFromBytes(playerData, copyData).Failure?
      ensures r.Failure? ==> r.error == AccessorFromBytes(playerData, copyData).error
      ensures r.Success? ==> fresh(r.value) && r.value.Valid()
      ensures r.Success? ==> fresh(r.value.saveData) && fresh(r.value.saveData.dressupLabels) && fresh(r.value.saveData.styleData)
      ensures r.Success? ==> fresh(r.value.copyDressupData) && fresh(r.value.copyDressupData.dressupLabels)
      ensures r.Success? ==> r.value.State() == AccessorFromBytes(playerData, copyData).value
    {
      var accessor := new PlayerSaveDataAccessor();
      var saved := SaveData.FromBytes(playerData);
      if saved.Failure? {
        return Failure(saved.error);
      }
      accessor.saveData := saved.value;
      if copyData.Some? && |copyData.value| > 0 {
        // `CopyDressUpSaveData.from_bytes` never returns a record, so the source's assignment
        // of its result to `copy_dressup_data` is never reached.
        var copied := CopyDressUpSaveData.FromBytes(copyData.value);
        return Failure(copied.error);
      }
      assert accessor.State() == AccessorFromBytes(playerData, copyData).value;
      return Success(accessor);
    }

    method ToBytes() returns (out: AccessorBytes)
      requires Valid()
      ensures out == AccessorToBytes(State())
    {
      var playerBytes := saveData.ToBytes();
      var copyBytes := copyDressupData.ToBytes();
      out := AccessorBytes(playerBytes, copyBytes);
    }
  }

  /**
   * A caller's randomize-and-revert sequence on the class: snapshot, overwrite one slot,
   * restore. The live labels end as they began and the styles are untouched.
   */
  method StoreOverwriteApply(accessor: PlayerSaveDataAccessor, categoryIndex: int, hashValue: U64)
    requires accessor.Valid()
    modifies accessor.saveData.dressupLabels, accessor.copyDressupData.dressupLabels
    ensures accessor.Valid()
    ensures accessor.State().dressupLabels == old(accessor.State().dressupLabels)
    ensures accessor.State().styleData == old(accessor.State().styleData)
    ensures accessor.IsStoredDressupInfo() <==> exists k :: 0 <= k < DRESSUP_CATEGORY_LEN && old(accessor.saveData.dressupLabels[k]) != 0
  {
    ghost var s0 := accessor.State();
    accessor.SetStoreCurrentDressupInfo();
    accessor.SetDressupHash(categoryIndex, hashValue);
    accessor.ApplyStoredDressupInfo();
    StoreOverwriteApplyRestores(s0, categoryIndex, hashValue);
  }
}
