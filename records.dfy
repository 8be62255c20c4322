/**
 * The two fixed-layout records: `SaveData` (dressup hashes and style indices) and
 * `CopyDressUpSaveData` (a snapshot of dressup hashes). Each record is a class with one array
 * per storage list, sized by `len()` of its enumeration, so each array has a slot for the
 * `Max` sentinel. Beside the classes are the value-level functions that specify them.
 */
module Records {
  import opened Wrappers
  import opened LittleEndian
  import opened StructCodec
  import opened Categories

  /** The exceptions `from_bytes` can raise: ValueError for a wrong length, struct.error from unpack. */
  datatype DecodeError =
    | SizeMismatch(record: string, expected: nat, actual: nat)
    | UnpackError(cause: StructError)

  /** `SaveData.SIZE`. */
  const SAVE_DATA_SIZE: nat := 176
  /** Offset of the first style field inside a `SaveData` buffer. */
  const STYLE_START: nat := 104
  /** `CopyDressUpSaveData.SIZE`. */
  const COPY_DRESSUP_SIZE: nat := 104

  function U64Zeros(n: nat): (r: seq<U64>)
    ensures |r| == n && forall k :: 0 <= k < n ==> r[k] == 0
  {
    seq(n, _ => 0)
  }

  function I32Zeros(n: nat): (r: seq<I32>)
    ensures |r| == n && forall k :: 0 <= k < n ==> r[k] == 0
  {
    seq(n, _ => 0)
  }

  function ZeroBytes(n: nat): (r: seq<Byte>)
    ensures |r| == n && forall k :: 0 <= k < n ==> r[k] == 0
  {
    seq(n, _ => 0)
  }

  /**
   * The setters' bounds policy: slot i is replaced when `0 <= i < len(list)`, otherwise nothing
   * changes. So exactly slot i changes, and no slot at all when i is out of range.
   */
  function Update<T>(s: seq<T>, i: int, v: T): (r: seq<T>)
    ensures |r| == |s|
    ensures forall j :: 0 <= j < |s| ==> r[j] == if j == i then v else s[j]
  {
    if 0 <= i < |s| then s[i := v] else s
  }

  /** `all(label == 0 for label in labels)`. */
  function AllZero(labels: seq<U64>): (b: bool)
    ensures b <==> forall k :: 0 <= k < |labels| ==> labels[k] == 0
  {
    |labels| == 0 || (labels[0] == 0 && AllZero(labels[1..]))
  }

  // ---------------------------------------------------------------- SaveData, as values

  /** The two storage lists of a `SaveData`, sentinel slots included. */
  datatype SaveDataValue = SaveDataValue(dressupLabels: seq<U64>, styleData: seq<I32>)

  /** Shape of a record built by `SaveData()`: 14 label slots and 19 style slots. */
  predicate WellFormedSaveData(v: SaveDataValue)
  {
    |v.dressupLabels| == DRESSUP_CATEGORY_LEN && |v.styleData| == STYLE_CATEGORY_LEN
  }

  /**
   * `SaveData.from_bytes`: a length check, then 13 `<Q` fields from offset 0 and 18 `<i`
   * fields from offset 104 into a fresh record whose sentinel slots stay 0.
   */
  function SaveDataFromBytes(data: seq<Byte>): (r: Result<SaveDataValue, DecodeError>)
    ensures r.Success? ==> |data| == SAVE_DATA_SIZE && WellFormedSaveData(r.value)
    ensures r.Success? ==> r.value.dressupLabels[DressupCategory.Max.Ordinal()] == 0
    ensures r.Success? ==> r.value.styleData[StyleCategory.Max.Ordinal()] == 0
  {
    if |data| != SAVE_DATA_SIZE then Failure(SizeMismatch("SaveData", SAVE_DATA_SIZE, |data|))
    else
      match DecodeU64Fields(data, 0, DRESSUP_CATEGORY_LEN - 1)
      case Failure(e) => Failure(UnpackError(e))
      case Success(labels) =>
        match DecodeI32Fields(data, STYLE_START, STYLE_CATEGORY_LEN - 1)
        case Failure(e) => Failure(UnpackError(e))
        case Success(styles) => Success(SaveDataValue(labels + [0], styles + [0]))
  }

  /** `SaveData.to_bytes`: every label slot packed as `<Q`, then every style slot as `<i`, sentinels included. */
  function SaveDataToBytes(v: SaveDataValue): (r: seq<Byte>)
    ensures |r| == 8 * |v.dressupLabels| + 4 * |v.styleData|
  {
    EncodeU64Fields(v.dressupLabels) + EncodeI32Fields(v.styleData)
  }

  /** `from_bytes` accepts exactly the 176-byte buffers; any other length raises the size error. */
  lemma SaveDataSizeCheck(data: seq<Byte>)
    ensures SaveDataFromBytes(data).Success? <==> |data| == SAVE_DATA_SIZE
    ensures |data| != SAVE_DATA_SIZE ==>
      SaveDataFromBytes(data) == Failure(SizeMismatch("SaveData", SAVE_DATA_SIZE, |data|))
  {
    DecodeU64FieldsSucceeds(data, 0, DRESSUP_CATEGORY_LEN - 1);
    DecodeI32FieldsSucceeds(data, STYLE_START, STYLE_CATEGORY_LEN - 1);
  }

  /** Where each field of a decoded record comes from in the 176-byte buffer. */
  lemma SaveDataLayout(data: seq<Byte>)
    requires |data| == SAVE_DATA_SIZE
    ensures SaveDataFromBytes(data).Success?
    ensures WellFormedSaveData(SaveDataFromBytes(data).value)
    ensures forall i :: 0 <= i < DRESSUP_CATEGORY_LEN - 1 ==>
      SaveDataFromBytes(data).value.dressupLabels[i] == FromLe(data[8 * i .. 8 * i + 8])
    ensures SaveDataFromBytes(data).value.dressupLabels[DressupCategory.Max.Ordinal()] == 0
    ensures forall i :: 0 <= i < STYLE_CATEGORY_LEN - 1 ==>
      SaveDataFromBytes(data).value.styleData[i] == Signed32(FromLe(data[STYLE_START + 4 * i .. STYLE_START + 4 * i + 4]))
    ensures SaveDataFromBytes(data).value.styleData[StyleCategory.Max.Ordinal()] == 0
  {
    Pow256Widths();
    DecodeU64FieldsSucceeds(data, 0, DRESSUP_CATEGORY_LEN - 1);
    DecodeI32FieldsSucceeds(data, STYLE_START, STYLE_CATEGORY_LEN - 1);
    var v := SaveDataFromBytes(data).value;
    forall i | 0 <= i < DRESSUP_CATEGORY_LEN - 1
      ensures v.dressupLabels[i] == FromLe(data[8 * i .. 8 * i + 8])
    {
      DecodeU64FieldsAt(data, 0, DRESSUP_CATEGORY_LEN - 1, i);
    }
    forall i | 0 <= i < STYLE_CATEGORY_LEN - 1
      ensures v.styleData[i] == Signed32(FromLe(data[STYLE_START + 4 * i .. STYLE_START + 4 * i + 4]))
    {
      DecodeI32FieldsAt(data, STYLE_START, STYLE_CATEGORY_LEN - 1, i);
    }
  }

  /** A well-formed record always encodes to 14*8 + 19*4 = 188 bytes, not `SIZE`. */
  lemma SaveDataToBytesLength(v: SaveDataValue)
    requires WellFormedSaveData(v)
    ensures |SaveDataToBytes(v)| == 188 != SAVE_DATA_SIZE
  {
  }

  /** A zero sentinel slot packs to all-zero bytes after the fields before it. */
  lemma EncodeZeroSentinel(labels: seq<U64>, styles: seq<I32>)
    ensures EncodeU64Fields(labels + [0]) == EncodeU64Fields(labels) + ZeroBytes(8)
    ensures EncodeI32Fields(styles + [0]) == EncodeI32Fields(styles) + ZeroBytes(4)
  {
    assert (labels + [0])[..|labels|] == labels;
    assert (styles + [0])[..|styles|] == styles;
    assert ToLe(0, 8) == ZeroBytes(8);
    assert ToLe(0, 4) == ZeroBytes(4);
  }

  /**
   * Decoding then encoding inserts a zero sentinel field after each section: the 13 labels,
   * eight zero bytes, the 18 styles, four zero bytes.
   */
  lemma SaveDataReencode(data: seq<Byte>)
    requires |data| == SAVE_DATA_SIZE
    ensures SaveDataFromBytes(data).Success?
    ensures SaveDataToBytes(SaveDataFromBytes(data).value)
         == data[..STYLE_START] + ZeroBytes(8) + data[STYLE_START..] + ZeroBytes(4)
  {
    var front := data[..STYLE_START];
    var back := data[STYLE_START..];
    assert data[0 .. 0 + 8 * 13] == front;
    assert data[STYLE_START .. STYLE_START + 4 * 18] == back;
    EncodeDecodeU64Fields(data, 0, 13);
    EncodeDecodeI32Fields(data, STYLE_START, 18);
    var labels := DecodeU64Fields(data, 0, 13).value;
    var styles := DecodeI32Fields(data, STYLE_START, 18).value;
    assert EncodeU64Fields(labels) == front;
    assert EncodeI32Fields(styles) == back;
    assert SaveDataFromBytes(data) == Success(SaveDataValue(labels + [0], styles + [0]));
    EncodeZeroSentinel(labels, styles);
  }

  /** What `to_bytes` produces is never accepted by `from_bytes`: the decode/encode round trip fails. */
  lemma SaveDataToBytesNotReadable(v: SaveDataValue)
    requires WellFormedSaveData(v)
    ensures SaveDataFromBytes(SaveDataToBytes(v)) == Failure(SizeMismatch("SaveData", SAVE_DATA_SIZE, 188))
  {
    SaveDataToBytesLength(v);
  }

  // ---------------------------------------------------------------- CopyDressUpSaveData, as values

  /**
   * `CopyDressUpSaveData.from_bytes`: a length check, then 14 `<Q` fields from offset 0.
   * It never decodes: a wrong length raises the size error, and a 104-byte buffer makes the
   * fourteenth unpack read the empty slice `data[104:112]`.
   */
  function CopyDressUpFromBytes(data: seq<Byte>): (r: Result<seq<U64>, DecodeError>)
    ensures r.Failure?
    ensures r.error ==
      if |data| != COPY_DRESSUP_SIZE then SizeMismatch("CopyDressUpSaveData", COPY_DRESSUP_SIZE, |data|)
      else UnpackError(StructError(8))
  {
    DecodeU64FieldsSucceeds(data, 0, DRESSUP_CATEGORY_LEN);
    if |data| != COPY_DRESSUP_SIZE then Failure(SizeMismatch("CopyDressUpSaveData", COPY_DRESSUP_SIZE, |data|))
    else
      match DecodeU64Fields(data, 0, DRESSUP_CATEGORY_LEN)
      case Failure(e) => Failure(UnpackError(e))
      case Success(labels) => Success(labels)
  }

  /** The copy buffer's `to_bytes` writes all 14 slots: 112 bytes, not `SIZE`. */
  lemma CopyDressUpToBytesLength(labels: seq<U64>)
    requires |labels| == DRESSUP_CATEGORY_LEN
    ensures |EncodeU64Fields(labels)| == 112 != COPY_DRESSUP_SIZE
  {
  }

  // ---------------------------------------------------------------- the classes

  class SaveData {
    const dressupLabels: array<U64>
    const styleData: array<I32>

    ghost predicate Valid()
      reads this
    {
      dressupLabels.Length == DRESSUP_CATEGORY_LEN && styleData.Length == STYLE_CATEGORY_LEN
    }

    ghost function Value(): (v: SaveDataValue)
      reads this, dressupLabels, styleData
      requires Valid()
      ensures WellFormedSaveData(v)
    {
      SaveDataValue(dressupLabels[..], styleData[..])
    }

    constructor ()
      ensures Valid() && fresh(dressupLabels) && fresh(styleData)
      ensures Value() == SaveDataValue(U64Zeros(DRESSUP_CATEGORY_LEN), I32Zeros(STYLE_CATEGORY_LEN))
    {
      dressupLabels := new U64[DRESSUP_CATEGORY_LEN](_ => 0);
      styleData := new I32[STYLE_CATEGORY_LEN](_ => 0);
    }

    static method FromBytes(data: seq<Byte>) returns (r: Result<SaveData, DecodeError>)
      ensures r.Failure? <==> SaveDataFromBytes(data).Failure?
      ensures r.Failure? ==> r.error == SaveDataFromBytes(data).error
      ensures r.Success? ==> r.value.Valid() && fresh(r.value) && fresh(r.value.dressupLabels) && fresh(r.value.styleData)
      ensures r.Success? ==> r.value.Value() == SaveDataFromBytes(data).value
    {
      if |data| != SAVE_DATA_SIZE {
        return Failure(SizeMismatch("SaveData", SAVE_DATA_SIZE, |data|));
      }
      var saveData := new SaveData();
      saveData.ParseDressupLabels(data);
      saveData.ParseStyleData(data);
      return Success(saveData);
    }

    /** The first loop of `from_bytes`: labels 0..12 from the `<Q` fields at offset 0; the sentinel slot is kept. */
    method ParseDressupLabels(data: seq<Byte>)
      requires Valid() && |data| == SAVE_DATA_SIZE
      modifies dressupLabels
      ensures DecodeU64Fields(data, 0, DRESSUP_CATEGORY_LEN - 1).Success?
      ensures dressupLabels[..] == DecodeU64Fields(data, 0, DRESSUP_CATEGORY_LEN - 1).value + [old(dressupLabels[DRESSUP_CATEGORY_LEN - 1])]
    {
      ghost var labels: seq<U64> := [];
      var i := 0;
      while i < DRESSUP_CATEGORY_LEN - 1
        invariant 0 <= i <= DRESSUP_CATEGORY_LEN - 1
        invariant DecodeU64Fields(data, 0, i) == Success(labels)
        invariant forall k :: 0 <= k < i ==> dressupLabels[k] == labels[k]
        invariant dressupLabels[DRESSUP_CATEGORY_LEN - 1] == old(dressupLabels[DRESSUP_CATEGORY_LEN - 1])
      {
        var start := i * 8;
        var end := start + 8;
        var field := UnpackQ(PySlice(data, start, end)).value;
        dressupLabels[i] := field;
        labels := labels + [field];
        i := i + 1;
      }
      assert dressupLabels[..] == labels + [dressupLabels[DRESSUP_CATEGORY_LEN - 1]];
    }

    /** The second loop of `from_bytes`: styles 0..17 from the `<i` fields at offset 104; the sentinel slot is kept. */
    method ParseStyleData(data: seq<Byte>)
      requires Valid() && |data| == SAVE_DATA_SIZE
      modifies styleData
      ensures DecodeI32Fields(data, STYLE_START, STYLE_CATEGORY_LEN - 1).Success?
      ensures styleData[..] == DecodeI32Fields(data, STYLE_START, STYLE_CATEGORY_LEN - 1).value + [old(styleData[STYLE_CATEGORY_LEN - 1])]
    {
      ghost var styles: seq<I32> := [];
      var styleStart := STYLE_START;
      var i := 0;
      while i < STYLE_CATEGORY_LEN - 1
        invariant 0 <= i <= STYLE_CATEGORY_LEN - 1
        invariant DecodeI32Fields(data, STYLE_START, i) == Success(styles)
        invariant forall k :: 0 <= k < i ==> styleData[k] == styles[k]
        invariant styleData[STYLE_CATEGORY_LEN - 1] == old(styleData[STYLE_CATEGORY_LEN - 1])
      {
        var start := styleStart + i * 4;
        var end := start + 4;
        var field := UnpackI(PySlice(data, start, end)).value;
        styleData[i] := field;
        styles := styles + [field];
        i := i + 1;
      }
      assert styleData[..] == styles + [styleData[STYLE_CATEGORY_LEN - 1]];
    }

    method ToBytes() returns (data: seq<Byte>)
      requires Valid()
      ensures data == SaveDataToBytes(Value())
    {
      data := [];
      for i := 0 to dressupLabels.Length
        invariant data == EncodeU64Fields(dressupLabels[..i])
      {
        assert dressupLabels[..i + 1][..i] == dressupLabels[..i];
        data := data + PackQ(dressupLabels[i]);
      }
      assert dressupLabels[..dressupLabels.Length] == dressupLabels[..];
      ghost var labelBytes := data;
      for i := 0 to styleData.Length
        invariant data == labelBytes + EncodeI32Fields(styleData[..i])
      {
        assert styleData[..i + 1][..i] == styleData[..i];
        data := data + PackI(styleData[i]);
      }
      assert styleData[..styleData.Length] == styleData[..];
    }

    /** Slot i for `0 <= i < 14`, the `Max` sentinel slot included; 0 for any other index. */
    function GetDressupHash(categoryIndex: int): (h: U64)
      reads this, dressupLabels
      requires Valid()
      ensures 0 <= categoryIndex < DRESSUP_CATEGORY_LEN ==> h == dressupLabels[categoryIndex]
      ensures !(0 <= categoryIndex < DRESSUP_CATEGORY_LEN) ==> h == 0
    {
      if 0 <= categoryIndex < dressupLabels.Length then dressupLabels[categoryIndex] else 0
    }

    method SetDressupHash(categoryIndex: int, hashValue: U64)
      requires Valid()
      modifies dressupLabels
      ensures dressupLabels[..] == Update(old(dressupLabels[..]), categoryIndex, hashValue)
    {
      if 0 <= categoryIndex < dressupLabels.Length {
        dressupLabels[categoryIndex] := hashValue;
      }
    }

    /** Slot i for `0 <= i < 19`, the `Max` sentinel slot included; 0 for any other index. */
    function GetStyleIndex(categoryIndex: int): (s: I32)
      reads this, styleData
      requires Valid()
      ensures 0 <= categoryIndex < STYLE_CATEGORY_LEN ==> s == styleData[categoryIndex]
      ensures !(0 <= categoryIndex < STYLE_CATEGORY_LEN) ==> s == 0
    {
      if 0 <= categoryIndex < styleData.Length then styleData[categoryIndex] else 0
    }

    method SetStyleIndex(categoryIndex: int, styleIndex: I32)
      requires Valid()
      modifies styleData
      ensures styleData[..] == Update(old(styleData[..]), categoryIndex, styleIndex)
    {
      if 0 <= categoryIndex < styleData.Length {
        styleData[categoryIndex] := styleIndex;
      }
    }
  }

  class CopyDressUpSaveData {
    const dressupLabels: array<U64>

    ghost predicate Valid()
      reads this
    {
      dressupLabels.Length == DRESSUP_CATEGORY_LEN
    }

    constructor ()
      ensures Valid() && fresh(dressupLabels)
      ensures dressupLabels[..] == U64Zeros(DRESSUP_CATEGORY_LEN)
    {
      dressupLabels := new U64[DRESSUP_CATEGORY_LEN](_ => 0);
    }

    /**
     * The source's loop runs over all 14 slots of a 104-byte buffer, so it always raises before
     * it finishes and the method never returns a record.
     */
    static method FromBytes(data: seq<Byte>) returns (r: Result<CopyDressUpSaveData, DecodeError>)
      ensures r.Failure?
      ensures CopyDressUpFromBytes(data).Failure? && r.error == CopyDressUpFromBytes(data).error
    {
      if |data| != COPY_DRESSUP_SIZE {
        return Failure(SizeMismatch("CopyDressUpSaveData", COPY_DRESSUP_SIZE, |data|));
      }
      var copyData := new CopyDressUpSaveData();
      ghost var labels: seq<U64> := [];
      var i := 0;
      while i < DRESSUP_CATEGORY_LEN
        invariant 0 <= i <= DRESSUP_CATEGORY_LEN
        invariant DecodeU64Fields(data, 0, i) == Success(labels)
      {
        var start := i * 8;
        var end := start + 8;
        var field := UnpackQ(PySlice(data, start, end));
        if field.Failure? {
          DecodeU64FieldsSucceeds(data, 0, DRESSUP_CATEGORY_LEN);
          return Failure(UnpackError(field.error));
        }
        DecodeU64FieldsStep(data, 0, i, labels);
        copyData.dressupLabels[i] := field.value;
        labels := labels + [field.value];
        i := i + 1;
      }
      // Unreachable: completing the loop would mean 14 fields fit in 104 bytes.
      DecodeU64FieldsSucceeds(data, 0, DRESSUP_CATEGORY_LEN);
      assert false;
      return Success(copyData);
    }

    method ToBytes() returns (data: seq<Byte>)
      requires Valid()
      ensures data == EncodeU64Fields(dressupLabels[..])
    {
      data := [];
      for i := 0 to dressupLabels.Length
        invariant data == EncodeU64Fields(dressupLabels[..i])
      {
        assert dressupLabels[..i + 1][..i] == dressupLabels[..i];
        data := data + PackQ(dressupLabels[i]);
      }
      assert dressupLabels[..dressupLabels.Length] == dressupLabels[..];
    }

    /** Slot i for `0 <= i < 14`, the sentinel slot included; 0 for any other index. */
    function GetDressupHash(categoryIndex: int): (h: U64)
      reads this, dressupLabels
      requires Valid()
      ensures 0 <= categoryIndex < DRESSUP_CATEGORY_LEN ==> h == dressupLabels[categoryIndex]
      ensures !(0 <= categoryIndex < DRESSUP_CATEGORY_LEN) ==> h == 0
    {
      if 0 <= categoryIndex < dressupLabels.Length then dressupLabels[categoryIndex] else 0
    }

    method SetDressupHash(categoryIndex: int, hashValue: U64)
      requires Valid()
      modifies dressupLabels
      ensures dressupLabels[..] == Update(old(dressupLabels[..]), categoryIndex, hashValue)
    {
      if 0 <= categoryIndex < dressupLabels.Length {
        dressupLabels[categoryIndex] := hashValue;
      }
    }

    /** True exactly when all 14 slots, the sentinel included, hold 0. */
    function IsEmpty(): (b: bool)
      reads this, dressupLabels
      requires Valid()
      ensures b <==> forall k :: 0 <= k < DRESSUP_CATEGORY_LEN ==> dressupLabels[k] == 0
    {
      AllZero(dressupLabels[..])
    }
  }
}
