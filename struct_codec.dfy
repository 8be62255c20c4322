/**
 * The two `struct` formats the player record uses, written out by hand: `<Q` (little-endian
 * unsigned 64-bit) and `<i` (little-endian two's-complement signed 32-bit), together with
 * Python's clamping slice and the "decode n consecutive fields" and "append n packed fields"
 * loops that the records run over them.
 */
module StructCodec {
  import opened Wrappers
  import opened LittleEndian

  const TWO_31: nat := 0x8000_0000
  const TWO_32: nat := 0x1_0000_0000
  const TWO_64: nat := 0x1_0000_0000_0000_0000

  /** Values `struct.pack('<Q', _)` accepts. */
  type U64 = x: int | 0 <= x < 0x1_0000_0000_0000_0000
  /** Values `struct.pack('<i', _)` accepts. */
  type I32 = x: int | -0x8000_0000 <= x < 0x8000_0000

  /** `struct.error`: unpack was handed a buffer whose length is not the format's size. */
  datatype StructError = StructError(needed: nat)

  lemma Pow256Widths()
    ensures Pow256(4) == TWO_32 && Pow256(8) == TWO_64
  {
  }

  /** Python's `s[start:end]` for non-negative bounds: both bounds are clamped to the length. */
  function PySlice(s: seq<Byte>, start: nat, end: nat): (r: seq<Byte>)
    requires start <= end
    ensures |r| == if end <= |s| then end - start else if start <= |s| then |s| - start else 0
    ensures end <= |s| ==> r == s[start..end]
  {
    var e := if end <= |s| then end else |s|;
    var b := if start <= e then start else e;
    s[b..e]
  }

  // ---------------------------------------------------------------- '<Q'

  /** `struct.unpack('<Q', b)[0]`. */
  function UnpackQ(b: seq<Byte>): (r: Result<U64, StructError>)
    ensures r.Success? <==> |b| == 8
    ensures r.Failure? ==> r.error == StructError(8)
  {
    if |b| != 8 then Failure(StructError(8))
    else
      Pow256Widths();
      Success(FromLe(b))
  }

  /** `struct.pack('<Q', x)`. */
  function PackQ(x: U64): (r: seq<Byte>)
    ensures |r| == 8
    ensures UnpackQ(r) == Success(x)
  {
    Pow256Widths();
    FromLeToLe(x, 8);
    ToLe(x, 8)
  }

  lemma PackQUnpackQ(b: seq<Byte>)
    requires |b| == 8
    ensures UnpackQ(b).Success? && PackQ(UnpackQ(b).value) == b
  {
    ToLeFromLe(b);
  }

  // ---------------------------------------------------------------- '<i'

  /** Two's-complement reading of a 32-bit pattern. */
  function Signed32(u: nat): (r: I32)
    requires u < TWO_32
    ensures r < 0 <==> u >= TWO_31
    ensures (r + TWO_32) % TWO_32 == u
  {
    if u >= TWO_31 then u - TWO_32 else u
  }

  /** `struct.unpack('<i', b)[0]`. */
  function UnpackI(b: seq<Byte>): (r: Result<I32, StructError>)
    ensures r.Success? <==> |b| == 4
    ensures r.Failure? ==> r.error == StructError(4)
  {
    if |b| != 4 then Failure(StructError(4))
    else
      Pow256Widths();
      Success(Signed32(FromLe(b)))
  }

  /** `struct.pack('<i', x)`. */
  function PackI(x: I32): (r: seq<Byte>)
    ensures |r| == 4
    ensures UnpackI(r) == Success(x)
  {
    var u: nat := if x < 0 then x + TWO_32 else x;
    Pow256Widths();
    FromLeToLe(u, 4);
    ToLe(u, 4)
  }

  lemma PackIUnpackI(b: seq<Byte>)
    requires |b| == 4
    ensures UnpackI(b).Success? && PackI(UnpackI(b).value) == b
  {
    Pow256Widths();
    ToLeFromLe(b);
  }

  /** The sign of a decoded `<i` value is the top bit of its last byte. */
  lemma {:induction false} UnpackISign(b: seq<Byte>)
    requires |b| == 4
    ensures UnpackI(b).Success? && (UnpackI(b).value < 0 <==> b[3] >= 128)
  {
    Pow256Widths();
    var b0: int, b1: int, b2: int, b3: int := b[0], b[1], b[2], b[3];
    assert b[1..][1..][1..][1..] == [];
    assert FromLe(b[3..]) == b3;
    assert FromLe(b[2..]) == b2 + 256 * b3;
    assert FromLe(b[1..]) == b1 + 256 * (b2 + 256 * b3);
    assert FromLe(b) == b0 + 256 * (b1 + 256 * (b2 + 256 * b3));
  }

  // ---------------------------------------------------------------- field sequences

  /**
   * `for i in range(n): struct.unpack('<Q', data[off + 8*i : off + 8*i + 8])[0]`:
   * the decoded fields in order, or the error of the first field whose slice is short.
   */
  function DecodeU64Fields(data: seq<Byte>, off: nat, n: nat): (r: Result<seq<U64>, StructError>)
    ensures r.Success? ==> |r.value| == n
  {
    if n == 0 then Success([])
    else
      match DecodeU64Fields(data, off, n - 1)
      case Failure(e) => Failure(e)
      case Success(prefix) =>
        match UnpackQ(PySlice(data, off + 8 * (n - 1), off + 8 * n))
        case Failure(e) => Failure(e)
        case Success(v) => Success(prefix + [v])
  }

  /** `for v in values: data += struct.pack('<Q', v)`, starting from `b''`. */
  function EncodeU64Fields(values: seq<U64>): (r: seq<Byte>)
    ensures |r| == 8 * |values|
  {
    if |values| == 0 then [] else EncodeU64Fields(values[..|values| - 1]) + PackQ(values[|values| - 1])
  }

  /** The n `<Q` fields at `off` decode exactly when they all lie inside the buffer. */
  lemma {:induction false} DecodeU64FieldsSucceeds(data: seq<Byte>, off: nat, n: nat)
    ensures DecodeU64Fields(data, off, n).Success? <==> n == 0 || off + 8 * n <= |data|
    ensures DecodeU64Fields(data, off, n).Failure? ==> DecodeU64Fields(data, off, n).error == StructError(8)
  {
    if n > 0 {
      DecodeU64FieldsSucceeds(data, off, n - 1);
    }
  }

  /** One more loop iteration: a decoded prefix extended by the next in-range field. */
  lemma DecodeU64FieldsStep(data: seq<Byte>, off: nat, n: nat, prefix: seq<U64>)
    requires DecodeU64Fields(data, off, n) == Success(prefix)
    requires off + 8 * n + 8 <= |data|
    ensures DecodeU64Fields(data, off, n + 1) == Success(prefix + [UnpackQ(data[off + 8 * n .. off + 8 * n + 8]).value])
  {
  }

  /** Field k of a successful decode is the little-endian value of its own eight bytes. */
  lemma {:induction false} DecodeU64FieldsAt(data: seq<Byte>, off: nat, n: nat, k: nat)
    requires off + 8 * n <= |data| && k < n
    ensures DecodeU64Fields(data, off, n).Success?
    ensures DecodeU64Fields(data, off, n).value[k] == FromLe(data[off + 8 * k .. off + 8 * k + 8])
  {
    DecodeU64FieldsSucceeds(data, off, n);
    if k < n - 1 {
      DecodeU64FieldsAt(data, off, n - 1, k);
    }
  }

  /** Field k of an encoding occupies bytes 8k .. 8k+8. */
  lemma {:induction false} EncodeU64FieldsAt(values: seq<U64>, k: nat)
    requires k < |values|
    ensures EncodeU64Fields(values)[8 * k .. 8 * k + 8] == PackQ(values[k])
  {
    var n := |values|;
    var front := values[..n - 1];
    assert EncodeU64Fields(values) == EncodeU64Fields(front) + PackQ(values[n - 1]);
    if k < n - 1 {
      EncodeU64FieldsAt(front, k);
    }
  }

  /** Encoding one more value appends its packed bytes. */
  lemma EncodeU64FieldsSnoc(prefix: seq<U64>, v: U64)
    ensures EncodeU64Fields(prefix + [v]) == EncodeU64Fields(prefix) + PackQ(v)
  {
    assert (prefix + [v])[..|prefix|] == prefix;
  }

  /** Re-encoding decoded fields gives back the bytes they were decoded from. */
  lemma {:induction false} EncodeDecodeU64Fields(data: seq<Byte>, off: nat, n: nat)
    requires off + 8 * n <= |data|
    ensures DecodeU64Fields(data, off, n).Success?
    ensures EncodeU64Fields(DecodeU64Fields(data, off, n).value) == data[off .. off + 8 * n]
  {
    if n == 0 {
      assert data[off .. off] == [];
    } else {
      EncodeDecodeU64Fields(data, off, n - 1);
      var prefix := DecodeU64Fields(data, off, n - 1).value;
      var last := data[off + 8 * (n - 1) .. off + 8 * n];
      DecodeU64FieldsStep(data, off, n - 1, prefix);
      PackQUnpackQ(last);
      EncodeU64FieldsSnoc(prefix, UnpackQ(last).value);
      assert data[off .. off + 8 * n] == data[off .. off + 8 * (n - 1)] + last;
    }
  }

  /** Decoding an encoding gives back the values. */
  lemma {:induction false} DecodeEncodeU64Fields(values: seq<U64>)
    ensures DecodeU64Fields(EncodeU64Fields(values), 0, |values|) == Success(values)
  {
    var data := EncodeU64Fields(values);
    DecodeU64FieldsSucceeds(data, 0, |values|);
    var r := DecodeU64Fields(data, 0, |values|).value;
    forall k | 0 <= k < |values|
      ensures r[k] == values[k]
    {
      DecodeU64FieldsAt(data, 0, |values|, k);
      EncodeU64FieldsAt(values, k);
      var chunk := data[8 * k .. 8 * k + 8];
      assert chunk == PackQ(values[k]);
      assert UnpackQ(chunk) == Success(values[k]);
    }
    assert r == values;
  }

  /** `for i in range(n): struct.unpack('<i', data[off + 4*i : off + 4*i + 4])[0]`. */
  function DecodeI32Fields(data: seq<Byte>, off: nat, n: nat): (r: Result<seq<I32>, StructError>)
    ensures r.Success? ==> |r.value| == n
  {
    if n == 0 then Success([])
    else
      match DecodeI32Fields(data, off, n - 1)
      case Failure(e) => Failure(e)
      case Success(prefix) =>
        match UnpackI(PySlice(data, off + 4 * (n - 1), off + 4 * n))
        case Failure(e) => Failure(e)
        case Success(v) => Success(prefix + [v])
  }

  /** `for v in values: data += struct.pack('<i', v)`, starting from `b''`. */
  function EncodeI32Fields(values: seq<I32>): (r: seq<Byte>)
    ensures |r| == 4 * |values|
  {
    if |values| == 0 then [] else EncodeI32Fields(values[..|values| - 1]) + PackI(values[|values| - 1])
  }

  lemma {:induction false} DecodeI32FieldsSucceeds(data: seq<Byte>, off: nat, n: nat)
    ensures DecodeI32Fields(data, off, n).Success? <==> n == 0 || off + 4 * n <= |data|
    ensures DecodeI32Fields(data, off, n).Failure? ==> DecodeI32Fields(data, off, n).error == StructError(4)
  {
    if n > 0 {
      DecodeI32FieldsSucceeds(data, off, n - 1);
    }
  }

  /** One more loop iteration: a decoded prefix extended by the next in-range field. */
  lemma DecodeI32FieldsStep(data: seq<Byte>, off: nat, n: nat, prefix: seq<I32>)
    requires DecodeI32Fields(data, off, n) == Success(prefix)
    requires off + 4 * n + 4 <= |data|
    ensures DecodeI32Fields(data, off, n + 1) == Success(prefix + [UnpackI(data[off + 4 * n .. off + 4 * n + 4]).value])
  {
  }

  lemma {:induction false} DecodeI32FieldsAt(data: seq<Byte>, off: nat, n: nat, k: nat)
    requires off + 4 * n <= |data| && k < n
    ensures DecodeI32Fields(data, off, n).Success?
    ensures DecodeI32Fields(data, off, n).value[k] == UnpackI(data[off + 4 * k .. off + 4 * k + 4]).value
  {
    DecodeI32FieldsSucceeds(data, off, n);
    if k < n - 1 {
      DecodeI32FieldsAt(data, off, n - 1, k);
    }
  }

  lemma {:induction false} EncodeI32FieldsAt(values: seq<I32>, k: nat)
    requires k < |values|
    ensures EncodeI32Fields(values)[4 * k .. 4 * k + 4] == PackI(values[k])
  {
    var n := |values|;
    var front := values[..n - 1];
    assert EncodeI32Fields(values) == EncodeI32Fields(front) + PackI(values[n - 1]);
    if k < n - 1 {
      EncodeI32FieldsAt(front, k);
    }
  }

  /** Encoding one more value appends its packed bytes. */
  lemma EncodeI32FieldsSnoc(prefix: seq<I32>, v: I32)
    ensures EncodeI32Fields(prefix + [v]) == EncodeI32Fields(prefix) + PackI(v)
  {
    assert (prefix + [v])[..|prefix|] == prefix;
  }

  /** Re-encoding decoded fields gives back the bytes they were decoded from. */
  lemma {:induction false} EncodeDecodeI32Fields(data: seq<Byte>, off: nat, n: nat)
    requires off + 4 * n <= |data|
    ensures DecodeI32Fields(data, off, n).Success?
    ensures EncodeI32Fields(DecodeI32Fields(data, off, n).value) == data[off .. off + 4 * n]
  {
    if n == 0 {
      assert data[off .. off] == [];
    } else {
      EncodeDecodeI32Fields(data, off, n - 1);
      var prefix := DecodeI32Fields(data, off, n - 1).value;
      var last := data[off + 4 * (n - 1) .. off + 4 * n];
      DecodeI32FieldsStep(data, off, n - 1, prefix);
      PackIUnpackI(last);
      EncodeI32FieldsSnoc(prefix, UnpackI(last).value);
      assert data[off .. off + 4 * n] == data[off .. off + 4 * (n - 1)] + last;
    }
  }

  /** Decoding an encoding gives back the values. */
  lemma {:induction false} DecodeEncodeI32Fields(values: seq<I32>)
    ensures DecodeI32Fields(EncodeI32Fields(values), 0, |values|) == Success(values)
  {
    var data := EncodeI32Fields(values);
    DecodeI32FieldsSucceeds(data, 0, |values|);
    var r := DecodeI32Fields(data, 0, |values|).value;
    forall k | 0 <= k < |values|
      ensures r[k] == values[k]
    {
      DecodeI32FieldsAt(data, 0, |values|, k);
      EncodeI32FieldsAt(values, k);
      var chunk := data[4 * k .. 4 * k + 4];
      assert chunk == PackI(values[k]);
      assert UnpackI(chunk) == Success(values[k]);
    }
    assert r == values;
  }
}
