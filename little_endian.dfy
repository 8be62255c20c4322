/** Unsigned little-endian integers over bytes: the arithmetic underneath Python's `struct` formats `<Q` and `<i`. */
module LittleEndian {

  type Byte = x: int | 0 <= x < 256

  /** 256^n, the number of distinct values n bytes can hold. */
  function Pow256(n: nat): (r: nat)
    ensures r >= 1
  {
    if n == 0 then 1 else 256 * Pow256(n - 1)
  }

  /** The value of a byte string read least-significant byte first. */
  function FromLe(b: seq<Byte>): (r: nat)
    ensures r < Pow256(|b|)
  {
    if |b| == 0 then 0 else b[0] + 256 * FromLe(b[1..])
  }

  /** The n-byte little-endian representation of x. */
  function ToLe(x: nat, n: nat): (r: seq<Byte>)
    requires x < Pow256(n)
    ensures |r| == n
  {
    if n == 0 then [] else [x % 256] + ToLe(x / 256, n - 1)
  }

  lemma {:induction false} FromLeToLe(x: nat, n: nat)
    requires x < Pow256(n)
    ensures FromLe(ToLe(x, n)) == x
  {
    if n > 0 {
      var r := ToLe(x, n);
      assert r[1..] == ToLe(x / 256, n - 1);
      FromLeToLe(x / 256, n - 1);
    }
  }

  lemma {:induction false} ToLeFromLe(b: seq<Byte>)
    ensures ToLe(FromLe(b), |b|) == b
  {
    if |b| > 0 {
      var v := FromLe(b);
      assert v % 256 == b[0] && v / 256 == FromLe(b[1..]);
      ToLeFromLe(b[1..]);
    }
  }
}
