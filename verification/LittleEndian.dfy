/** Numbers as bytes, least significant first. */
module LittleEndian {
  type byte = b: int | 0 <= b < 256

  function Power(k: nat): nat
  {
    if k == 0 then 1 else 256 * Power(k - 1)
  }

  /** The low `k` bytes of `n`, least significant first. */
  function Bytes(n: nat, k: nat): (s: seq<byte>)
    ensures |s| == k
    decreases k, n
  {
    if k == 0 then [] else [n % 256] + Bytes(n / 256, k - 1)
  }

  function Value(s: seq<byte>): nat
  {
    if s == [] then 0 else s[0] + 256 * Value(s[1..])
  }

  lemma {:induction false} BytesValue(n: nat, k: nat)
    requires n < Power(k)
    ensures Value(Bytes(n, k)) == n
    decreases k
  {
    if k > 0 {
      BytesValue(n / 256, k - 1);
      assert Bytes(n, k)[1..] == Bytes(n / 256, k - 1);
    }
  }
}
