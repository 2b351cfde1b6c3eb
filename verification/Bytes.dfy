/** Bytes, C integer narrowing, and C strings, as the logger and the replayer use them on x86-64. */
module Bytes {

  type byte = x: int | 0 <= x < 256

  const NUL: byte := 0

  /** Assignment of an int to a `short` (modulo 2^16, as GCC defines it). */
  function ToShort(n: int): (r: int)
    ensures -0x8000 <= r < 0x8000 && (n - r) % 0x1_0000 == 0
  {
    (n + 0x8000) % 0x10000 - 0x8000
  }

  /** Assignment of an int to an `int32_t`. */
  function ToInt32(n: int): (r: int)
    ensures -0x8000_0000 <= r < 0x8000_0000 && (n - r) % 0x1_0000_0000 == 0
  {
    (n + 0x8000_0000) % 0x1_0000_0000 - 0x8000_0000
  }

  /** The `k` low-order bytes of `n`, least significant first. */
  function LE(n: nat, k: nat): (s: seq<byte>)
    ensures |s| == k
  {
    if k == 0 then [] else [n % 256] + LE(n / 256, k - 1)
  }

  function FromLE(s: seq<byte>): nat {
    if s == [] then 0 else s[0] + 256 * FromLE(s[1..])
  }

  function Pow256(k: nat): (r: nat)
    ensures r >= 1
  {
    if k == 0 then 1 else 256 * Pow256(k - 1)
  }

  lemma {:induction false} FromLELE(n: nat, k: nat)
    requires n < Pow256(k)
    ensures FromLE(LE(n, k)) == n
  {
    if k > 0 {
      FromLELE(n / 256, k - 1);
      assert LE(n, k)[1..] == LE(n / 256, k - 1);
    }
  }

  /** Unsigned values stored one after the other, each in its width. */
  function Pack(values: seq<nat>, widths: seq<nat>): (s: seq<byte>)
    requires |values| == |widths|
    ensures |s| == Sum(widths)
  {
    if values == [] then [] else LE(values[0], widths[0]) + Pack(values[1..], widths[1..])
  }

  function Unpack(s: seq<byte>, widths: seq<nat>): (values: seq<nat>)
    ensures |values| == |widths|
  {
    if widths == [] then []
    else
      var w := if widths[0] <= |s| then widths[0] else |s|;
      [FromLE(s[..w])] + Unpack(s[w..], widths[1..])
  }

  function Sum(widths: seq<nat>): nat {
    if widths == [] then 0 else widths[0] + Sum(widths[1..])
  }

  ghost predicate InWidths(values: seq<nat>, widths: seq<nat>) {
    |values| == |widths| && forall i :: 0 <= i < |values| ==> values[i] < Pow256(widths[i])
  }

  lemma PackSplits(head: seq<byte>, tail: seq<byte>, rest: seq<byte>)
    ensures (head + tail + rest)[..|head|] == head && (head + tail + rest)[|head|..] == tail + rest
  {
  }

  lemma InWidthsCons(values: seq<nat>, widths: seq<nat>)
    requires InWidths(values, widths) && values != []
    ensures values[0] < Pow256(widths[0]) && InWidths(values[1..], widths[1..]) && values == [values[0]] + values[1..]
  {
  }

  /** Values that fit their widths come back, whatever follows them. */
  lemma {:induction false} UnpackPack(values: seq<nat>, widths: seq<nat>, rest: seq<byte>)
    requires InWidths(values, widths)
    ensures Unpack(Pack(values, widths) + rest, widths) == values
  {
    if values != [] {
      var head, tail := LE(values[0], widths[0]), Pack(values[1..], widths[1..]);
      InWidthsCons(values, widths);
      PackSplits(head, tail, rest);
      FromLELE(values[0], widths[0]);
      UnpackPack(values[1..], widths[1..], rest);
    }
  }

  /** The C string that starts at `s[0]`: everything before the first NUL. */
  function CString(s: seq<byte>): (r: seq<byte>)
    ensures |r| <= |s| && r == s[..|r|]
    ensures NUL !in r
    ensures |r| < |s| ==> s[|r|] == NUL
  {
    if s == [] || s[0] == NUL then [] else [s[0]] + CString(s[1..])
  }

  /** A string is determined by its first NUL. */
  lemma {:induction false} CStringIs(s: seq<byte>, n: nat)
    requires n <= |s| && NUL !in s[..n]
    requires n < |s| ==> s[n] == NUL
    ensures CString(s) == s[..n]
  {
    if n > 0 {
      assert s[0] == s[..n][0];
      assert s[1..][..n - 1] == s[..n][1..];
      CStringIs(s[1..], n - 1);
    }
  }

  lemma CStringOfString(s: seq<byte>)
    requires NUL !in s
    ensures CString(s) == s
  {
    assert s[..|s|] == s;
    CStringIs(s, |s|);
  }
}
