/** Bytes and NUL-terminated strings, as the C library functions used by the programs see them. */
module Bytes {
  type byte = bv8

  /** A string that a `char*` can denote: it holds no NUL. */
  predicate IsText(s: seq<byte>) {
    0 !in s
  }

  /** The string that starts a buffer: everything before the first NUL. */
  function CStr(buf: seq<byte>): (s: seq<byte>)
    ensures |s| <= |buf| && s == buf[..|s|] && IsText(s)
    ensures |s| < |buf| ==> buf[|s|] == 0
  {
    if buf == [] || buf[0] == 0 then [] else [buf[0]] + CStr(buf[1..])
  }

  /** `s` is the string in a buffer as soon as its bytes and a NUL stand at the front. */
  lemma {:induction false} CStrIs(buf: seq<byte>, s: seq<byte>)
    requires IsText(s) && |s| < |buf|
    requires buf[..|s|] == s && buf[|s|] == 0
    ensures CStr(buf) == s
  {
    if s != [] {
      assert buf[0] == s[0];
      assert buf[1..][..|s| - 1] == s[1..];
      CStrIs(buf[1..], s[1..]);
    }
  }

  // A C `int`: 32 bits with wrap-around.

  const INT_MIN := -0x8000_0000
  const INT_MAX := 0x7fff_ffff

  function ToInt32(x: int): (r: int)
    ensures INT_MIN <= r <= INT_MAX && (x - r) % 0x1_0000_0000 == 0
    ensures INT_MIN <= x <= INT_MAX ==> r == x
  {
    var u := x % 0x1_0000_0000;
    if u <= INT_MAX then u else u - 0x1_0000_0000
  }
}
