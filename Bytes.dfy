/**
 * Bytes, and the "binary strings" of JavaScript's `btoa` and `unescape`: strings
 * whose every character has a code below 256 and stands for one byte.
 */
module Bytes {

  type byte = b: int | 0 <= b < 256

  predicate IsBinaryString(s: string)
  {
    forall i | 0 <= i < |s| :: s[i] as int < 256
  }

  /** The binary string holding the given bytes. */
  function AsChars(bs: seq<byte>): (s: string)
    ensures |s| == |bs| && IsBinaryString(s)
    ensures forall i | 0 <= i < |bs| :: s[i] as int == bs[i]
  {
    seq(|bs|, i requires 0 <= i < |bs| => bs[i] as char)
  }

  /** The bytes a binary string stands for. */
  function AsBytes(s: string): (bs: seq<byte>)
    requires IsBinaryString(s)
    ensures |bs| == |s|
    ensures forall i | 0 <= i < |s| :: bs[i] == s[i] as int
  {
    seq(|s|, i requires 0 <= i < |s| => s[i] as int)
  }

  lemma AsBytesAsChars(bs: seq<byte>)
    ensures AsBytes(AsChars(bs)) == bs
  {
  }

  lemma AsCharsAppend(a: seq<byte>, b: seq<byte>)
    ensures AsChars(a + b) == AsChars(a) + AsChars(b)
  {
  }

}
