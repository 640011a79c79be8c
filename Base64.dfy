/**
 * Base64 (section 4 of RFC 4648, with `=` padding) as JavaScript's `btoa`
 * produces it, and a decoder that reads it back.
 */
module Base64 {
  import opened Wrappers
  import opened Bytes

  /** The alphabet of Table 1 of RFC 4648: A-Z, a-z, 0-9, '+', '/'. */
  function Digit(v: nat): (c: char)
    requires v < 64
    ensures c != '=' && c != '#'
    ensures ValueOf(c) == Some(v)
  {
    if v < 26 then ('A' as int + v) as char
    else if v < 52 then ('a' as int + v - 26) as char
    else if v < 62 then ('0' as int + v - 52) as char
    else if v == 62 then '+'
    else '/'
  }

  /** The value of an alphabet character; None for any other character. */
  function ValueOf(c: char): (r: Option<nat>)
    ensures r.Some? ==> r.value < 64
  {
    if 'A' <= c <= 'Z' then Some(c as int - 'A' as int)
    else if 'a' <= c <= 'z' then Some(c as int - 'a' as int + 26)
    else if '0' <= c <= '9' then Some(c as int - '0' as int + 52)
    else if c == '+' then Some(62)
    else if c == '/' then Some(63)
    else None
  }

  /** Every three bytes become four characters; a final one or two bytes are padded with '='. */
  function Encode(bs: seq<byte>): (s: string)
    ensures |s| == (|bs| + 2) / 3 * 4
    decreases |bs|
  {
    if |bs| == 0 then ""
    else if |bs| == 1 then [Digit(bs[0] / 4), Digit((bs[0] % 4) * 16), '=', '=']
    else if |bs| == 2 then [Digit(bs[0] / 4), Digit((bs[0] % 4) * 16 + bs[1] / 16), Digit((bs[1] % 16) * 4), '=']
    else EncodeGroup(bs[0], bs[1], bs[2]) + Encode(bs[3..])
  }

  /** The encoding is padded to a whole number of four-character groups. */
  lemma EncodeLength(bs: seq<byte>)
    ensures |Encode(bs)| % 4 == 0
  {
    var groups := (|bs| + 2) / 3;
    assert |Encode(bs)| == groups * 4;
    WholeGroups(groups);
  }

  lemma WholeGroups(g: nat)
    ensures (g * 4) % 4 == 0
  {
    assert g * 4 == 4 * g + 0;
  }

  /** The encoding never holds '#', so it can be followed by a URL fragment. */
  lemma {:induction false} EncodeHasNoHash(bs: seq<byte>)
    ensures '#' !in Encode(bs)
    decreases |bs|
  {
    if |bs| >= 3 {
      EncodeHasNoHash(bs[3..]);
      var q := EncodeGroup(bs[0], bs[1], bs[2]);
      assert '#' !in q;
    }
  }

  /** The four characters of three whole bytes. */
  function EncodeGroup(b0: byte, b1: byte, b2: byte): (q: string)
    ensures |q| == 4 && forall i | 0 <= i < 4 :: ValueOf(q[i]).Some?
  {
    [Digit(b0 / 4), Digit((b0 % 4) * 16 + b1 / 16), Digit((b1 % 16) * 4 + b2 / 64), Digit(b2 % 64)]
  }

  /** The bytes of one four-character group; padding is accepted only in the last group. */
  function DecodeGroup(q: string, last: bool): Option<seq<byte>>
    requires |q| == 4
  {
    var a, b, c, d := ValueOf(q[0]), ValueOf(q[1]), ValueOf(q[2]), ValueOf(q[3]);
    if a.None? || b.None? then None
    else if last && q[2] == '=' && q[3] == '=' then
      Some([a.value * 4 + b.value / 16])
    else if c.None? then None
    else if last && q[3] == '=' then
      Some([a.value * 4 + b.value / 16, (b.value % 16) * 16 + c.value / 4])
    else if d.None? then None
    else Some([a.value * 4 + b.value / 16, (b.value % 16) * 16 + c.value / 4, (c.value % 4) * 64 + d.value])
  }

  /** Decodes a padded base64 text; None if its length is not a multiple of 4 or a group is malformed. */
  function Decode(s: string): Option<seq<byte>>
    decreases |s|
  {
    if s == [] then Some([])
    else if |s| < 4 then None
    else
      var group, rest := DecodeGroup(s[..4], |s| == 4), Decode(s[4..]);
      if group.None? || rest.None? then None else Some(group.value + rest.value)
  }

  lemma GroupOfThree(b0: byte, b1: byte, b2: byte, last: bool)
    ensures DecodeGroup(EncodeGroup(b0, b1, b2), last) == Some([b0, b1, b2])
  {
    assert ((b0 % 4) * 16 + b1 / 16) / 16 == b0 % 4 && ((b0 % 4) * 16 + b1 / 16) % 16 == b1 / 16;
    assert ((b1 % 16) * 4 + b2 / 64) / 4 == b1 % 16 && ((b1 % 16) * 4 + b2 / 64) % 4 == b2 / 64;
  }

  lemma GroupOfTwo(b0: byte, b1: byte)
    ensures var q := [Digit(b0 / 4), Digit((b0 % 4) * 16 + b1 / 16), Digit((b1 % 16) * 4), '='];
      DecodeGroup(q, true) == Some([b0, b1])
  {
    assert ((b0 % 4) * 16 + b1 / 16) / 16 == b0 % 4 && ((b0 % 4) * 16 + b1 / 16) % 16 == b1 / 16;
  }

  lemma GroupOfOne(b0: byte)
    ensures DecodeGroup([Digit(b0 / 4), Digit((b0 % 4) * 16), '=', '='], true) == Some([b0])
  {
  }

  /** Decoding the base64 form of any byte sequence gives the bytes back. */
  lemma {:induction false} DecodeEncode(bs: seq<byte>)
    ensures Decode(Encode(bs)) == Some(bs)
    decreases |bs|
  {
    if |bs| == 1 {
      DecodeEncodeOne(bs);
    } else if |bs| == 2 {
      DecodeEncodeTwo(bs);
    } else if |bs| >= 3 {
      DecodeEncode(bs[3..]);
      DecodeEncodeStep(bs);
    }
  }

  lemma DecodeEncodeOne(bs: seq<byte>)
    requires |bs| == 1
    ensures Decode(Encode(bs)) == Some(bs)
  {
    var s := Encode(bs);
    GroupOfOne(bs[0]);
    assert s[..4] == s && s[4..] == [];
    assert [bs[0]] + [] == bs;
  }

  lemma DecodeEncodeTwo(bs: seq<byte>)
    requires |bs| == 2
    ensures Decode(Encode(bs)) == Some(bs)
  {
    var s := Encode(bs);
    GroupOfTwo(bs[0], bs[1]);
    assert s[..4] == s && s[4..] == [];
    assert [bs[0], bs[1]] + [] == bs;
  }

  lemma DecodeEncodeStep(bs: seq<byte>)
    requires |bs| >= 3
    requires Decode(Encode(bs[3..])) == Some(bs[3..])
    ensures Decode(Encode(bs)) == Some(bs)
  {
    var q := EncodeGroup(bs[0], bs[1], bs[2]);
    GroupOfThree(bs[0], bs[1], bs[2], bs[3..] == []);
    DecodeCons(q, Encode(bs[3..]), [bs[0], bs[1], bs[2]], bs[3..]);
    SplitThree(bs);
  }

  /** A valid group followed by a valid remainder decodes to the concatenation of their bytes. */
  lemma DecodeCons(q: string, rest: string, g: seq<byte>, r: seq<byte>)
    requires |q| == 4
    requires DecodeGroup(q, rest == []) == Some(g) && Decode(rest) == Some(r)
    ensures Decode(q + rest) == Some(g + r)
  {
    var s := q + rest;
    assert s[..4] == q && s[4..] == rest;
  }

  lemma SplitThree(bs: seq<byte>)
    requires |bs| >= 3
    ensures [bs[0], bs[1], bs[2]] + bs[3..] == bs
  {
  }

  /**
   * JavaScript's btoa: the base64 form of the bytes of a binary string; None
   * (an InvalidCharacterError) if some character code is 256 or more.
   */
  function Btoa(s: string): (r: Option<string>)
    ensures IsBinaryString(s) <==> r.Some?
  {
    if IsBinaryString(s) then Some(Encode(AsBytes(s))) else None
  }

}
