/**
 * ECMAScript `encodeURIComponent`: every character outside the unescaped set
 * becomes the `%XX` triples (upper-case hex, section 2.1 of RFC 3986) of its
 * UTF-8 bytes. Also JavaScript's `unescape` for the `%XX` form, which the data
 * URL encoder applies to the result, and the percent-decoding that reads an
 * encoded component back.
 */
module UriComponent {
  import opened Wrappers
  import opened Bytes
  import Hex
  import Utf8

  /** The characters `encodeURIComponent` leaves as they are: ASCII letters, digits and - _ . ! ~ * ' ( ) */
  predicate IsUnescaped(c: char)
  {
    || 'A' <= c <= 'Z' || 'a' <= c <= 'z' || '0' <= c <= '9'
    || c == '-' || c == '_' || c == '.' || c == '!' || c == '~' || c == '*' || c == '\'' || c == '(' || c == ')'
  }

  function PercentByte(b: byte): (e: string)
    ensures |e| == 3 && e[0] == '%' && Hex.IsUpperHexDigit(e[1]) && Hex.IsUpperHexDigit(e[2])
    ensures 16 * Hex.DigitValue(e[1]) + Hex.DigitValue(e[2]) == b
  {
    ['%', Hex.UpperDigit(b / 16), Hex.UpperDigit(b % 16)]
  }

  function PercentBytes(bs: seq<byte>): (e: string)
    ensures |e| == 3 * |bs|
  {
    if bs == [] then "" else PercentByte(bs[0]) + PercentBytes(bs[1..])
  }

  /** One character: itself when unescaped, else the `%XX` triples of its UTF-8 bytes. */
  function EncodeChar(c: char): (e: string)
    ensures |e| >= 1 && WellEscaped(e)
  {
    if IsUnescaped(c) then
      assert [c][1..] == [];
      [c]
    else
      PercentBytesWellEscaped(Utf8.EncodeChar(c));
      PercentBytes(Utf8.EncodeChar(c))
  }

  /** `encodeURIComponent(s)`: at least one character per character of s, all unescaped or in `%XX` triples. */
  function EncodeURIComponent(s: string): (e: string)
    ensures |e| >= |s|
    ensures WellEscaped(e)
  {
    if s == [] then "" else
      WellEscapedAppend(EncodeChar(s[0]), EncodeURIComponent(s[1..]));
      EncodeChar(s[0]) + EncodeURIComponent(s[1..])
  }

  /** Every character is unescaped or belongs to a `%XX` triple of upper-case hex digits. */
  predicate WellEscaped(e: string)
    decreases |e|
  {
    || e == []
    || (IsUnescaped(e[0]) && WellEscaped(e[1..]))
    || (|e| >= 3 && e[0] == '%' && Hex.IsUpperHexDigit(e[1]) && Hex.IsUpperHexDigit(e[2]) && WellEscaped(e[3..]))
  }

  lemma {:induction false} WellEscapedAppend(a: string, b: string)
    requires WellEscaped(a) && WellEscaped(b)
    ensures WellEscaped(a + b)
    decreases |a|
  {
    if a == [] {
      assert a + b == b;
    } else if IsUnescaped(a[0]) && WellEscaped(a[1..]) {
      WellEscapedAppend(a[1..], b);
      assert (a + b)[1..] == a[1..] + b;
    } else {
      WellEscapedAppend(a[3..], b);
      assert (a + b)[0] == a[0] && (a + b)[1] == a[1] && (a + b)[2] == a[2];
      assert (a + b)[3..] == a[3..] + b;
    }
  }

  lemma {:induction false} PercentBytesWellEscaped(bs: seq<byte>)
    ensures WellEscaped(PercentBytes(bs))
  {
    if bs != [] {
      PercentBytesWellEscaped(bs[1..]);
      var e := PercentBytes(bs);
      assert e[3..] == PercentBytes(bs[1..]);
    }
  }

  /** A well-escaped text holds only unescaped characters and '%'. */
  lemma {:induction false} WellEscapedChars(e: string)
    requires WellEscaped(e)
    ensures forall i | 0 <= i < |e| :: IsUnescaped(e[i]) || e[i] == '%'
    decreases |e|
  {
    if e != [] {
      if IsUnescaped(e[0]) && WellEscaped(e[1..]) {
        WellEscapedChars(e[1..]);
        assert forall i | 1 <= i < |e| :: e[i] == e[1..][i - 1];
      } else {
        WellEscapedChars(e[3..]);
        assert forall i | 3 <= i < |e| :: e[i] == e[3..][i - 3];
      }
    }
  }

  /**
   * The encoded text is safe inside the quoted SVG data URI of the stylesheet:
   * it has no markup, quote, space or fragment characters.
   */
  lemma EncodedIsMarkupFree(s: string)
    ensures var e := EncodeURIComponent(s);
      forall i | 0 <= i < |e| :: e[i] !in {'<', '>', '&', '"', ' ', '#'}
  {
    var e := EncodeURIComponent(s);
    WellEscapedChars(e);
    forall i | 0 <= i < |e|
      ensures e[i] !in {'<', '>', '&', '"', ' ', '#'}
    {
      SafeInDataUri(e[i]);
    }
  }

  lemma SafeInDataUri(c: char)
    requires IsUnescaped(c) || c == '%'
    ensures c !in {'<', '>', '&', '"', ' ', '#'}
  {
  }

  /** The bytes a percent-encoded component stands for; None at a '%' that does not start a triple. */
  function PercentDecodeBytes(e: string): Option<seq<byte>>
    decreases |e|
  {
    if e == [] then Some([])
    else if e[0] == '%' then
      if |e| >= 3 && Hex.IsHexDigit(e[1]) && Hex.IsHexDigit(e[2]) then
        Prepend([16 * Hex.DigitValue(e[1]) + Hex.DigitValue(e[2])], PercentDecodeBytes(e[3..]))
      else None
    else Prepend(Utf8.EncodeChar(e[0]), PercentDecodeBytes(e[1..]))
  }

  function Prepend(bs: seq<byte>, rest: Option<seq<byte>>): Option<seq<byte>>
  {
    match rest
    case None => None
    case Some(r) => Some(bs + r)
  }

  /** Reading a component back: percent-decoding followed by UTF-8 decoding, as decodeURIComponent does. */
  function DecodeURIComponent(e: string): Option<string>
  {
    match PercentDecodeBytes(e)
    case None => None
    case Some(bs) => Utf8.Decode(bs)
  }

  lemma AfterPrefix(a: string, b: string, c: string)
    ensures (a + b) + c == a + (b + c)
    ensures (a + (b + c))[|a|..] == b + c
    ensures forall i | 0 <= i < |a| :: (a + (b + c))[i] == a[i]
  {
  }

  /** The first triple of a percent-encoded byte sequence, and what follows it. */
  lemma PercentBytesHead(bs: seq<byte>, rest: string)
    requires bs != []
    ensures var e, head := PercentBytes(bs) + rest, PercentByte(bs[0]);
      && |e| >= 3 && e[0] == '%' && e[1] == head[1] && e[2] == head[2]
      && Hex.IsHexDigit(e[1]) && Hex.IsHexDigit(e[2]) && 16 * Hex.DigitValue(e[1]) + Hex.DigitValue(e[2]) == bs[0]
      && e[3..] == PercentBytes(bs[1..]) + rest
  {
    assert PercentBytes(bs) == PercentByte(bs[0]) + PercentBytes(bs[1..]);
    AfterPrefix(PercentByte(bs[0]), PercentBytes(bs[1..]), rest);
  }

  lemma {:induction false} PercentDecodePercentBytes(bs: seq<byte>, rest: string)
    ensures PercentDecodeBytes(PercentBytes(bs) + rest) == Prepend(bs, PercentDecodeBytes(rest))
  {
    if bs == [] {
      assert PercentBytes(bs) + rest == rest;
      match PercentDecodeBytes(rest) {
        case None =>
        case Some(r) => assert bs + r == r;
      }
    } else {
      PercentBytesHead(bs, rest);
      PercentDecodePercentBytes(bs[1..], rest);
      match PercentDecodeBytes(rest) {
        case None =>
        case Some(r) => assert [bs[0]] + (bs[1..] + r) == bs + r;
      }
    }
  }

  /** Percent-decoding an encoded string yields exactly its UTF-8 bytes. */
  lemma {:induction false} PercentDecodeEncoded(s: string)
    ensures PercentDecodeBytes(EncodeURIComponent(s)) == Some(Utf8.Encode(s))
  {
    if s != [] {
      var tail := EncodeURIComponent(s[1..]);
      PercentDecodeEncoded(s[1..]);
      if IsUnescaped(s[0]) {
        assert ([s[0]] + tail)[1..] == tail;
      } else {
        PercentDecodePercentBytes(Utf8.EncodeChar(s[0]), tail);
      }
    }
  }

  /** decodeURIComponent undoes encodeURIComponent on every string, including non-ASCII text. */
  lemma DecodeEncode(s: string)
    ensures DecodeURIComponent(EncodeURIComponent(s)) == Some(s)
  {
    PercentDecodeEncoded(s);
    Utf8.DecodeEncode(s);
  }

  /** JavaScript's unescape for `%XX` triples (either case); every other character is kept. */
  function Unescape(s: string): (r: string)
    decreases |s|
  {
    if s == [] then []
    else if |s| >= 3 && s[0] == '%' && Hex.IsHexDigit(s[1]) && Hex.IsHexDigit(s[2]) then
      [(16 * Hex.DigitValue(s[1]) + Hex.DigitValue(s[2])) as char] + Unescape(s[3..])
    else [s[0]] + Unescape(s[1..])
  }

  /** A text without '%' is kept as it is. */
  lemma {:induction false} UnescapeWithoutPercent(s: string)
    requires forall i | 0 <= i < |s| :: s[i] != '%'
    ensures Unescape(s) == s
    decreases |s|
  {
    if s != [] {
      UnescapeWithoutPercent(s[1..]);
      assert [s[0]] + s[1..] == s;
    }
  }

  lemma {:induction false} UnescapePercentBytes(bs: seq<byte>, rest: string)
    ensures Unescape(PercentBytes(bs) + rest) == AsChars(bs) + Unescape(rest)
  {
    if bs == [] {
      assert PercentBytes(bs) + rest == rest;
      assert AsChars(bs) == [];
    } else {
      UnescapeFirstTriple(bs, rest);
      UnescapePercentBytes(bs[1..], rest);
      AsCharsFirst(bs);
    }
  }

  lemma AsCharsFirst(bs: seq<byte>)
    requires bs != []
    ensures AsChars(bs) == [bs[0] as char] + AsChars(bs[1..])
  {
  }

  /** unescape turns the first triple into its byte's character. */
  lemma UnescapeFirstTriple(bs: seq<byte>, rest: string)
    requires bs != []
    ensures Unescape(PercentBytes(bs) + rest) == [bs[0] as char] + Unescape(PercentBytes(bs[1..]) + rest)
  {
    PercentBytesHead(bs, rest);
  }

  /**
   * `unescape(encodeURIComponent(s))` is the binary string of the UTF-8 bytes
   * of s: the step the data URL encoder takes before base64.
   */
  lemma {:induction false} UnescapeEncoded(s: string)
    ensures Unescape(EncodeURIComponent(s)) == AsChars(Utf8.Encode(s))
  {
    if s != [] {
      var tail := EncodeURIComponent(s[1..]);
      UnescapeEncoded(s[1..]);
      if IsUnescaped(s[0]) {
        assert ([s[0]] + tail)[1..] == tail;
      } else {
        UnescapePercentBytes(Utf8.EncodeChar(s[0]), tail);
      }
      AsCharsAppend(Utf8.EncodeChar(s[0]), Utf8.Encode(s[1..]));
    }
  }

}
