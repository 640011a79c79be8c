/**
 * convertCSSToDataURL (src/App.jsx:324-328): the stylesheet text as a `data:`
 * URL (section 2 of RFC 2397) whose payload is the base64 form of the text's
 * UTF-8 bytes, followed by a `#timestamp` fragment. The clock reading
 * `new Date().getTime()` is a parameter.
 */
module DataUrl {
  import opened Wrappers
  import Bytes
  import Utf8
  import UriComponent
  import Base64
  import Decimal

  const Prefix: string := "data:text/css;base64,"

  /** btoa(unescape(encodeURIComponent(css))), then the prefix and the fragment. */
  function ConvertCSSToDataURL(css: string, timestamp: nat): (url: string)
    ensures url == Prefix + Base64.Encode(Utf8.Encode(css)) + "#" + Decimal.NatToString(timestamp)
  {
    var binary := UriComponent.Unescape(UriComponent.EncodeURIComponent(css));
    UriComponent.UnescapeEncoded(css);
    Bytes.AsBytesAsChars(Utf8.Encode(css));
    var base64 := Base64.Btoa(binary);
    Prefix + base64.value + "#" + Decimal.NatToString(timestamp)
  }

  /** The text before the first occurrence of `c` (all of `s` if there is none). */
  function Before(s: string, c: char): (r: string)
    ensures r <= s && c !in r
  {
    if s == [] || s[0] == c then [] else [s[0]] + Before(s[1..], c)
  }

  lemma {:induction false} BeforeConcat(p: string, c: char, rest: string)
    requires c !in p
    ensures Before(p + [c] + rest, c) == p
  {
    if p != [] {
      assert (p + [c] + rest)[1..] == p[1..] + [c] + rest;
      BeforeConcat(p[1..], c, rest);
      assert [p[0]] + p[1..] == p;
    }
  }

  /** The base64 payload of a stylesheet URL: after the prefix, up to the fragment. */
  function Payload(url: string): Option<string>
  {
    if |url| >= |Prefix| && url[..|Prefix|] == Prefix then Some(Before(url[|Prefix|..], '#')) else None
  }

  /** Reads a stylesheet URL back to the stylesheet text. */
  function CssOf(url: string): Option<string>
  {
    match Payload(url)
    case None => None
    case Some(p) =>
      match Base64.Decode(p)
      case None => None
      case Some(bytes) => Utf8.Decode(bytes)
  }

  /** The payload of a generated URL is exactly the base64 text of the stylesheet's UTF-8 bytes. */
  lemma PayloadOfConverted(css: string, timestamp: nat)
    ensures Payload(ConvertCSSToDataURL(css, timestamp)) == Some(Base64.Encode(Utf8.Encode(css)))
  {
    Base64.EncodeHasNoHash(Utf8.Encode(css));
    PayloadOfShape(Base64.Encode(Utf8.Encode(css)), Decimal.NatToString(timestamp));
  }

  lemma PayloadOfShape(payload: string, fragment: string)
    requires '#' !in payload
    ensures Payload(Prefix + payload + "#" + fragment) == Some(payload)
  {
    var url := Prefix + payload + "#" + fragment;
    assert url[..|Prefix|] == Prefix && url[|Prefix|..] == payload + ['#'] + fragment;
    BeforeConcat(payload, '#', fragment);
  }

  /** Decoding the URL's payload gives back exactly the stylesheet text, non-ASCII included. */
  lemma RoundTrip(css: string, timestamp: nat)
    ensures CssOf(ConvertCSSToDataURL(css, timestamp)) == Some(css)
  {
    PayloadOfConverted(css, timestamp);
    Base64.DecodeEncode(Utf8.Encode(css));
    Utf8.DecodeEncode(css);
  }

  /**
   * Two conversions of the same text at different times give different URLs,
   * which read back to the same text: the fragment only defeats caching.
   */
  lemma TimestampBustsCache(css: string, t1: nat, t2: nat)
    requires t1 != t2
    ensures ConvertCSSToDataURL(css, t1) != ConvertCSSToDataURL(css, t2)
    ensures CssOf(ConvertCSSToDataURL(css, t1)) == CssOf(ConvertCSSToDataURL(css, t2)) == Some(css)
  {
    RoundTrip(css, t1);
    RoundTrip(css, t2);
    var head := Prefix + Base64.Encode(Utf8.Encode(css)) + "#";
    var f1, f2 := Decimal.NatToString(t1), Decimal.NatToString(t2);
    if head + f1 == head + f2 {
      assert f1 == (head + f1)[|head|..] == (head + f2)[|head|..] == f2;
      Decimal.ParseNatToString(t1);
      Decimal.ParseNatToString(t2);
    }
  }

}
