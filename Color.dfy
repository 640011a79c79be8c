/**
 * Colour lightening, as the stylesheet's hover token uses it (src/App.jsx:299-316):
 * a `#RRGGBB` colour is read as one 24-bit number, a fixed amount is added to
 * each of its three channels, each channel is clamped to [0, 255], and the
 * result is written back as `#` and six lower-case hex digits.
 */
module Color {
  import opened Hex

  /** `#` followed by exactly six hex digits, either case. */
  predicate IsHexColor(s: string)
  {
    |s| == 7 && s[0] == '#' && AllHex(s[1..])
  }

  /** `#` followed by exactly six lower-case hex digits. */
  predicate IsLowerHexColor(s: string)
  {
    IsHexColor(s) && forall i | 1 <= i < 7 :: IsLowerHexDigit(s[i])
  }

  /** Channel k (0 red, 1 green, 2 blue) of a colour: the value of its k-th digit pair. */
  function Channel(s: string, k: nat): (v: nat)
    requires IsHexColor(s) && k < 3
    ensures v < 256
  {
    assert IsHexDigit(s[1..][2 * k]) && IsHexDigit(s[1..][2 * k + 1]);
    16 * DigitValue(s[1 + 2 * k]) + DigitValue(s[2 + 2 * k])
  }

  /** A channel value written as two lower-case hex digits. */
  function HexByte(x: nat): (s: string)
    requires x < 256
    ensures |s| == 2 && IsLowerHexDigit(s[0]) && IsLowerHexDigit(s[1])
    ensures 16 * DigitValue(s[0]) + DigitValue(s[1]) == x
  {
    [LowerDigit(x / 16), LowerDigit(x % 16)]
  }

  /** The clamp written in the source: below 1 becomes 0, 255 and above become 255. */
  function Clamp(x: int): (r: int)
    ensures 0 <= r <= 255
    ensures 0 <= x <= 255 ==> r == x
    ensures x < 0 ==> r == 0
    ensures x > 255 ==> r == 255
  {
    if x < 255 then (if x < 1 then 0 else x) else 255
  }

  /**
   * The colour written back the way the source does: the three channels packed
   * under a leading `1` bit at 2^24, written in hex, and that leading digit
   * dropped. The result is `#` and the two digits of each channel.
   */
  function FormatColor(r: nat, g: nat, b: nat): (s: string)
    requires r < 256 && g < 256 && b < 256
    ensures s == "#" + HexByte(r) + HexByte(g) + HexByte(b)
  {
    var digits := ToHex(0x1000000 + r * 0x10000 + g * 0x100 + b);
    FormatChannels(r, g, b);
    assert digits[1..] == HexByte(r) + HexByte(g) + HexByte(b);
    "#" + digits[1..]
  }

  /**
   * lightenColor(color, percent) with the amount `Math.round(2.55 * percent)`
   * already computed (51 for the only call, percent 20).
   */
  function LightenColor(color: string, amount: int): (r: string)
    requires IsHexColor(color)
    ensures IsLowerHexColor(r)
    ensures Channel(r, 0) == Clamp(Channel(color, 0) + amount)
    ensures Channel(r, 1) == Clamp(Channel(color, 1) + amount)
    ensures Channel(r, 2) == Clamp(Channel(color, 2) + amount)
  {
    var num := ParseHex(color[1..]);
    ChannelsOfNumber(color);
    var red := Clamp(num / 0x10000 + amount);
    var green := Clamp((num / 0x100) % 0x100 + amount);
    var blue := Clamp(num % 0x100 + amount);
    ChannelsOfFormat(red, green, blue);
    FormatColor(red, green, blue)
  }

  /** The six digits of a colour, read as one number, split back into the channels. */
  lemma ChannelsOfNumber(color: string)
    requires IsHexColor(color)
    ensures var num := ParseHex(color[1..]);
      && num / 0x10000 == Channel(color, 0)
      && (num / 0x100) % 0x100 == Channel(color, 1)
      && num % 0x100 == Channel(color, 2)
  {
    var d := color[1..];
    forall k | 1 <= k <= 6 ensures d[..k][..k - 1] == d[..k - 1] && d[..k][k - 1] == d[k - 1] {
    }
    assert d[..6] == d;
    var v := seq(6, i requires 0 <= i < 6 => DigitValue(d[i]));
    assert ParseHex(d[..1]) == v[0];
    assert ParseHex(d[..2]) == 16 * v[0] + v[1];
    assert ParseHex(d[..3]) == 16 * ParseHex(d[..2]) + v[2];
    assert ParseHex(d[..4]) == 16 * ParseHex(d[..3]) + v[3];
    assert ParseHex(d[..5]) == 16 * ParseHex(d[..4]) + v[4];
    assert ParseHex(d) == 16 * ParseHex(d[..5]) + v[5];
    var r, g, b := Channel(color, 0), Channel(color, 1), Channel(color, 2);
    assert r == 16 * v[0] + v[1] && g == 16 * v[2] + v[3] && b == 16 * v[4] + v[5];
    var num := ParseHex(d);
    assert num == r * 0x10000 + g * 0x100 + b;
    Unpack3(r, g, b);
  }

  /** Unpacking three bytes from 24 bits with division and remainder. */
  lemma Unpack3(r: int, g: int, b: int)
    requires 0 <= r < 256 && 0 <= g < 256 && 0 <= b < 256
    ensures var num := r * 0x10000 + g * 0x100 + b;
      num / 0x10000 == r && (num / 0x100) % 0x100 == g && num % 0x100 == b
  {
    var num := r * 0x10000 + g * 0x100 + b;
    assert num / 0x100 == r * 0x100 + g;
  }

  /** toString(16) of a number of at least three digits ends in the two digits of its last byte. */
  lemma {:induction false} ToHexByte(m: nat, x: nat)
    requires m >= 1 && x < 256
    ensures ToHex(m * 256 + x) == ToHex(m) + HexByte(x)
  {
    var n := m * 256 + x;
    assert n / 16 == m * 16 + x / 16 && n % 16 == x % 16;
    assert (m * 16 + x / 16) / 16 == m && (m * 16 + x / 16) % 16 == x / 16;
  }

  /** Writing three clamped channels the way the source does yields `#` and their six digits. */
  lemma FormatChannels(r: nat, g: nat, b: nat)
    requires r < 256 && g < 256 && b < 256
    ensures ToHex(0x1000000 + r * 0x10000 + g * 0x100 + b) == "1" + HexByte(r) + HexByte(g) + HexByte(b)
  {
    var m2 := (256 + r) * 256 + g;
    TwoBytes(r, g);
    ToHexByte(m2, b);
    assert m2 * 256 + b == 0x1000000 + r * 0x10000 + g * 0x100 + b;
  }

  /** The first two channels after the leading `1` digit. */
  lemma TwoBytes(r: nat, g: nat)
    requires r < 256 && g < 256
    ensures ToHex((256 + r) * 256 + g) == "1" + HexByte(r) + HexByte(g)
  {
    assert ToHex(1) == "1";
    ToHexByte(1, r);
    ToHexByte(256 + r, g);
  }

  /** `#` and the digits of three channels form a lower-case colour with exactly those channels. */
  lemma ChannelsOfFormat(r: nat, g: nat, b: nat)
    requires r < 256 && g < 256 && b < 256
    ensures var s := "#" + HexByte(r) + HexByte(g) + HexByte(b);
      IsLowerHexColor(s) && Channel(s, 0) == r && Channel(s, 1) == g && Channel(s, 2) == b
  {
    var s := "#" + HexByte(r) + HexByte(g) + HexByte(b);
    assert s[1] == HexByte(r)[0] && s[2] == HexByte(r)[1];
    assert s[3] == HexByte(g)[0] && s[4] == HexByte(g)[1];
    assert s[5] == HexByte(b)[0] && s[6] == HexByte(b)[1];
  }

  /** A lower-case digit is the digit of its own value. */
  lemma LowerDigitOfValue(c: char)
    requires IsLowerHexDigit(c)
    ensures LowerDigit(DigitValue(c)) == c
  {
  }

  /** In a lower-case colour, the two digits of channel k are the channel written back. */
  lemma ChannelDigits(s: string, k: nat)
    requires IsLowerHexColor(s) && k < 3
    ensures HexByte(Channel(s, k)) == s[1 + 2 * k..3 + 2 * k]
  {
    var hi, lo := s[1 + 2 * k], s[2 + 2 * k];
    var x := Channel(s, k);
    assert x == 16 * DigitValue(hi) + DigitValue(lo);
    assert x / 16 == DigitValue(hi) && x % 16 == DigitValue(lo);
    LowerDigitOfValue(hi);
    LowerDigitOfValue(lo);
  }

  /** A lower-case colour is `#` and the digits of its own channels. */
  lemma LowerColorByChannels(s: string)
    requires IsLowerHexColor(s)
    ensures s == "#" + HexByte(Channel(s, 0)) + HexByte(Channel(s, 1)) + HexByte(Channel(s, 2))
  {
    ChannelDigits(s, 0);
    ChannelDigits(s, 1);
    ChannelDigits(s, 2);
    assert s == [s[0]] + s[1..3] + s[3..5] + s[5..7];
  }

  /** Lightening writes `#` and the digits of the three clamped channels. */
  lemma LightenByChannels(color: string, amount: int)
    requires IsHexColor(color)
    ensures LightenColor(color, amount)
            == "#" + HexByte(Clamp(Channel(color, 0) + amount)) + HexByte(Clamp(Channel(color, 1) + amount))
                   + HexByte(Clamp(Channel(color, 2) + amount))
  {
    LowerColorByChannels(LightenColor(color, amount));
  }

  /** The initial brand colour's channels, lightened by 51 and written out. */
  lemma InitialHoverDigits()
    ensures IsHexColor("#4375F5")
    ensures "#" + HexByte(Clamp(Channel("#4375F5", 0) + 51)) + HexByte(Clamp(Channel("#4375F5", 1) + 51))
                + HexByte(Clamp(Channel("#4375F5", 2) + 51)) == "#76a8ff"
  {
    assert Channel("#4375F5", 0) == 0x43 && Channel("#4375F5", 1) == 0x75 && Channel("#4375F5", 2) == 0xF5;
    assert HexByte(118) == "76" && HexByte(168) == "a8" && HexByte(255) == "ff";
  }

  /** The hover token of the initial brand colour: #4375F5 lightened by 51. */
  lemma InitialHoverColor()
    ensures LightenColor("#4375F5", 51) == "#76a8ff"
  {
    InitialHoverDigits();
    LightenByChannels("#4375F5", 51);
  }

}
