/**
 * The JSON text of the proactive-message list, as `JSON.stringify` writes it
 * for an array of `{ type: 'text', payload: { message } }` records: no white
 * space, keys in insertion order, and each message written as a JSON string
 * (section 7 of RFC 8259) with the escapes ECMAScript's QuoteJSONString
 * chooses: the two-character forms for quote, backslash, backspace, tab, line
 * feed, form feed and carriage return, `\u00xx` with lower-case hex digits
 * for the other control characters, and every other character as itself.
 *
 * The reader below accepts that shape and is the partner the serialisation
 * is proved against: reading the text back gives the messages, in order.
 */
module Json {
  import opened Wrappers
  import Hex

  /** The characters a JSON string may not hold unescaped besides the quote and the backslash. */
  predicate IsControl(ch: char)
  {
    ch < ' '
  }

  /** One character of a message inside a JSON string literal. */
  function EscapeChar(ch: char): (e: string)
    ensures 1 <= |e| <= 6
    ensures e == [ch] <==> ch != '"' && ch != '\\' && !IsControl(ch)
    ensures e != [ch] ==> e[0] == '\\'
  {
    if ch == '"' then "\\\""
    else if ch == '\\' then "\\\\"
    else if ch == 8 as char then "\\b"
    else if ch == '\t' then "\\t"
    else if ch == '\n' then "\\n"
    else if ch == 12 as char then "\\f"
    else if ch == '\r' then "\\r"
    else if IsControl(ch) then "\\u00" + [Hex.LowerDigit(ch as int / 16), Hex.LowerDigit(ch as int % 16)]
    else [ch]
  }

  /** The body of the JSON string for s, between its quotes. */
  function Escape(s: string): (e: string)
    ensures |e| >= |s|
    ensures forall i | 0 <= i < |e| :: !IsControl(e[i])
  {
    if s == [] then [] else EscapeChar(s[0]) + Escape(s[1..])
  }

  /** `{"type":"text","payload":{"message":"`, up to and including the message's opening quote. */
  const ItemOpen: string := "{\"type\":\"text\",\"payload\":{\"message\":\""

  /** The JSON text of one message record. */
  function Item(m: string): string
  {
    ItemOpen + Escape(m) + "\"" + "}}"
  }

  /** The records after the first, each preceded by a comma. */
  function MoreItems(ms: seq<string>): string
  {
    if ms == [] then "" else "," + Item(ms[0]) + MoreItems(ms[1..])
  }

  /** `JSON.stringify(messages.map(message => ({ type: 'text', payload: { message } })))`. */
  function MessagesJson(ms: seq<string>): (json: string)
    ensures |json| >= 2 && json[0] == '[' && json[|json| - 1] == ']'
    ensures json == "[]" <==> ms == []
  {
    "[" + (if ms == [] then "" else Item(ms[0]) + MoreItems(ms[1..])) + "]"
  }

  /** The rest of s after the literal p, if s starts with p. */
  function Skip(s: string, p: string): (r: Option<string>)
    ensures r.Some? ==> |r.value| == |s| - |p|
  {
    if p <= s then Some(s[|p|..]) else None
  }

  /** The character a backslash escape stands for, and how many characters after the backslash it takes. */
  function ReadEscape(e: char, after: string): (r: Option<(char, nat)>)
    ensures r.Some? ==> 1 <= r.value.1 <= 1 + |after|
  {
    if e == '"' then Some(('"', 1))
    else if e == '\\' then Some(('\\', 1))
    else if e == '/' then Some(('/', 1))
    else if e == 'b' then Some((8 as char, 1))
    else if e == 'f' then Some((12 as char, 1))
    else if e == 'n' then Some(('\n', 1))
    else if e == 'r' then Some(('\r', 1))
    else if e == 't' then Some(('\t', 1))
    else if e == 'u' && |after| >= 4 && Hex.AllHex(after[..4]) then
      var v := Hex.ParseHex(after[..4]);
      if 0xD800 <= v < 0xE000 then None else Some((v as char, 5))
    else None
  }

  /** The first character of a string body that is not its closing quote, and its length in the text. */
  function ReadChar(s: string): (r: Option<(char, nat)>)
    requires s != []
    ensures r.Some? ==> 1 <= r.value.1 <= |s|
  {
    if s[0] == '\\' then
      if |s| < 2 then None
      else match ReadEscape(s[1], s[2..])
        case None => None
        case Some((ch, n)) => Some((ch, n + 1))
    else if IsControl(s[0]) then None
    else Some((s[0], 1))
  }

  /** Reads a string body up to its closing quote: the string, and the text after the quote. */
  function Unescape(s: string): (r: Option<(string, string)>)
    ensures r.Some? ==> |r.value.1| < |s|
    decreases |s|
  {
    if s == [] then None
    else if s[0] == '"' then Some(([], s[1..]))
    else match ReadChar(s)
      case None => None
      case Some((ch, n)) =>
        match Unescape(s[n..])
        case None => None
        case Some((body, rest)) => Some(([ch] + body, rest))
  }

  /** Reads one message record from the front of s: the message, and the text after the record. */
  function ReadItem(s: string): (r: Option<(string, string)>)
    ensures r.Some? ==> |r.value.1| < |s|
  {
    match Skip(s, ItemOpen)
    case None => None
    case Some(body) =>
      match Unescape(body)
      case None => None
      case Some((m, rest)) =>
        match Skip(rest, "}}")
        case None => None
        case Some(after) => Some((m, after))
  }

  /** Reads the records after the first, each preceded by a comma, and the closing bracket: the messages, and the text after the bracket. */
  function ReadMore(s: string): Option<(seq<string>, string)>
    decreases |s|
  {
    if s != [] && s[0] == ']' then Some(([], s[1..]))
    else match Skip(s, ",")
      case None => None
      case Some(r) =>
        match ReadItem(r)
        case None => None
        case Some((m, after)) =>
          match ReadMore(after)
          case None => None
          case Some((ms, rest)) => Some(([m] + ms, rest))
  }

  /** Reads a message array from the front of s: the messages, and the text after the array. */
  function ReadArray(s: string): Option<(seq<string>, string)>
  {
    match Skip(s, "[")
    case None => None
    case Some(r) =>
      if r != [] && r[0] == ']' then Some(([], r[1..]))
      else match ReadItem(r)
        case None => None
        case Some((m, after)) =>
          match ReadMore(after)
          case None => None
          case Some((ms, rest)) => Some(([m] + ms, rest))
  }

  /** Reads a text that is exactly one message array. */
  function ParseMessages(s: string): Option<seq<string>>
  {
    match ReadArray(s)
    case Some((ms, rest)) => if rest == [] then Some(ms) else None
    case None => None
  }

  lemma SkipPrefix(p: string, rest: string)
    ensures Skip(p + rest, p) == Some(rest)
  {
    assert (p + rest)[..|p|] == p;
    assert (p + rest)[|p|..] == rest;
  }

  lemma Regroup(a: string, b: string, c: string, d: string, e: string)
    ensures a + b + c + d + e == a + (b + (c + (d + e)))
  {
  }

  /** `\u00xx` stands for the code 16 * x + x'. */
  lemma TwoDigitCode(hi: char, lo: char)
    requires Hex.IsHexDigit(hi) && Hex.IsHexDigit(lo)
    ensures Hex.AllHex(['0', '0', hi, lo])
    ensures Hex.ParseHex(['0', '0', hi, lo]) == 16 * Hex.DigitValue(hi) + Hex.DigitValue(lo)
  {
    var d := ['0', '0', hi, lo];
    assert d[..3] == ['0', '0', hi];
    assert d[..3][..2] == ['0', '0'];
    assert d[..3][..2][..1] == ['0'];
    assert d[..3][..2][..1][..0] == [];
    assert Hex.ParseHex(['0']) == 0;
    assert Hex.ParseHex(['0', '0']) == 0;
    assert Hex.ParseHex(['0', '0', hi]) == Hex.DigitValue(hi);
  }

  /** Each escape reads back as the character it stands for, whatever follows it. */
  lemma ReadEscapedChar(ch: char, tail: string)
    ensures ReadChar(EscapeChar(ch) + tail) == Some((ch, |EscapeChar(ch)|))
  {
    var e := EscapeChar(ch);
    var s := e + tail;
    assert s[0] == e[0];
    if e != [ch] {
      assert s[1] == e[1];
      assert s[2..] == e[2..] + tail;
      if IsControl(ch) && ch != 8 as char && ch != '\t' && ch != '\n' && ch != 12 as char && ch != '\r' {
        var hi := Hex.LowerDigit(ch as int / 16);
        var lo := Hex.LowerDigit(ch as int % 16);
        assert s[2..][..4] == ['0', '0', hi, lo];
        TwoDigitCode(hi, lo);
      }
    }
  }

  /** A string body followed by its closing quote reads back as the string. */
  lemma {:induction false} UnescapeEscape(m: string, tail: string)
    ensures Unescape(Escape(m) + ("\"" + tail)) == Some((m, tail))
    decreases |m|
  {
    var s := Escape(m) + ("\"" + tail);
    if m == [] {
      assert s == "\"" + tail;
      assert s[1..] == tail;
    } else {
      var e := EscapeChar(m[0]);
      var s' := Escape(m[1..]) + ("\"" + tail);
      assert s == e + s';
      ReadEscapedChar(m[0], s');
      assert s[0] == e[0];
      assert s[|e|..] == s';
      UnescapeEscape(m[1..], tail);
      assert [m[0]] + m[1..] == m;
    }
  }

  /** A record reads back as its message, whatever follows it. */
  lemma ReadItemOf(m: string, rest: string)
    ensures ReadItem(Item(m) + rest) == Some((m, rest))
  {
    Regroup(ItemOpen, Escape(m), "\"", "}}", rest);
    SkipPrefix(ItemOpen, Escape(m) + ("\"" + ("}}" + rest)));
    UnescapeEscape(m, "}}" + rest);
    SkipPrefix("}}", rest);
  }

  lemma {:induction false} ReadMoreOf(ms: seq<string>, rest: string)
    ensures ReadMore(MoreItems(ms) + ("]" + rest)) == Some((ms, rest))
    decreases |ms|
  {
    var s := MoreItems(ms) + ("]" + rest);
    if ms == [] {
      assert s == "]" + rest;
      assert s[1..] == rest;
    } else {
      var after := MoreItems(ms[1..]) + ("]" + rest);
      assert s == "," + (Item(ms[0]) + after);
      assert s[0] == ',';
      SkipPrefix(",", Item(ms[0]) + after);
      ReadItemOf(ms[0], after);
      ReadMoreOf(ms[1..], rest);
      assert [ms[0]] + ms[1..] == ms;
    }
  }

  /** The empty list reads back, whatever follows it. */
  lemma ReadEmptyArray(rest: string)
    ensures ReadArray(MessagesJson([]) + rest) == Some(([], rest))
  {
    assert MessagesJson([]) + rest == "[" + ("]" + rest);
    SkipPrefix("[", "]" + rest);
    assert ("]" + rest)[1..] == rest;
  }

  /** A non-empty list reads back: its first record, then the others. */
  lemma ReadNonEmptyArray(ms: seq<string>, rest: string)
    requires ms != []
    ensures ReadArray(MessagesJson(ms) + rest) == Some((ms, rest))
  {
    var after := MoreItems(ms[1..]) + ("]" + rest);
    assert MessagesJson(ms) + rest == "[" + (Item(ms[0]) + after);
    SkipPrefix("[", Item(ms[0]) + after);
    ReadItemOf(ms[0], after);
    assert (Item(ms[0]) + after)[0] == '{';
    ReadMoreOf(ms[1..], rest);
    assert [ms[0]] + ms[1..] == ms;
  }

  /** The serialised list reads back as the messages, in their order, whatever follows it. */
  lemma ReadArrayOf(ms: seq<string>, rest: string)
    ensures ReadArray(MessagesJson(ms) + rest) == Some((ms, rest))
  {
    if ms == [] {
      ReadEmptyArray(rest);
    } else {
      ReadNonEmptyArray(ms, rest);
    }
  }

  /** Reading the serialised list gives back the messages, in their order. */
  lemma ParseMessagesJson(ms: seq<string>)
    ensures ParseMessages(MessagesJson(ms)) == Some(ms)
  {
    ReadArrayOf(ms, "");
    assert MessagesJson(ms) + "" == MessagesJson(ms);
  }

  /** Serialisation is injective: different message lists give different texts. */
  lemma MessagesJsonInjective(ms: seq<string>, ns: seq<string>)
    requires MessagesJson(ms) == MessagesJson(ns)
    ensures ms == ns
  {
    ParseMessagesJson(ms);
    ParseMessagesJson(ns);
  }

}
