/**
 * The proactive-message editor (src/components/ProactiveMessageEditor.jsx):
 * a list of messages held by the app (src/App.jsx:40) and a draft held by the
 * editor. Adding appends the trimmed draft when it is not blank and clears the
 * draft; removing filters out the message at one index.
 *
 * Trimming is ECMAScript's `String.prototype.trim`: it strips, from both
 * ends, the characters of the WhiteSpace and LineTerminator productions.
 */
module ProactiveMessages {

  /**
   * WhiteSpace (tab, vertical tab, form feed, space, no-break space, the byte
   * order mark and the other space separators of Unicode category Zs) and
   * LineTerminator (line feed, carriage return, line and paragraph separators).
   */
  predicate IsSpace(ch: char)
  {
    || ch == '\t' || ch == 11 as char || ch == 12 as char || ch == ' ' || ch == 0xA0 as char || ch == 0xFEFF as char
    || ch == 0x1680 as char || (0x2000 as char <= ch <= 0x200A as char) || ch == 0x202F as char || ch == 0x205F as char
    || ch == 0x3000 as char
    || ch == '\n' || ch == '\r' || ch == 0x2028 as char || ch == 0x2029 as char
  }

  /** s with its leading white space removed: the longest suffix of s that does not start with a space. */
  function TrimStart(s: string): (r: string)
    ensures |r| <= |s| && r == s[|s| - |r|..]
    ensures forall i | 0 <= i < |s| - |r| :: IsSpace(s[i])
    ensures r == [] || !IsSpace(r[0])
    decreases |s|
  {
    if s != [] && IsSpace(s[0]) then TrimStart(s[1..]) else s
  }

  /** s with its trailing white space removed: the longest prefix of s that does not end with a space. */
  function TrimEnd(s: string): (r: string)
    ensures r <= s
    ensures forall i | |r| <= i < |s| :: IsSpace(s[i])
    ensures r == [] || !IsSpace(r[|r| - 1])
    decreases |s|
  {
    if s != [] && IsSpace(s[|s| - 1]) then TrimEnd(s[..|s| - 1]) else s
  }

  /** `s.trim()`: no longer than s, and without white space at either end. */
  function Trim(s: string): (r: string)
    ensures |r| <= |s|
    ensures IsTrimmed(r)
  {
    TrimEndKeepsStart(TrimStart(s));
    TrimEnd(TrimStart(s))
  }

  /** A text neither starting nor ending with white space. */
  predicate IsTrimmed(s: string)
  {
    s == [] || (!IsSpace(s[0]) && !IsSpace(s[|s| - 1]))
  }

  /** Removing trailing space keeps a first character that is not a space. */
  lemma TrimEndKeepsStart(s: string)
    requires s == [] || !IsSpace(s[0])
    ensures TrimEnd(s) == [] || TrimEnd(s)[0] == s[0]
  {
  }

  /** A prefix r of the suffix s[i..], followed there by white space only, sits in s at i. */
  lemma PrefixOfSuffix(s: string, i: nat, t: string, r: string)
    requires i <= |s| && t == s[i..] && r <= t
    requires forall k | |r| <= k < |t| :: IsSpace(t[k])
    ensures i + |r| <= |s| && r == s[i..i + |r|]
    ensures forall k | i + |r| <= k < |s| :: IsSpace(s[k])
  {
    assert r == t[..|r|];
    forall k | i + |r| <= k < |s|
      ensures IsSpace(s[k])
    {
      assert s[k] == t[k - i];
    }
  }

  /** The trimmed text is the text between two runs of white space: a piece of s with only white space around it. */
  lemma TrimIsInner(s: string)
    ensures |s| - |TrimStart(s)| + |Trim(s)| <= |s|
    ensures Trim(s) == s[|s| - |TrimStart(s)|..|s| - |TrimStart(s)| + |Trim(s)|]
    ensures forall k | 0 <= k < |s| - |TrimStart(s)| :: IsSpace(s[k])
    ensures forall k | |s| - |TrimStart(s)| + |Trim(s)| <= k < |s| :: IsSpace(s[k])
  {
    var t := TrimStart(s);
    PrefixOfSuffix(s, |s| - |t|, t, TrimEnd(t));
  }

  /** A text is blank, trimming to nothing, exactly when it is all white space. */
  lemma TrimBlank(s: string)
    ensures Trim(s) == [] <==> forall k | 0 <= k < |s| :: IsSpace(s[k])
  {
    TrimIsInner(s);
    var t := TrimStart(s);
    assert t == [] || t[0] == s[|s| - |t|];
  }

  /** A trimmed text is its own trim. */
  lemma TrimOfTrimmed(s: string)
    requires IsTrimmed(s)
    ensures Trim(s) == s
  {
  }

  /** Trimming twice is trimming once. */
  lemma TrimIdempotent(s: string)
    ensures Trim(Trim(s)) == Trim(s)
  {
    TrimOfTrimmed(Trim(s));
  }

  /** The invariant of the list: every message is non-empty and trimmed. */
  predicate AllTrimmed(ms: seq<string>)
  {
    forall k | 0 <= k < |ms| :: ms[k] != [] && IsTrimmed(ms[k])
  }

  /** `addMessage` on the list: the trimmed draft appended when it is not blank, else the list as it was. */
  function Added(ms: seq<string>, draft: string): (r: seq<string>)
    ensures Trim(draft) != [] ==> |r| == |ms| + 1 && r[..|ms|] == ms && r[|ms|] == Trim(draft)
    ensures Trim(draft) == [] ==> r == ms
  {
    if Trim(draft) != [] then ms + [Trim(draft)] else ms
  }

  /** `proactiveMessages.filter((_, i) => i !== index)`: each element is kept unless its position is index. */
  function Without(ms: seq<string>, index: int): (r: seq<string>)
    ensures |r| <= |ms|
    decreases |ms|
  {
    if ms == [] then [] else (if index == 0 then [] else [ms[0]]) + Without(ms[1..], index - 1)
  }

  /** Removing at a position in range deletes exactly that element; the others keep their order. */
  lemma {:induction false} WithoutInRange(ms: seq<string>, index: int)
    requires 0 <= index < |ms|
    ensures Without(ms, index) == ms[..index] + ms[index + 1..]
    decreases |ms|
  {
    if index == 0 {
      OutOfRange(ms[1..], -1);
      assert ms[index + 1..] == ms[1..];
    } else {
      WithoutInRange(ms[1..], index - 1);
      assert ms[1..][..index - 1] == ms[1..index];
      assert ms[1..][index..] == ms[index + 1..];
      assert [ms[0]] + ms[1..index] == ms[..index];
    }
  }

  /** Removing at a position out of range changes nothing. */
  lemma {:induction false} OutOfRange(ms: seq<string>, index: int)
    requires index < 0 || index >= |ms|
    ensures Without(ms, index) == ms
    decreases |ms|
  {
    if ms != [] {
      OutOfRange(ms[1..], index - 1);
      assert [ms[0]] + ms[1..] == ms;
    }
  }

  /** The list shrinks by one exactly when the index is in range. */
  lemma WithoutLength(ms: seq<string>, index: int)
    ensures |Without(ms, index)| == |ms| - 1 <==> 0 <= index < |ms|
  {
    if 0 <= index < |ms| {
      WithoutInRange(ms, index);
    } else {
      OutOfRange(ms, index);
    }
  }

  /** Adding keeps every message non-empty and trimmed. */
  lemma AddedKeepsTrimmed(ms: seq<string>, draft: string)
    requires AllTrimmed(ms)
    ensures AllTrimmed(Added(ms, draft))
  {
  }

  /** Removing keeps every message non-empty and trimmed. */
  lemma WithoutKeepsTrimmed(ms: seq<string>, index: int)
    requires AllTrimmed(ms)
    ensures AllTrimmed(Without(ms, index))
  {
    if 0 <= index < |ms| {
      WithoutInRange(ms, index);
      var r := Without(ms, index);
      forall k | 0 <= k < |r|
        ensures r[k] != [] && IsTrimmed(r[k])
      {
        assert r[k] == if k < index then ms[k] else ms[k + 1];
      }
    } else {
      OutOfRange(ms, index);
    }
  }

  /** The list the app holds and the draft the editor holds, updated through their setters. */
  class MessageEditor {
    var messages: seq<string>
    var draft: string

    /** Every stored message is non-empty and trimmed. */
    predicate Valid()
      reads this
    {
      AllTrimmed(messages)
    }

    /** The app starts with no messages (src/App.jsx:40) and the editor with an empty draft. */
    constructor()
      ensures messages == [] && draft == []
      ensures Valid()
    {
      messages := [];
      draft := [];
    }

    /** The input's change handler: the draft becomes the typed text. */
    method SetDraft(text: string)
      modifies this
      ensures draft == text && messages == old(messages)
      ensures old(Valid()) ==> Valid()
    {
      draft := text;
    }

    /** `addMessage`. */
    method AddMessage()
      modifies this
      ensures messages == Added(old(messages), old(draft))
      ensures draft == if Trim(old(draft)) != [] then [] else old(draft)
      ensures old(Valid()) ==> Valid()
    {
      var text := Trim(draft);
      if text != [] {
        if Valid() {
          AddedKeepsTrimmed(messages, draft);
        }
        messages := messages + [text];
        draft := [];
      }
    }

    /** `removeMessage(index)`. */
    method RemoveMessage(index: int)
      modifies this
      ensures messages == Without(old(messages), index)
      ensures draft == old(draft)
      ensures old(Valid()) ==> Valid()
    {
      if Valid() {
        WithoutKeepsTrimmed(messages, index);
      }
      messages := Without(messages, index);
    }
  }

}
