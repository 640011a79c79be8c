/**
 * The static preset table (src/templates.js): five named presets, each a
 * fragment of four configuration fields that applying the preset overwrites.
 */
module Templates {
  import opened Wrappers
  import Color
  import Hex
  import Fonts

  /** One preset: the four fields it sets. */
  datatype Preset = Preset(backgroundColor: string, textColor: string, brandColor: string, fontFamily: string)

  /** The table, in declaration order (src/templates.js:3-34). */
  function Table(): (entries: seq<(string, Preset)>)
    ensures |entries| == 5
    ensures forall i, j | 0 <= i < j < |entries| :: entries[i].0 != entries[j].0
  {
    [
      ("Default", Preset("#1F2428", "#FFFFFF", "#4375F5", "sans-serif")),
      ("Red", Preset("#FFEBEE", "#B71C1C", "#F44336", "Arial, sans-serif")),
      ("Blue", Preset("#E3F2FD", "#0D47A1", "#2196F3", "Helvetica, sans-serif")),
      ("Green", Preset("#E8F5E9", "#1B5E20", "#4CAF50", "Verdana, sans-serif")),
      ("Yellow", Preset("#FFFDE7", "#F57F17", "#FFEB3B", "Georgia, serif"))
    ]
  }

  /** The preset names, in order. */
  function Names(): (names: seq<string>)
    ensures |names| == |Table()|
    ensures forall i | 0 <= i < |names| :: names[i] == Table()[i].0
  {
    seq(|Table()|, i requires 0 <= i < |Table()| => Table()[i].0)
  }

  /** `templates[name]`, searching entries from index i on. */
  function LookupFrom(name: string, i: nat): (p: Option<Preset>)
    requires i <= |Table()|
    ensures p.Some? <==> exists j | i <= j < |Table()| :: Table()[j].0 == name
    ensures p.Some? ==> exists j | i <= j < |Table()| :: Table()[j] == (name, p.value)
    decreases |Table()| - i
  {
    if i == |Table()| then None
    else if Table()[i].0 == name then Some(Table()[i].1)
    else LookupFrom(name, i + 1)
  }

  /** `templates[name]`: the preset of that name, or None for any other string. */
  function Lookup(name: string): (p: Option<Preset>)
    ensures p.Some? <==> name in Names()
    ensures p.Some? ==> exists j | 0 <= j < |Table()| :: Table()[j] == (name, p.value)
  {
    LookupFrom(name, 0)
  }

  /** The table holds exactly five presets, in this order. */
  lemma PresetNames()
    ensures Names() == ["Default", "Red", "Blue", "Green", "Yellow"]
  {
  }

  /** The names are distinct, so each name selects exactly one entry. */
  lemma NamesDistinct()
    ensures forall i, j | 0 <= i < j < |Names()| :: Names()[i] != Names()[j]
  {
    PresetNames();
  }

  /** Preset Red, field by field (src/templates.js:10-15). */
  lemma RedPreset()
    ensures Lookup("Red") == Some(Preset("#FFEBEE", "#B71C1C", "#F44336", "Arial, sans-serif"))
  {
    assert Table()[0].0 != "Red";
  }

  /** A string that names no preset finds nothing. */
  lemma UnknownName(name: string)
    requires name !in ["Default", "Red", "Blue", "Green", "Yellow"]
    ensures Lookup(name) == None
  {
    PresetNames();
  }

  /** A preset's three colours are `#` and six hex digits and its font is one of the selector's options. */
  predicate WellFormed(p: Preset)
  {
    && Color.IsHexColor(p.backgroundColor)
    && Color.IsHexColor(p.textColor)
    && Color.IsHexColor(p.brandColor)
    && p.fontFamily in Fonts.Options()
  }

  /** `#` and six hex digits, checked character by character. */
  lemma HexColorByChars(s: string)
    requires |s| == 7 && s[0] == '#'
    requires Hex.IsHexDigit(s[1]) && Hex.IsHexDigit(s[2]) && Hex.IsHexDigit(s[3])
    requires Hex.IsHexDigit(s[4]) && Hex.IsHexDigit(s[5]) && Hex.IsHexDigit(s[6])
    ensures Color.IsHexColor(s)
  {
    assert forall i | 0 <= i < 6 :: s[1..][i] == s[i + 1];
  }

  /** The three colours of one preset are hex colours. */
  lemma PresetColors(p: Preset)
    requires |p.backgroundColor| == 7 && p.backgroundColor[0] == '#'
    requires forall i | 1 <= i < 7 :: Hex.IsHexDigit(p.backgroundColor[i])
    requires |p.textColor| == 7 && p.textColor[0] == '#'
    requires forall i | 1 <= i < 7 :: Hex.IsHexDigit(p.textColor[i])
    requires |p.brandColor| == 7 && p.brandColor[0] == '#'
    requires forall i | 1 <= i < 7 :: Hex.IsHexDigit(p.brandColor[i])
    ensures Color.IsHexColor(p.backgroundColor) && Color.IsHexColor(p.textColor) && Color.IsHexColor(p.brandColor)
  {
    HexColorByChars(p.backgroundColor);
    HexColorByChars(p.textColor);
    HexColorByChars(p.brandColor);
  }

  /** The colours of preset j are hex colours. */
  lemma {:induction false} EntryColors(j: nat)
    requires j < |Table()|
    ensures Color.IsHexColor(Table()[j].1.backgroundColor)
    ensures Color.IsHexColor(Table()[j].1.textColor)
    ensures Color.IsHexColor(Table()[j].1.brandColor)
  {
    PresetColors(Table()[j].1);
  }

  /** The font of preset j is one of the selector's options. */
  lemma {:induction false} EntryFont(j: nat)
    requires j < |Table()|
    ensures Table()[j].1.fontFamily in Fonts.Options()
  {
    var o := Fonts.Options();
    if j == 0 {
      assert o[0] == "sans-serif";
    } else if j == 1 {
      assert o[1] == "Arial, sans-serif";
    } else if j == 2 {
      assert o[2] == "Helvetica, sans-serif";
    } else if j == 3 {
      assert o[6] == "Verdana, sans-serif";
    } else {
      assert o[5] == "Georgia, serif";
    }
  }

  /** Every entry of the table is well formed. */
  lemma TableWellFormed()
    ensures forall j | 0 <= j < |Table()| :: WellFormed(Table()[j].1)
  {
    forall j | 0 <= j < |Table()|
      ensures WellFormed(Table()[j].1)
    {
      EntryColors(j);
      EntryFont(j);
    }
  }

  /**
   * Every preset colour is a valid input to colour lightening, and every
   * preset font is one of the selector's options.
   */
  lemma PresetsWellFormed(name: string)
    requires Lookup(name).Some?
    ensures Color.IsHexColor(Lookup(name).value.brandColor)
    ensures WellFormed(Lookup(name).value)
  {
    TableWellFormed();
  }

  /** The initial font family, `sans-serif`, is one of the selector's options. */
  lemma InitialFontIsOption()
    ensures "sans-serif" in Fonts.Options()
  {
    assert Fonts.Options()[0] == "sans-serif";
  }

}
