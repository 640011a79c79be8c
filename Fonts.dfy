/**
 * The font selector (src/components/FontSelector.jsx): a fixed list of font
 * stacks; each option's value is the whole stack and its label is the text
 * before the first comma, `f.split(',')[0]`.
 */
module Fonts {

  /** The option list, in display order (src/components/FontSelector.jsx:14-22). */
  function Options(): (fonts: seq<string>)
    ensures |fonts| == 7
    ensures forall i, j | 0 <= i < j < |fonts| :: fonts[i] != fonts[j]
  {
    [
      "sans-serif",
      "Arial, sans-serif",
      "Helvetica, sans-serif",
      "Courier New, monospace",
      "Times New Roman, serif",
      "Georgia, serif",
      "Verdana, sans-serif"
    ]
  }

  /** The index of the first comma of f at or after i, or |f| if there is none. */
  function CommaFrom(f: string, i: nat): (j: nat)
    requires i <= |f|
    ensures i <= j <= |f|
    ensures forall k | i <= k < j :: f[k] != ','
    ensures j < |f| ==> f[j] == ','
    decreases |f| - i
  {
    if i == |f| || f[i] == ',' then i else CommaFrom(f, i + 1)
  }

  /** `f.split(',')[0]`: the longest prefix of f without a comma. */
  function Label(f: string): (caption: string)
    ensures caption <= f
    ensures ',' !in caption
    ensures |caption| < |f| ==> f[|caption|] == ','
  {
    f[..CommaFrom(f, 0)]
  }

  /** A stack without a comma is labelled with itself. */
  lemma LabelWithoutComma(f: string)
    requires ',' !in f
    ensures Label(f) == f
  {
  }

  /** Scanning from inside the text before the first comma stops at that comma. */
  lemma {:induction false} CommaAt(f: string, k: nat, i: nat)
    requires i <= k < |f| && f[k] == ','
    requires forall j | i <= j < k :: f[j] != ','
    ensures CommaFrom(f, i) == k
    decreases k - i
  {
    if i < k {
      CommaAt(f, k, i + 1);
    }
  }

  /** The label of a stack is the text before its first comma. */
  lemma LabelAt(f: string, k: nat)
    requires k < |f| && f[k] == ','
    requires forall j | 0 <= j < k :: f[j] != ','
    ensures Label(f) == f[..k]
  {
    CommaAt(f, k, 0);
  }

  datatype FontOption = FontOption(value: string, caption: string)

  /** The rendered `<option>` elements (src/components/FontSelector.jsx:28-32). */
  function Choices(): (choices: seq<FontOption>)
    ensures |choices| == |Options()|
    ensures forall i | 0 <= i < |choices| :: choices[i].value == Options()[i] && choices[i].caption == Label(choices[i].value)
  {
    seq(|Options()|, i requires 0 <= i < |Options()| => FontOption(Options()[i], Label(Options()[i])))
  }

  /** The label the selector shows for option i: the family name alone. */
  lemma ChoiceLabel(i: nat)
    requires i < |Options()|
    ensures Choices()[i].caption
            == ["sans-serif", "Arial", "Helvetica", "Courier New", "Times New Roman", "Georgia", "Verdana"][i]
  {
    var f := Options()[i];
    if i == 0 {
      LabelWithoutComma(f);
    } else if i == 1 {
      assert f[..5] == "Arial";
      LabelAt(f, 5);
    } else if i == 2 {
      assert f[..9] == "Helvetica";
      LabelAt(f, 9);
    } else if i == 3 {
      assert f[..11] == "Courier New";
      LabelAt(f, 11);
    } else if i == 4 {
      assert f[..15] == "Times New Roman";
      LabelAt(f, 15);
    } else if i == 5 {
      assert f[..7] == "Georgia";
      LabelAt(f, 7);
    } else {
      assert f[..7] == "Verdana";
      LabelAt(f, 7);
    }
  }

}
