/**
 * The editor's configuration record (src/App.jsx:23-57) and the three rules that
 * rewrite it: applying a theme (src/App.jsx:83-101), applying a preset
 * (src/App.jsx:108-118) and the effect that re-derives the theme-dependent
 * colours whenever the theme changes (src/App.jsx:123-133). Each rule is one
 * atomic update of the whole record.
 */
module Configuration {
  import opened Wrappers
  import Color
  import Fonts
  import Templates

  /** Every field of the editor's state that feeds the generated artifacts. */
  datatype Config = Config(
    backgroundColor: string,
    textColor: string,
    brandColor: string,
    fontFamily: string,
    theme: string,
    selectedTemplate: string,
    embedMode: string,
    chatWidth: int,
    autoOpen: bool,
    assistantName: string,
    assistantDescription: string,
    assistantLogo: string,
    assistantAvatarImage: string,
    assistantDescriptionTextColor: string,
    proactiveMessages: seq<string>,
    projectID: string,
    userMessageBgColor: string,
    userMessageTextColor: string,
    assistantMessageBgColor: string,
    assistantMessageTextColor: string,
    headerColor: string,
    footerColor: string,
    titleTextColor: string,
    endChatTextColor: string,
    userInputPlaceholderText: string,
    launcherColor: string,
    launcherSize: int,
    launcherImage: string)

  /** The brand colour the editor starts with; the header colour starts as the same value. */
  const InitialBrand := "#4375F5"

  /** The logo shown when none is chosen. */
  const DefaultLogo := "https://i.postimg.cc/Bn95VC86/Styleflow-VF.png"

  /** The state the editor starts in. */
  function Initial(): (c: Config)
    ensures c.headerColor == c.brandColor
    ensures c.theme == "Light" && c.selectedTemplate == "Default"
    ensures c.proactiveMessages == []
  {
    Config(
      backgroundColor := "#FFFFFF",
      textColor := "#1F2428",
      brandColor := InitialBrand,
      fontFamily := "sans-serif",
      theme := "Light",
      selectedTemplate := "Default",
      embedMode := "overlay",
      chatWidth := 380,
      autoOpen := true,
      assistantName := "Assistant",
      assistantDescription := "How can I assist you today?",
      assistantLogo := DefaultLogo,
      assistantAvatarImage := "",
      assistantDescriptionTextColor := "#000000",
      proactiveMessages := [],
      projectID := "66fa5d8dd6785bb2984c7cfb",
      userMessageBgColor := "#E0F7FA",
      userMessageTextColor := "#006064",
      assistantMessageBgColor := "#FFF3E0",
      assistantMessageTextColor := "#E65100",
      headerColor := InitialBrand,
      footerColor := "",
      titleTextColor := "#1F2428",
      endChatTextColor := "#000000",
      userInputPlaceholderText := "Message...",
      launcherColor := "#4375F5",
      launcherSize := 60,
      launcherImage := "")
  }

  /**
   * The invariant the editing rules keep: the brand colour is a valid input to
   * colour lightening and the font is one of the selector's options.
   */
  predicate Valid(c: Config)
  {
    Color.IsHexColor(c.brandColor) && c.fontFamily in Fonts.Options()
  }

  lemma InitialValid()
    ensures Valid(Initial())
  {
    assert Fonts.Options()[0] == "sans-serif";
  }

  /** r differs from c at most in the seven fields a theme writes. */
  predicate OnlyThemeFieldsChanged(c: Config, r: Config)
  {
    r == c.(backgroundColor := r.backgroundColor, textColor := r.textColor, footerColor := r.footerColor,
            headerColor := r.headerColor, endChatTextColor := r.endChatTextColor,
            assistantDescriptionTextColor := r.assistantDescriptionTextColor, theme := r.theme)
  }

  /** r differs from c at most in the three fields the theme effect writes. */
  predicate OnlyEffectFieldsChanged(c: Config, r: Config)
  {
    r == c.(footerColor := r.footerColor, endChatTextColor := r.endChatTextColor,
            assistantDescriptionTextColor := r.assistantDescriptionTextColor)
  }

  /** r differs from c at most in the six fields a preset writes. */
  predicate OnlyPresetFieldsChanged(c: Config, r: Config)
  {
    r == c.(backgroundColor := r.backgroundColor, textColor := r.textColor, brandColor := r.brandColor,
            fontFamily := r.fontFamily, headerColor := r.headerColor, selectedTemplate := r.selectedTemplate)
  }

  /** `applyTheme(selected)`: 'Dark' and 'Light' overwrite the theme colours; any other string is ignored. */
  function ThemeApplied(c: Config, selected: string): (r: Config)
    ensures OnlyThemeFieldsChanged(c, r)
    ensures selected == "Dark" ==>
      && r.theme == "Dark" && r.backgroundColor == "#1F2428" && r.textColor == "#FFFFFF"
      && r.footerColor == "#4375F5" && r.endChatTextColor == "#FFFFFF" && r.assistantDescriptionTextColor == "#FFFFFF"
    ensures selected == "Light" ==>
      && r.theme == "Light" && r.backgroundColor == "#FFFFFF" && r.textColor == "#1F2428"
      && r.footerColor == "" && r.endChatTextColor == "#000000" && r.assistantDescriptionTextColor == "#000000"
    ensures selected in {"Dark", "Light"} ==> r.headerColor == c.brandColor
    ensures selected !in {"Dark", "Light"} ==> r == c
  {
    if selected == "Dark" then
      c.(backgroundColor := "#1F2428", textColor := "#FFFFFF", footerColor := "#4375F5", headerColor := c.brandColor,
         endChatTextColor := "#FFFFFF", assistantDescriptionTextColor := "#FFFFFF", theme := "Dark")
    else if selected == "Light" then
      c.(backgroundColor := "#FFFFFF", textColor := "#1F2428", footerColor := "", headerColor := c.brandColor,
         endChatTextColor := "#000000", assistantDescriptionTextColor := "#000000", theme := "Light")
    else
      c
  }

  /** The theme effect: footer, end-chat and description colours follow the theme; every theme but 'Dark' counts as light. */
  function ThemeEffect(c: Config): (r: Config)
    ensures OnlyEffectFieldsChanged(c, r)
    ensures c.theme == "Dark" ==>
      r.footerColor == "#4375F5" && r.endChatTextColor == "#FFFFFF" && r.assistantDescriptionTextColor == "#FFFFFF"
    ensures c.theme != "Dark" ==>
      r.footerColor == "" && r.endChatTextColor == "#000000" && r.assistantDescriptionTextColor == "#000000"
  {
    if c.theme == "Dark" then
      c.(footerColor := "#4375F5", endChatTextColor := "#FFFFFF", assistantDescriptionTextColor := "#FFFFFF")
    else
      c.(footerColor := "", endChatTextColor := "#000000", assistantDescriptionTextColor := "#000000")
  }

  /** `applyTemplate(name)`: a known preset overwrites its four fields and the header; an unknown name changes nothing. */
  function TemplateApplied(c: Config, name: string): (r: Config)
    ensures OnlyPresetFieldsChanged(c, r)
    ensures Templates.Lookup(name).None? ==> r == c
    ensures Templates.Lookup(name).Some? ==>
      var p := Templates.Lookup(name).value;
      && r.backgroundColor == p.backgroundColor && r.textColor == p.textColor
      && r.brandColor == p.brandColor && r.fontFamily == p.fontFamily
      && r.headerColor == p.brandColor && r.selectedTemplate == name
  {
    match Templates.Lookup(name)
    case None => c
    case Some(p) =>
      c.(backgroundColor := p.backgroundColor, textColor := p.textColor, brandColor := p.brandColor,
         fontFamily := p.fontFamily, headerColor := p.brandColor, selectedTemplate := name)
  }

  /** Applying a theme twice is applying it once. */
  lemma ThemeIdempotent(c: Config, selected: string)
    ensures ThemeApplied(ThemeApplied(c, selected), selected) == ThemeApplied(c, selected)
  {
  }

  /** Applying a preset twice is applying it once. */
  lemma TemplateIdempotent(c: Config, name: string)
    ensures TemplateApplied(TemplateApplied(c, name), name) == TemplateApplied(c, name)
  {
  }

  /**
   * After a theme is applied the effect has nothing left to change: it writes the
   * same footer, end-chat and description colours the theme just wrote.
   */
  lemma EffectAgreesWithTheme(c: Config, selected: string)
    requires selected in {"Dark", "Light"}
    ensures ThemeEffect(ThemeApplied(c, selected)) == ThemeApplied(c, selected)
  {
  }

  /** Theme application keeps the invariant: it never writes the brand colour or the font. */
  lemma ThemeKeepsValid(c: Config, selected: string)
    requires Valid(c)
    ensures Valid(ThemeApplied(c, selected))
  {
  }

  /** Preset application keeps the invariant: every preset's brand colour and font are valid. */
  lemma {:induction false} TemplateKeepsValid(c: Config, name: string)
    requires Valid(c)
    ensures Valid(TemplateApplied(c, name))
  {
    if Templates.Lookup(name).Some? {
      Templates.PresetsWellFormed(name);
    }
  }

  /** The effect keeps the invariant. */
  lemma EffectKeepsValid(c: Config)
    requires Valid(c)
    ensures Valid(ThemeEffect(c))
  {
  }

  /**
   * The editor's state as an object whose handlers overwrite fields one setter
   * at a time.
   */
  class Editor {
    var config: Config

    constructor()
      ensures config == Initial()
    {
      config := Initial();
    }

    /** `applyTheme`: one setter call per field (src/App.jsx:83-101). */
    method ApplyTheme(selected: string)
      modifies this
      ensures config == ThemeApplied(old(config), selected)
    {
      if selected == "Dark" {
        var brand := config.brandColor;
        config := config.(backgroundColor := "#1F2428");
        config := config.(textColor := "#FFFFFF");
        config := config.(footerColor := "#4375F5");
        config := config.(headerColor := brand);
        config := config.(endChatTextColor := "#FFFFFF");
        config := config.(assistantDescriptionTextColor := "#FFFFFF");
        config := config.(theme := "Dark");
      } else if selected == "Light" {
        var brand := config.brandColor;
        config := config.(backgroundColor := "#FFFFFF");
        config := config.(textColor := "#1F2428");
        config := config.(footerColor := "");
        config := config.(headerColor := brand);
        config := config.(endChatTextColor := "#000000");
        config := config.(assistantDescriptionTextColor := "#000000");
        config := config.(theme := "Light");
      }
    }

    /** `applyTemplate`: look the name up, then one setter call per field (src/App.jsx:108-118). */
    method ApplyTemplate(name: string)
      modifies this
      ensures config == TemplateApplied(old(config), name)
    {
      var template := Templates.Lookup(name);
      if template.Some? {
        var p := template.value;
        config := config.(backgroundColor := p.backgroundColor);
        config := config.(textColor := p.textColor);
        config := config.(brandColor := p.brandColor);
        config := config.(fontFamily := p.fontFamily);
        config := config.(headerColor := p.brandColor);
        config := config.(selectedTemplate := name);
      }
    }

    /** The theme effect, run after the theme changes (src/App.jsx:123-133). */
    method RunThemeEffect()
      modifies this
      ensures config == ThemeEffect(old(config))
    {
      if config.theme == "Dark" {
        config := config.(footerColor := "#4375F5");
        config := config.(endChatTextColor := "#FFFFFF");
        config := config.(assistantDescriptionTextColor := "#FFFFFF");
      } else {
        config := config.(footerColor := "");
        config := config.(endChatTextColor := "#000000");
        config := config.(assistantDescriptionTextColor := "#000000");
      }
    }
  }

  /** One user action that rewrites the record. */
  datatype Edit = ApplyTheme(selected: string) | ApplyTemplate(name: string) | ThemeChanged

  /** The record after one action; every action keeps the invariant. */
  function Step(c: Config, e: Edit): (r: Config)
    ensures Valid(c) ==> Valid(r)
  {
    match e
    case ApplyTheme(t) =>
      (if Valid(c) then ThemeKeepsValid(c, t); ThemeApplied(c, t) else ThemeApplied(c, t))
    case ApplyTemplate(n) =>
      (if Valid(c) then TemplateKeepsValid(c, n); TemplateApplied(c, n) else TemplateApplied(c, n))
    case ThemeChanged =>
      (if Valid(c) then EffectKeepsValid(c); ThemeEffect(c) else ThemeEffect(c))
  }

  /** The record after a sequence of actions, first to last: any sequence keeps the invariant. */
  function Replay(c: Config, edits: seq<Edit>): (r: Config)
    ensures Valid(c) ==> Valid(r)
    decreases |edits|
  {
    if edits == [] then c else Replay(Step(c, edits[0]), edits[1..])
  }

  /** In particular every state the editor reaches from its initial state is valid. */
  lemma ReachableValid(edits: seq<Edit>)
    ensures Valid(Replay(Initial(), edits))
  {
    InitialValid();
  }

}
