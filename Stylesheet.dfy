/**
 * Stylesheet generation (src/App.jsx:140-290): the configuration record is
 * rendered as one CSS text, a `:host` block of custom properties followed by
 * fixed rule blocks. The record is spliced in at these places: the values of
 * the custom properties, the launcher colour, the launcher image rule, the
 * launcher size (as width and as height), the chat background colour, the
 * avatar image and the encoded placeholder text (in both placeholder rules).
 *
 * The fixed text between those places is kept in a `Fixed` record.
 * `GenerateCSS` is `Render` with the texts of the source template,
 * `SourceText()`, and every property below is proved of `Render` for any
 * fixed text, so in particular of `GenerateCSS`.
 */
module Stylesheet {
  import opened Wrappers
  import opened Text
  import Color
  import Decimal
  import UriComponent
  import opened Configuration

  /** `Math.round(2.55 * 20)`: the hover colour is the brand colour lightened by twenty percent. */
  const HoverAmount := 51

  /** One custom-property declaration of the `:host` block, on its own indented line. */
  function Decl(name: string, value: string): string
  {
    "        " + name + ": " + value + ";\n"
  }

  /** A length in pixels, as a template literal prints an integer followed by `px`. */
  function Px(n: int): string
  {
    Decimal.IntToString(n) + "px"
  }

  /** `--dark-background`: dark exactly for the 'Dark' theme. */
  function DarkBackground(theme: string): (v: string)
    ensures v == "#1F2428" <==> theme == "Dark"
    ensures v == "#FFFFFF" <==> theme != "Dark"
  {
    if theme == "Dark" then "#1F2428" else "#FFFFFF"
  }

  /** `--light-gray`: the light grey exactly for the 'Light' theme, a dark grey for any other. */
  function LightGray(theme: string): (v: string)
    ensures v == "#F4F4F4" <==> theme == "Light"
    ensures v == "#303030" <==> theme != "Light"
  {
    if theme == "Light" then "#F4F4F4" else "#303030"
  }

  /** The custom properties of the `:host` block, in order, with their values. */
  function HostDecls(c: Config): (ds: seq<(string, string)>)
    requires Color.IsHexColor(c.brandColor)
    ensures |ds| == 16
  {
    ThemeDecls(c) + MessageDecls(c)
  }

  /** The first five properties: the font, the brand colour and the tokens derived from the brand colour and the theme. */
  function ThemeDecls(c: Config): (ds: seq<(string, string)>)
    requires Color.IsHexColor(c.brandColor)
    ensures |ds| == 5
  {
    [
      ("--fonts-default", c.fontFamily),
      ("--brand-color", c.brandColor),
      ("--hover-color", Color.LightenColor(c.brandColor, HoverAmount)),
      ("--dark-background", DarkBackground(c.theme)),
      ("--light-gray", LightGray(c.theme))
    ]
  }

  /** The remaining properties, copied from the configuration. */
  function MessageDecls(c: Config): (ds: seq<(string, string)>)
    ensures |ds| == 11
  {
    [
      ("--font-color", c.textColor),
      ("--user-message-bg-color", c.userMessageBgColor),
      ("--user-message-text-color", c.userMessageTextColor),
      ("--assistant-message-bg-color", c.assistantMessageBgColor),
      ("--assistant-message-text-color", c.assistantMessageTextColor),
      ("--chat-width", Px(c.chatWidth)),
      ("--footer-color", c.footerColor),
      ("--header-color", c.headerColor),
      ("--title-text-color", c.titleTextColor),
      ("--end-chat-text-color", c.endChatTextColor),
      ("--assistant-description-text-color", c.assistantDescriptionTextColor)
    ]
  }

  /** Declarations, one per line, in order. */
  function RenderDecls(ds: seq<(string, string)>): string
    decreases |ds|
  {
    if ds == [] then "" else Decl(ds[0].0, ds[0].1) + RenderDecls(ds[1..])
  }

  function HostBlock(c: Config): string
    requires Color.IsHexColor(c.brandColor)
  {
    "\n    :host {\n" + RenderDecls(HostDecls(c)) + "    }\n"
  }

  /** The fixed text of the template between the places that depend on the record. */
  datatype Fixed = Fixed(
    launcherOpen: string,
    launcherClose: string,
    hoverAndChatOpen: string,
    chatRules: string,
    avatarOpen: string,
    avatarClose: string,
    rules: string,
    svgOpen: string,
    svgClose: string)

  /** The fixed text of the source template. */
  function SourceText(): Fixed
  {
    Fixed(
      launcherOpen := "\n    /* Launcher Styles */\n    .vfrc-launcher {\n        background-color: ",
      launcherClose := "        /* Offset disabled, coming soon */\n    }\n",
      hoverAndChatOpen := "\n    .vfrc-launcher:hover {\n        background-color: var(--hover-color) !important;\n    }\n\n    /* Chat Styles */\n    .vfrc-chat {\n        background-color: ",
      chatRules := " !important;\n        width: var(--chat-width) !important;\n    }\n\n    .vfrc-widget--chat {\n        max-height: 100% !important;\n    }\n\n    /* Header */\n    .vfrc-header {\n        background-color: var(--header-color) !important;\n    }\n\n    /* Footer */\n    .vfrc-footer {\n        background-color: var(--footer-color) !important;\n    }\n\n    /* Title Text Color */\n    .vfrc-assistant-info--title {\n        color: var(--title-text-color) !important;\n    }\n\n    /* Assistant Description Text Color */\n    .vfrc-assistant-info--description {\n        color: var(--assistant-description-text-color) !important;\n    }\n\n",
      avatarOpen := "    /* Assistant Avatar Image */\n    .vfrc-assistant-avatar {\n        background-image: url(",
      avatarClose := ") !important;\n    }\n",
      rules := "\n    /* End Chat Text Color */\n    .vfrc-footer .vfrc-button {\n        color: var(--end-chat-text-color) !important;\n    }\n\n    /* User Input Placeholder Text Color */\n    .vfrc-input::placeholder {\n        color: var(--font-color) !important;\n    }\n\n    /* Scrollbar */\n    ::-webkit-scrollbar {\n        border-left: 1px solid var(--brand-color) !important;\n    }\n\n    ::-webkit-scrollbar-thumb {\n        background-color: rgba(67, 117, 245, 0.3) !important;\n    }\n\n    /* User Message */\n    .vfrc-user-response .vfrc-message {\n        background-color: var(--user-message-bg-color) !important;\n        color: var(--user-message-text-color) !important;\n    }\n\n    /* Assistant Message */\n    .vfrc-system-response .vfrc-message {\n        background-color: var(--assistant-message-bg-color) !important;\n        color: var(--assistant-message-text-color) !important;\n    }\n\n    /* Secondary Button */\n    .vfrc-button--secondary {\n        background-color: var(--light-gray) !important;\n        color: var(--font-color) !important;\n        border-color: var(--brand-color) !important;\n    }\n\n    .vfrc-button--secondary:hover {\n        font-weight: 700 !important;\n        border-color: var(--brand-color) !important;\n        border: 2px !important;\n    }\n\n    /* Footer Button */\n    .vfrc-footer button.vfrc-button {\n        position: relative !important;\n        background-color: var(--brand-color) !important;\n    }\n\n    .vfrc-footer button.vfrc-button::after {\n        position: absolute !important;\n        display: flex !important;\n        align-items: center !important;\n        justify-content: center !important;\n        inset: 0 !important;\n        color: var(--font-color) !important;\n        border: 2px !important;\n    }\n\n    /* User Input Placeholder Customization */\n    .vfrc-chat-input textarea {\n        background-image: none;\n    }\n    .vfrc-chat-input textarea::-moz-placeholder {\n        color: transparent;\n    }\n    .vfrc-chat-input textarea::placeholder {\n        color: transparent;\n    }\n",
      svgOpen := "url(\"data:image/svg+xml;utf8,<svg xmlns='http://www.w3.org/2000/svg' version='1.1' height='50px' width='250px'><text x='15' y='25' fill='silver' font-family='verdana' font-size='15'>",
      svgClose := "</text></svg>\");\n        background-repeat: no-repeat;\n    }\n")
  }

  /** The launcher block up to the line that holds the optional image rule, and that line's indentation. */
  function LauncherHead(t: Fixed, c: Config): string
  {
    t.launcherOpen + c.launcherColor + " !important;\n" + "        "
  }

  /** `launcherImage ? ... : ''`: the image rule for a non-empty image, nothing for the empty string. */
  function ImageRule(image: string): (rule: string)
    ensures rule == "" <==> image == ""
  {
    if image != "" then "background-image: url(" + image + ");" else ""
  }

  /** The rest of the launcher block: its size, the same value for width and height. */
  function LauncherTail(t: Fixed, size: int): string
  {
    "\n        width: " + Px(size) + " !important;\n        height: " + Px(size) + " !important;\n" + t.launcherClose
  }

  /** The launcher rules: colour, optional image, size. */
  function LauncherBlock(t: Fixed, c: Config): string
  {
    LauncherHead(t, c) + ImageRule(c.launcherImage) + LauncherTail(t, c.launcherSize)
  }

  /** `assistantAvatarImage || assistantLogo`: the avatar when it is a non-empty string, else the logo. */
  function AvatarSource(c: Config): (src: string)
    ensures c.assistantAvatarImage != "" ==> src == c.assistantAvatarImage
    ensures c.assistantAvatarImage == "" ==> src == c.assistantLogo
  {
    if c.assistantAvatarImage != "" then c.assistantAvatarImage else c.assistantLogo
  }

  /** The avatar rule. */
  function AvatarRule(t: Fixed, c: Config): string
  {
    t.avatarOpen + AvatarSource(c) + t.avatarClose
  }

  /** The hover, chat, header, footer, title, description, avatar, message and button rules. */
  function ChatBlock(t: Fixed, c: Config): string
  {
    t.hoverAndChatOpen + c.backgroundColor + t.chatRules + AvatarRule(t, c) + t.rules
  }

  /** The opening of a placeholder rule for the given pseudo-class selector, up to the encoded text. */
  function PlaceholderHead(t: Fixed, selector: string): string
  {
    "\n    .vfrc-chat-input textarea" + selector + " {\n        background-image: " + t.svgOpen
  }

  /** The two placeholder rules, each showing the encoded placeholder text followed by `...`. */
  function PlaceholderRules(t: Fixed, encoded: string): string
  {
    PlaceholderHead(t, ":-moz-placeholder-shown") + encoded + "..." + t.svgClose
    + PlaceholderHead(t, ":placeholder-shown") + encoded + "..." + t.svgClose
    + "    "
  }

  /**
   * The stylesheet for a configuration, with the given fixed text: it opens
   * with the `:host` block of custom properties and closes with the two
   * placeholder rules.
   */
  function Render(t: Fixed, c: Config): (css: string)
    requires Color.IsHexColor(c.brandColor)
    ensures HostBlock(c) <= css
    ensures EndsWith(css, PlaceholderRules(t, UriComponent.EncodeURIComponent(c.userInputPlaceholderText)))
  {
    var rules := PlaceholderRules(t, UriComponent.EncodeURIComponent(c.userInputPlaceholderText));
    FramedOfFour(HostBlock(c), LauncherBlock(t, c), ChatBlock(t, c), rules);
    HostBlock(c) + LauncherBlock(t, c) + ChatBlock(t, c) + rules
  }

  /** `generateCSS()`: the whole stylesheet for a configuration, that is Render with the source template's text. */
  function GenerateCSS(c: Config): string
    requires Color.IsHexColor(c.brandColor)
  {
    Render(SourceText(), c)
  }

  /** Every declaration in a list is rendered somewhere in the list's text. */
  lemma {:induction false} RenderDeclsContains(ds: seq<(string, string)>, i: nat)
    requires i < |ds|
    ensures Contains(RenderDecls(ds), Decl(ds[i].0, ds[i].1))
    decreases |ds|
  {
    var first := Decl(ds[0].0, ds[0].1);
    if i == 0 {
      ContainsSelf(first);
      ContainsBefore(first, RenderDecls(ds[1..]), first);
    } else {
      RenderDeclsContains(ds[1..], i - 1);
      ContainsAfter(first, RenderDecls(ds[1..]), Decl(ds[i].0, ds[i].1));
    }
  }

  /** What the `:host` block holds, the whole stylesheet holds. */
  lemma HostBlockInStylesheet(t: Fixed, c: Config, p: string)
    requires Color.IsHexColor(c.brandColor)
    requires Contains(HostBlock(c), p)
    ensures Contains(Render(t, c), p)
  {
    ContainsBefore(HostBlock(c), LauncherBlock(t, c), p);
    ContainsBefore(HostBlock(c) + LauncherBlock(t, c), ChatBlock(t, c), p);
    ContainsBefore(HostBlock(c) + LauncherBlock(t, c) + ChatBlock(t, c),
                   PlaceholderRules(t, UriComponent.EncodeURIComponent(c.userInputPlaceholderText)), p);
  }

  /** The stylesheet declares every custom property of the `:host` block with its value. */
  lemma DeclaresHostProperty(t: Fixed, c: Config, i: nat)
    requires Color.IsHexColor(c.brandColor)
    requires i < |HostDecls(c)|
    ensures Contains(Render(t, c), Decl(HostDecls(c)[i].0, HostDecls(c)[i].1))
  {
    var d := Decl(HostDecls(c)[i].0, HostDecls(c)[i].1);
    RenderDeclsContains(HostDecls(c), i);
    ContainsAfter("\n    :host {\n", RenderDecls(HostDecls(c)), d);
    ContainsBefore("\n    :host {\n" + RenderDecls(HostDecls(c)), "    }\n", d);
    HostBlockInStylesheet(t, c, d);
  }

  /**
   * The theme-dependent tokens: the hover colour is the brand colour lightened
   * channel by channel, the dark background is dark exactly for 'Dark', and
   * the light grey is light exactly for 'Light'.
   */
  lemma RenderThemeTokens(t: Fixed, c: Config)
    requires Color.IsHexColor(c.brandColor)
    ensures Contains(Render(t, c), Decl("--hover-color", Color.LightenColor(c.brandColor, HoverAmount)))
    ensures Contains(Render(t, c), Decl("--dark-background", DarkBackground(c.theme)))
    ensures Contains(Render(t, c), Decl("--light-gray", LightGray(c.theme)))
  {
    var ds := HostDecls(c);
    assert ds[2] == ThemeDecls(c)[2] && ds[3] == ThemeDecls(c)[3] && ds[4] == ThemeDecls(c)[4];
    DeclaresHostProperty(t, c, 2);
    DeclaresHostProperty(t, c, 3);
    DeclaresHostProperty(t, c, 4);
  }

  /** With the initial brand colour the hover token is `#76a8ff`. */
  lemma InitialHoverToken(t: Fixed)
    ensures Color.IsHexColor(Initial().brandColor)
    ensures Contains(Render(t, Initial()), Decl("--hover-color", "#76a8ff"))
  {
    Color.InitialHoverColor();
    RenderThemeTokens(t, Initial());
  }

  /** Inserting x at the point where a nested concatenation has the empty string. */
  lemma InsertInto(host: string, head: string, x: string, tail: string, chat: string, rest: string)
    ensures var plain := host + (head + "" + tail) + chat + rest;
      |host + head| <= |plain|
      && host + (head + x + tail) + chat + rest == plain[..|host + head|] + x + plain[|host + head|..]
  {
    var plain := host + (head + "" + tail) + chat + rest;
    assert plain == (host + head) + (tail + chat + rest);
    assert host + (head + x + tail) + chat + rest == (host + head) + x + (tail + chat + rest);
    InsertAt(host + head, x, tail + chat + rest);
  }

  /**
   * The launcher image rule is the only difference an image makes: the
   * stylesheet is the stylesheet without an image with the image rule
   * (ImageRule, empty exactly when the image is) inserted at one fixed
   * position, right after the launcher's colour.
   */
  lemma LauncherImageSpliced(t: Fixed, c: Config)
    requires Color.IsHexColor(c.brandColor)
    ensures Spliced(Render(t, c), Render(t, c.(launcherImage := "")), |HostBlock(c) + LauncherHead(t, c)|, ImageRule(c.launcherImage))
  {
    SameHostBlock(c, c.(launcherImage := ""));
    InsertInto(HostBlock(c), LauncherHead(t, c), ImageRule(c.launcherImage), LauncherTail(t, c.launcherSize), ChatBlock(t, c),
               PlaceholderRules(t, UriComponent.EncodeURIComponent(c.userInputPlaceholderText)));
  }

  /** A non-empty launcher image appears in the stylesheet inside its `background-image` rule. */
  lemma LauncherImageShown(t: Fixed, c: Config)
    requires Color.IsHexColor(c.brandColor)
    requires c.launcherImage != ""
    ensures Contains(Render(t, c), "background-image: url(" + c.launcherImage + ");")
  {
    var rule := ImageRule(c.launcherImage);
    ContainsSelf(rule);
    ContainsAfter(LauncherHead(t, c), rule, rule);
    ContainsBefore(LauncherHead(t, c) + rule, LauncherTail(t, c.launcherSize), rule);
    ContainsAfter(HostBlock(c), LauncherBlock(t, c), rule);
    ContainsBefore(HostBlock(c) + LauncherBlock(t, c), ChatBlock(t, c), rule);
    ContainsBefore(HostBlock(c) + LauncherBlock(t, c) + ChatBlock(t, c),
                   PlaceholderRules(t, UriComponent.EncodeURIComponent(c.userInputPlaceholderText)), rule);
  }

  /** The avatar rule, showing the avatar image when it is set and the logo otherwise (AvatarSource), is in the stylesheet. */
  lemma RenderAvatar(t: Fixed, c: Config)
    requires Color.IsHexColor(c.brandColor)
    ensures Contains(Render(t, c), AvatarRule(t, c))
  {
    var rule := AvatarRule(t, c);
    var open := t.hoverAndChatOpen + c.backgroundColor + t.chatRules;
    ContainsSelf(rule);
    ContainsAfter(open, rule, rule);
    ContainsBefore(open + rule, t.rules, rule);
    ContainsAfter(HostBlock(c) + LauncherBlock(t, c), ChatBlock(t, c), rule);
    ContainsBefore(HostBlock(c) + LauncherBlock(t, c) + ChatBlock(t, c),
                   PlaceholderRules(t, UriComponent.EncodeURIComponent(c.userInputPlaceholderText)), rule);
  }

  /**
   * The placeholder text reaches the stylesheet only through its percent-encoding:
   * whatever the text, the stylesheet is the same fixed rules around two copies
   * of the encoding, each followed by `...`.
   */
  lemma RenderPlaceholder(t: Fixed, c: Config, text: string)
    requires Color.IsHexColor(c.brandColor)
    ensures Render(t, c.(userInputPlaceholderText := text))
      == HostBlock(c) + LauncherBlock(t, c) + ChatBlock(t, c) + PlaceholderRules(t, UriComponent.EncodeURIComponent(text))
  {
    SameHostBlock(c, c.(userInputPlaceholderText := text));
  }

  /**
   * The encoded placeholder is safe inside the quoted SVG data URI: it holds no
   * markup, quote, space or fragment character, and decoding it gives the text back.
   */
  lemma EncodedPlaceholderIsSafe(text: string)
    ensures var e := UriComponent.EncodeURIComponent(text);
      forall i | 0 <= i < |e| :: e[i] !in {'<', '>', '&', '"', ' ', '#'}
    ensures UriComponent.DecodeURIComponent(UriComponent.EncodeURIComponent(text)) == Some(text)
  {
    UriComponent.EncodedIsMarkupFree(text);
    UriComponent.DecodeEncode(text);
  }

  /** c and d agree on every field the `:host` block reads. */
  predicate SameHost(c: Config, d: Config)
  {
    && c.fontFamily == d.fontFamily && c.brandColor == d.brandColor && c.theme == d.theme
    && c.textColor == d.textColor
    && c.userMessageBgColor == d.userMessageBgColor && c.userMessageTextColor == d.userMessageTextColor
    && c.assistantMessageBgColor == d.assistantMessageBgColor && c.assistantMessageTextColor == d.assistantMessageTextColor
    && c.chatWidth == d.chatWidth && c.footerColor == d.footerColor && c.headerColor == d.headerColor
    && c.titleTextColor == d.titleTextColor && c.endChatTextColor == d.endChatTextColor
    && c.assistantDescriptionTextColor == d.assistantDescriptionTextColor
  }

  /** c and d agree on every field the stylesheet reads. */
  predicate SameStyle(c: Config, d: Config)
  {
    && SameHost(c, d)
    && c.backgroundColor == d.backgroundColor
    && c.launcherColor == d.launcherColor && c.launcherImage == d.launcherImage && c.launcherSize == d.launcherSize
    && c.assistantAvatarImage == d.assistantAvatarImage && c.assistantLogo == d.assistantLogo
    && c.userInputPlaceholderText == d.userInputPlaceholderText
  }

  lemma SameHostBlock(c: Config, d: Config)
    requires Color.IsHexColor(c.brandColor) && SameHost(c, d)
    ensures HostBlock(c) == HostBlock(d)
  {
    assert HostDecls(c) == HostDecls(d);
  }

  /** The stylesheet reads only the fields SameStyle names. */
  lemma SameRender(t: Fixed, c: Config, d: Config)
    requires Color.IsHexColor(c.brandColor) && SameStyle(c, d)
    ensures Render(t, c) == Render(t, d)
  {
    SameHostBlock(c, d);
  }

  /**
   * The fields that only the integration snippet reads (the proactive
   * messages, the project, the assistant's name and description, the embed
   * mode, auto-open) and the selected preset name do not change the stylesheet.
   */
  lemma IgnoresSnippetFields(t: Fixed, c: Config, d: Config)
    requires Color.IsHexColor(c.brandColor)
    requires d == c.(proactiveMessages := d.proactiveMessages, projectID := d.projectID,
                     assistantName := d.assistantName, assistantDescription := d.assistantDescription,
                     embedMode := d.embedMode, autoOpen := d.autoOpen, selectedTemplate := d.selectedTemplate)
    ensures Render(t, d) == Render(t, c)
  {
    SameRender(t, c, d);
  }

}
