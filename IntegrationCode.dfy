/**
 * The integration snippet (src/components/IntegrationCode.jsx:19-76): the
 * `<script>` block a site owner pastes into a page to load the chat widget
 * with the edited settings. It is one template literal with three
 * conditional blocks: the render mode, the proactive messages and the
 * auto-open call. The component's props are spliced in verbatim, without
 * any escaping. The proactive messages are the exception: they go through
 * `JSON.stringify`.
 */
module IntegrationCode {
  import opened Wrappers
  import opened Text
  import Json
  import opened Configuration
  import Color
  import Stylesheet
  import DataUrl

  /** The props the component reads; the avatar and placeholder props it is also passed are not among them. */
  datatype Props = Props(
    embedMode: string,
    assistantName: string,
    assistantDescription: string,
    assistantLogo: string,
    stylesheetUrl: string,
    proactiveMessages: seq<string>,
    projectID: string,
    autoOpen: bool)

  /** The props App passes, for a given stylesheet URL. */
  function PropsOf(c: Config, stylesheetUrl: string): Props
  {
    Props(
      embedMode := c.embedMode,
      assistantName := c.assistantName,
      assistantDescription := c.assistantDescription,
      assistantLogo := c.assistantLogo,
      stylesheetUrl := stylesheetUrl,
      proactiveMessages := c.proactiveMessages,
      projectID := c.projectID,
      autoOpen := c.autoOpen)
  }

  /**
   * The props App passes (src/App.jsx:729-740), for the stylesheet's fixed
   * text s: the settings as they are, and as the stylesheet the data URL of
   * the rendered CSS, whose fragment is the time of the render. With
   * `Stylesheet.SourceText()` as s the CSS is `Stylesheet.GenerateCSS(c)`.
   */
  function AppProps(s: Stylesheet.Fixed, c: Config, timestamp: nat): (p: Props)
    requires Color.IsHexColor(c.brandColor)
    ensures DataUrl.CssOf(p.stylesheetUrl) == Some(Stylesheet.Render(s, c))
    ensures p == PropsOf(c, p.stylesheetUrl)
  {
    DataUrl.RoundTrip(Stylesheet.Render(s, c), timestamp);
    PropsOf(c, DataUrl.ConvertCSSToDataURL(Stylesheet.Render(s, c), timestamp))
  }

  /** The option that mounts the chat in the page's own container. */
  const Target: string := "target: document.getElementById('voiceflow-chat-frame')"

  const EmbeddedRender: string := "\n      render: {\n          mode: 'embedded',\n          " + Target + "\n      },"

  const OverlayRender: string := "\n      render: {\n          mode: 'overlay'\n      },"

  /**
   * `renderConfig`: the embedded mode for the value 'embedded', the overlay for
   * any other; the container target appears exactly in the embedded one.
   */
  function RenderConfig(embedMode: string): (block: string)
    ensures Contains(block, Target) <==> embedMode == "embedded"
  {
    if embedMode == "embedded" then
      ContainsPiece("\n      render: {\n          mode: 'embedded',\n          ", Target, "\n      },");
      EmbeddedRender
    else
      assert |OverlayRender| < |Target|;
      OverlayRender
  }

  const ClearFlag: string := "clear: true"

  /** The proactive block up to the message array. */
  const ProactiveOpen: string := "\n      proactive: {\n          " + ClearFlag + ",\n          messages: "

  /** The proactive block after the message array. */
  const ProactiveClose: string := "\n      },"

  /** `proactiveConfig`: the messages as JSON records, or nothing when there are none. */
  function ProactiveConfig(ms: seq<string>): (block: string)
    ensures block == "" <==> ms == []
  {
    if |ms| > 0 then ProactiveOpen + Json.MessagesJson(ms) + ProactiveClose else ""
  }

  const OpenStatement: string := "window.voiceflow.chat.open();"

  /** The auto-open call, with the indentation around it. */
  const OpenCall: string := "\n            " + OpenStatement + "\n  "

  /** `autoOpenCode`: the call that opens the chat, or nothing. */
  function AutoOpenCode(autoOpen: bool): (code: string)
    ensures code == "" <==> !autoOpen
  {
    if autoOpen then OpenCall else ""
  }

  /** A prop spliced between quotes after its key: `key: 'value'` or `key: "value"`. */
  function Quoted(key: string, quote: string, value: string): string
  {
    key + ": " + quote + value + quote
  }

  const Sep: string := ",\n            "

  /** The `assistant` option: name, description, logo and stylesheet, each in double quotes. */
  function Assistant(p: Props): string
  {
    "assistant: {\n            " + Quoted("title", "\"", p.assistantName) + Sep
    + Quoted("description", "\"", p.assistantDescription) + Sep
    + Quoted("image", "\"", p.assistantLogo) + Sep
    + Quoted("stylesheet", "\"", p.stylesheetUrl) + "\n          },"
  }

  /** The fixed text of the snippet around the options object passed to `window.voiceflow.chat.load`. */
  datatype Template = Template(
    scriptOpen: string,
    loaderOpen: string,
    runtimeUrl: string,
    versionId: string,
    thenOpen: string,
    beforeBundle: string,
    bundleSrc: string,
    afterBundle: string,
    scriptClose: string)

  /** The fixed text of the source template. */
  function SourceTemplate(): Template
  {
    Template(
      scriptOpen := "\n<script type=\"text/javascript\">",
      loaderOpen := "\n  (function(d, t) {\n      if (window.voiceflow && window.voiceflow.chat) {\n          window.voiceflow.chat.hide();\n      }"
                    + "\n      var v = d.createElement(t), s = d.getElementsByTagName(t)[0];\n      v.onload = function() {"
                    + "\n        window.voiceflow.chat.load({\n          ",
      runtimeUrl := "url: 'https://general-runtime.voiceflow.com'",
      versionId := "versionID: 'production'",
      thenOpen := "\n        }).then(function() {",
      beforeBundle := "});\n      };\n      ",
      bundleSrc := "v.src = \"https://cdn.voiceflow.com/widget/bundle.mjs\";",
      afterBundle := " \n      v.type = \"text/javascript\"; \n      s.parentNode.insertBefore(v, s);\n  })(document, 'script');",
      scriptClose := "\n</script>\n  ")
  }

  /** The text before the render block: the project, the runtime, the version and the assistant. */
  function LoadHead(t: Template, p: Props): string
  {
    "verify: { " + Quoted("projectID", "'", p.projectID) + " },\n          " + t.runtimeUrl + ",\n          " + t.versionId
    + ",\n          " + Assistant(p) + RenderConfig(p.embedMode)
  }

  /** The options object passed to `window.voiceflow.chat.load`. */
  function LoadOptions(t: Template, p: Props): string
  {
    LoadHead(t, p) + ProactiveConfig(p.proactiveMessages)
  }

  /** What follows the load call: the optional auto-open, then the script element's insertion. */
  function Continuation(t: Template, autoOpen: bool): string
  {
    t.thenOpen + AutoOpenCode(autoOpen) + (t.beforeBundle + t.bundleSrc + t.afterBundle)
  }

  /** The function that injects the widget bundle and loads the chat once it has arrived. */
  function Loader(t: Template, p: Props): string
  {
    t.loaderOpen + LoadOptions(t, p) + Continuation(t, p.autoOpen)
  }

  /** The snippet for the given fixed text: one script element, from its opening tag to its closing one. */
  function Snippet(t: Template, p: Props): (r: string)
    ensures t.scriptOpen <= r && EndsWith(r, t.scriptClose)
  {
    Framed(t.scriptOpen, Loader(t, p), t.scriptClose);
    t.scriptOpen + Loader(t, p) + t.scriptClose
  }

  /** `codeSnippet`: the snippet with the source template's text. */
  function CodeSnippet(p: Props): string
  {
    Snippet(SourceTemplate(), p)
  }

  // ---------------------------------------------------------------------------
  // The conditional blocks

  /** Any mode other than 'embedded' gives the same snippet as 'overlay'. */
  lemma OverlayForOtherModes(t: Template, p: Props)
    requires p.embedMode != "embedded"
    ensures Snippet(t, p) == Snippet(t, p.(embedMode := "overlay"))
  {
    assert LoadHead(t, p) == LoadHead(t, p.(embedMode := "overlay"));
  }

  /** The proactive block reads back as the messages: nothing for none, else the clearing block around their JSON. */
  function ProactiveMessagesOf(block: string): Option<seq<string>>
  {
    if block == "" then Some([])
    else match Json.Skip(block, ProactiveOpen)
      case None => None
      case Some(r) =>
        match Json.ReadArray(r)
        case None => None
        case Some((ms, rest)) => if rest == ProactiveClose && ms != [] then Some(ms) else None
  }

  /** The proactive block carries exactly the messages, in order, and clears the conversation when there are any. */
  lemma ProactiveRoundTrip(ms: seq<string>)
    ensures ProactiveMessagesOf(ProactiveConfig(ms)) == Some(ms)
  {
    if ms != [] {
      var block := ProactiveConfig(ms);
      assert block == ProactiveOpen + (Json.MessagesJson(ms) + ProactiveClose);
      assert block != "";
      Json.SkipPrefix(ProactiveOpen, Json.MessagesJson(ms) + ProactiveClose);
      Json.ReadArrayOf(ms, ProactiveClose);
    }
  }

  /** A non-empty proactive block clears the conversation before showing its messages. */
  lemma ProactiveClears(ms: seq<string>)
    requires ms != []
    ensures Contains(ProactiveConfig(ms), ClearFlag)
  {
    ContainsPiece("\n      proactive: {\n          ", ClearFlag, ",\n          messages: ");
    ContainsBefore(ProactiveOpen, Json.MessagesJson(ms), ClearFlag);
    ContainsBefore(ProactiveOpen + Json.MessagesJson(ms), ProactiveClose, ClearFlag);
  }

  /** The auto-open block is the call to open the chat. */
  lemma AutoOpenCalls()
    ensures Contains(AutoOpenCode(true), OpenStatement)
  {
    ContainsPiece("\n            ", OpenStatement, "\n  ");
  }

  // ---------------------------------------------------------------------------
  // The snippet, for any fixed text: in particular for CodeSnippet

  /** The project, runtime and version options, up to the assistant option. */
  function Preamble(t: Template, p: Props): string
  {
    "verify: { " + Quoted("projectID", "'", p.projectID) + " },\n          " + t.runtimeUrl + ",\n          " + t.versionId
    + ",\n          "
  }

  lemma LoadHeadParts(t: Template, p: Props)
    ensures LoadHead(t, p) == Preamble(t, p) + Assistant(p) + RenderConfig(p.embedMode)
  {
  }

  /** What the load options hold, the snippet holds. */
  lemma LoadOptionsInSnippet(t: Template, p: Props, q: string)
    requires Contains(LoadOptions(t, p), q)
    ensures Contains(Snippet(t, p), q)
  {
    ContainsAfter(t.loaderOpen, LoadOptions(t, p), q);
    ContainsBefore(t.loaderOpen + LoadOptions(t, p), Continuation(t, p.autoOpen), q);
    ContainsAfter(t.scriptOpen, Loader(t, p), q);
    ContainsBefore(t.scriptOpen + Loader(t, p), t.scriptClose, q);
  }

  /** What the text before the render block holds, the snippet holds. */
  lemma LoadHeadInSnippet(t: Template, p: Props, q: string)
    requires Contains(LoadHead(t, p), q)
    ensures Contains(Snippet(t, p), q)
  {
    ContainsBefore(LoadHead(t, p), ProactiveConfig(p.proactiveMessages), q);
    LoadOptionsInSnippet(t, p, q);
  }

  /** What the preamble holds, the snippet holds. */
  lemma PreambleInSnippet(t: Template, p: Props, q: string)
    requires Contains(Preamble(t, p), q)
    ensures Contains(Snippet(t, p), q)
  {
    LoadHeadParts(t, p);
    ContainsBefore(Preamble(t, p), Assistant(p), q);
    ContainsBefore(Preamble(t, p) + Assistant(p), RenderConfig(p.embedMode), q);
    LoadHeadInSnippet(t, p, q);
  }

  /** What the assistant option holds, the snippet holds. */
  lemma AssistantInSnippet(t: Template, p: Props, q: string)
    requires Contains(Assistant(p), q)
    ensures Contains(Snippet(t, p), q)
  {
    LoadHeadParts(t, p);
    ContainsAfter(Preamble(t, p), Assistant(p), q);
    ContainsBefore(Preamble(t, p) + Assistant(p), RenderConfig(p.embedMode), q);
    LoadHeadInSnippet(t, p, q);
  }

  /** The project id is spliced verbatim between single quotes. */
  lemma ProjectIdVerbatim(t: Template, p: Props)
    ensures Contains(Snippet(t, p), Quoted("projectID", "'", p.projectID))
  {
    var q := Quoted("projectID", "'", p.projectID);
    var gap := ",\n          ";
    ContainsPiece("verify: { ", q, " },\n          ");
    ContainsBefore("verify: { " + q + " },\n          ", t.runtimeUrl, q);
    ContainsBefore("verify: { " + q + " },\n          " + t.runtimeUrl, gap, q);
    ContainsBefore("verify: { " + q + " },\n          " + t.runtimeUrl + gap, t.versionId, q);
    ContainsBefore("verify: { " + q + " },\n          " + t.runtimeUrl + gap + t.versionId, gap, q);
    PreambleInSnippet(t, p, q);
  }

  /**
   * The assistant's name, description, logo and stylesheet URL are spliced
   * verbatim between double quotes: nothing is escaped, so a value holding a
   * double quote ends its string early.
   */
  lemma AssistantFieldsVerbatim(t: Template, p: Props)
    ensures Contains(Snippet(t, p), Quoted("title", "\"", p.assistantName))
    ensures Contains(Snippet(t, p), Quoted("description", "\"", p.assistantDescription))
    ensures Contains(Snippet(t, p), Quoted("image", "\"", p.assistantLogo))
    ensures Contains(Snippet(t, p), Quoted("stylesheet", "\"", p.stylesheetUrl))
  {
    var open := "assistant: {\n            ";
    var n := Quoted("title", "\"", p.assistantName);
    var d := Quoted("description", "\"", p.assistantDescription);
    var i := Quoted("image", "\"", p.assistantLogo);
    var s := Quoted("stylesheet", "\"", p.stylesheetUrl);
    var close := "\n          },";
    ContainsPiece(open, n, Sep);
    ContainsBefore(open + n + Sep, d, n);
    ContainsBefore(open + n + Sep + d, Sep, n);
    ContainsBefore(open + n + Sep + d + Sep, i, n);
    ContainsBefore(open + n + Sep + d + Sep + i, Sep, n);
    ContainsBefore(open + n + Sep + d + Sep + i + Sep, s, n);
    ContainsBefore(open + n + Sep + d + Sep + i + Sep + s, close, n);
    AssistantInSnippet(t, p, n);
    ContainsPiece(open + n + Sep, d, Sep);
    ContainsBefore(open + n + Sep + d + Sep, i, d);
    ContainsBefore(open + n + Sep + d + Sep + i, Sep, d);
    ContainsBefore(open + n + Sep + d + Sep + i + Sep, s, d);
    ContainsBefore(open + n + Sep + d + Sep + i + Sep + s, close, d);
    AssistantInSnippet(t, p, d);
    ContainsPiece(open + n + Sep + d + Sep, i, Sep);
    ContainsBefore(open + n + Sep + d + Sep + i + Sep, s, i);
    ContainsBefore(open + n + Sep + d + Sep + i + Sep + s, close, i);
    AssistantInSnippet(t, p, i);
    ContainsPiece(open + n + Sep + d + Sep + i + Sep, s, close);
    AssistantInSnippet(t, p, s);
  }

  /** The snippet names the fixed runtime and the production version. */
  lemma FixedEndpoints(t: Template, p: Props)
    ensures Contains(Snippet(t, p), t.runtimeUrl)
    ensures Contains(Snippet(t, p), t.versionId)
  {
    var a := "verify: { " + Quoted("projectID", "'", p.projectID) + " },\n          ";
    var gap := ",\n          ";
    ContainsPiece(a, t.runtimeUrl, gap);
    ContainsBefore(a + t.runtimeUrl + gap, t.versionId, t.runtimeUrl);
    ContainsBefore(a + t.runtimeUrl + gap + t.versionId, gap, t.runtimeUrl);
    PreambleInSnippet(t, p, t.runtimeUrl);
    ContainsPiece(a + t.runtimeUrl + gap, t.versionId, gap);
    PreambleInSnippet(t, p, t.versionId);
  }

  /** The snippet loads the widget bundle. */
  lemma LoadsBundle(t: Template, p: Props)
    ensures Contains(Snippet(t, p), t.bundleSrc)
  {
    ContainsPiece(t.beforeBundle, t.bundleSrc, t.afterBundle);
    ContainsAfter(t.thenOpen + AutoOpenCode(p.autoOpen), t.beforeBundle + t.bundleSrc + t.afterBundle, t.bundleSrc);
    ContainsAfter(t.loaderOpen + LoadOptions(t, p), Continuation(t, p.autoOpen), t.bundleSrc);
    ContainsAfter(t.scriptOpen, Loader(t, p), t.bundleSrc);
    ContainsBefore(t.scriptOpen + Loader(t, p), t.scriptClose, t.bundleSrc);
  }

  /** In the 'embedded' mode the snippet mounts the chat in the page's container. */
  lemma EmbeddedTarget(t: Template, p: Props)
    requires p.embedMode == "embedded"
    ensures Contains(Snippet(t, p), Target)
  {
    LoadHeadParts(t, p);
    ContainsAfter(Preamble(t, p) + Assistant(p), RenderConfig(p.embedMode), Target);
    LoadHeadInSnippet(t, p, Target);
  }

  /** Inserting x after the text before the proactive block, in the snippet's shape. */
  lemma InsertIntoOptions(a: string, l: string, h: string, x: string, m: string, e: string)
    ensures var plain := a + (l + (h + "") + m) + e;
      |a + l + h| <= |plain|
      && a + (l + (h + x) + m) + e == plain[..|a + l + h|] + x + plain[|a + l + h|..]
  {
    var plain := a + (l + (h + "") + m) + e;
    assert plain == (a + l + h) + (m + e);
    assert a + (l + (h + x) + m) + e == (a + l + h) + x + (m + e);
    InsertAt(a + l + h, x, m + e);
  }

  /** The text before the proactive block does not depend on the messages. */
  lemma LoadHeadIgnoresMessages(t: Template, p: Props, ms: seq<string>)
    ensures LoadHead(t, p.(proactiveMessages := ms)) == LoadHead(t, p)
  {
  }

  /**
   * The proactive block is the only thing the messages change: the snippet is
   * the snippet without messages with the proactive block (ProactiveConfig,
   * empty exactly when there are no messages) inserted right after the render
   * block.
   */
  lemma ProactiveSpliced(t: Template, p: Props)
    ensures Spliced(Snippet(t, p), Snippet(t, p.(proactiveMessages := [])),
                    |t.scriptOpen + t.loaderOpen + LoadHead(t, p)|, ProactiveConfig(p.proactiveMessages))
  {
    LoadHeadIgnoresMessages(t, p, []);
    InsertIntoOptions(t.scriptOpen, t.loaderOpen, LoadHead(t, p), ProactiveConfig(p.proactiveMessages),
                      Continuation(t, p.autoOpen), t.scriptClose);
  }

  /** Inserting x after the opening of the continuation, in the snippet's shape. */
  lemma InsertIntoContinuation(a: string, h: string, c: string, x: string, d: string, e: string)
    ensures var plain := a + (h + (c + "" + d)) + e;
      |a + h + c| <= |plain|
      && a + (h + (c + x + d)) + e == plain[..|a + h + c|] + x + plain[|a + h + c|..]
  {
    var plain := a + (h + (c + "" + d)) + e;
    assert plain == (a + h + c) + (d + e);
    assert a + (h + (c + x + d)) + e == (a + h + c) + x + (d + e);
    InsertAt(a + h + c, x, d + e);
  }

  /** The load options do not depend on auto-open. */
  lemma LoadOptionsIgnoreAutoOpen(t: Template, p: Props, b: bool)
    ensures LoadOptions(t, p.(autoOpen := b)) == LoadOptions(t, p)
  {
  }

  /**
   * The auto-open block is the only thing auto-open changes: the snippet is
   * the snippet without auto-open with the auto-open block (AutoOpenCode,
   * empty exactly when auto-open is off) inserted right after the load call's
   * `.then(function() {`.
   */
  lemma AutoOpenSpliced(t: Template, p: Props)
    ensures Spliced(Snippet(t, p), Snippet(t, p.(autoOpen := false)),
                    |t.scriptOpen + (t.loaderOpen + LoadOptions(t, p)) + t.thenOpen|, AutoOpenCode(p.autoOpen))
  {
    LoadOptionsIgnoreAutoOpen(t, p, false);
    InsertIntoContinuation(t.scriptOpen, t.loaderOpen + LoadOptions(t, p), t.thenOpen, AutoOpenCode(p.autoOpen),
                           t.beforeBundle + t.bundleSrc + t.afterBundle, t.scriptClose);
  }

  // ---------------------------------------------------------------------------
  // The snippet App shows

  /**
   * The snippet App shows carries its stylesheet as the data URL, in double
   * quotes, and that URL reads back as the generated CSS.
   */
  lemma AppSnippetStylesheet(t: Template, s: Stylesheet.Fixed, c: Config, timestamp: nat)
    requires Color.IsHexColor(c.brandColor)
    ensures var url := AppProps(s, c, timestamp).stylesheetUrl;
      && Contains(Snippet(t, AppProps(s, c, timestamp)), Quoted("stylesheet", "\"", url))
      && DataUrl.CssOf(url) == Some(Stylesheet.Render(s, c))
  {
    AssistantFieldsVerbatim(t, AppProps(s, c, timestamp));
  }

  /** The snippet's `image` is the raw logo setting, even when it is empty. */
  lemma SnippetImageIsRawLogo(t: Template, c: Config, stylesheetUrl: string)
    ensures Contains(Snippet(t, PropsOf(c, stylesheetUrl)), Quoted("image", "\"", c.assistantLogo))
  {
    AssistantFieldsVerbatim(t, PropsOf(c, stylesheetUrl));
  }

  /**
   * The component does not read the avatar image or the placeholder text it is
   * passed: they reach the snippet only through the stylesheet URL.
   */
  lemma IgnoresAvatarAndPlaceholder(t: Template, c: Config, d: Config, stylesheetUrl: string)
    requires d == c.(assistantAvatarImage := d.assistantAvatarImage, userInputPlaceholderText := d.userInputPlaceholderText)
    ensures Snippet(t, PropsOf(d, stylesheetUrl)) == Snippet(t, PropsOf(c, stylesheetUrl))
  {
    assert PropsOf(d, stylesheetUrl) == PropsOf(c, stylesheetUrl);
  }

}
