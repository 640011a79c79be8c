# Styleflow.io — a verified model of the widget-styling core

Styleflow.io is a React editor for the look of a Voiceflow chat widget. The
user picks colours, a font, a theme or a preset, launcher settings, assistant
details and proactive messages. From that state the app derives three
artifacts:

- a CSS stylesheet (`generateCSS`);
- a `data:` URL carrying that stylesheet in base64 (`convertCSSToDataURL`);
- a `<script>` snippet that a site owner pastes into a page to load the
  widget with those settings (`codeSnippet`).

This project models that core in Dafny and proves what it promises. The
modules are:

- `Configuration`: the editor's state record, its initial value, and the
  three rules that rewrite it: applying a theme, applying a preset, and the
  effect that re-derives colours when the theme changes. The rules appear
  both as functions and as an `Editor` class whose methods make one setter
  call per field.
- `Templates`: the preset table and `templates[name]`.
- `Fonts`: the font selector's options and their labels, the text before the
  first comma.
- `Color`: `lightenColor`, which parses a `#RRGGBB` colour, adds an amount to
  each channel, clamps it and writes the colour back.
- `Stylesheet`: `generateCSS`, the `:host` block of custom properties
  followed by fixed rules. The state is spliced in at these places: the
  custom property values, the launcher colour, the launcher image rule, the
  launcher size (as width and as height), the chat background colour, the
  avatar image and the encoded placeholder text (in both placeholder rules).
- `UriComponent`, `Utf8`, `Base64`, `Bytes`, `Decimal`, `Hex`, `DataUrl`:
  `btoa(unescape(encodeURIComponent(css)))` and the `#timestamp` fragment.
  Each encoding has a decoder it is proved against.
- `Json`: `JSON.stringify` of the proactive-message records, with a reader
  proved to read it back.
- `IntegrationCode`: the snippet with its three conditional blocks (render
  mode, proactive messages, auto-open).
- `ProactiveMessages`: ECMAScript `trim`, plus the editor's `addMessage` and
  `removeMessage` as a `MessageEditor` class over the message list and the
  draft.
- `Text` and `Wrappers`: containment of strings and `Option`.

The fixed text of the stylesheet is kept in a `Stylesheet.Fixed` record, and
the fixed text of the snippet in an `IntegrationCode.Template` record.
`Stylesheet.Render` and `IntegrationCode.Snippet` take that record as a
parameter. Every property of the stylesheet and of the snippet is proved for
any fixed text, so it holds in particular for `Stylesheet.GenerateCSS` and
`IntegrationCode.CodeSnippet`, which use the source's own text
(`SourceText()`, `SourceTemplate()`).

## Model

| member | source | states |
|---|---|---|
| Configuration.Initial | src/App.jsx:23-57 | The initial state uses the light theme and records 'Default' as the selected preset name, has no proactive messages, and starts the header colour equal to the brand colour. |
| Configuration.InitialValid | src/App.jsx:25-26 | The initial brand colour is a `#` hex colour and the initial font is one of the selector's options. |
| Configuration.ThemeApplied | src/App.jsx:83-101 | 'Dark' and 'Light' each set their six colours and the theme, and set the header to the brand colour. Any other string leaves the state unchanged. No field outside those seven is touched. |
| Configuration.ThemeEffect | src/App.jsx:123-133 | For 'Dark' the footer, end-chat and description colours take the dark values; every other theme gets the light values. Nothing else changes. |
| Configuration.TemplateApplied | src/App.jsx:108-118 | A known preset overwrites its four fields, sets the header to its brand colour and records its name. An unknown name changes nothing. No other field is touched. |
| Configuration.ThemeIdempotent | src/App.jsx:83-101 | Applying a theme twice gives the same state as applying it once. |
| Configuration.TemplateIdempotent | src/App.jsx:108-118 | Applying a preset twice gives the same state as applying it once. |
| Configuration.EffectAgreesWithTheme | src/App.jsx:123-133 | After 'Dark' or 'Light' is applied, the effect changes nothing. |
| Configuration.ThemeKeepsValid | src/App.jsx:83-101 | Applying a theme keeps the brand colour a hex colour and the font a selector option. |
| Configuration.TemplateKeepsValid | src/App.jsx:108-118 | Applying a preset keeps the brand colour a hex colour and the font a selector option. |
| Configuration.EffectKeepsValid | src/App.jsx:123-133 | The theme effect keeps the invariant. |
| Configuration.Step | src/App.jsx:83-133 | Every action (theme, preset, effect) takes a valid state to a valid state. |
| Configuration.Replay | src/App.jsx:83-133 | Any sequence of actions, applied in order, takes a valid state to a valid state. |
| Configuration.ReachableValid | src/App.jsx:23-133 | Every state reachable from the initial state by those actions is valid. |
| Configuration.Editor.constructor | src/App.jsx:23-57 | The editor object starts in the initial state. |
| Configuration.Editor.ApplyTheme | src/App.jsx:83-101 | The per-field setter sequence ends in `ThemeApplied` of the old state. |
| Configuration.Editor.ApplyTemplate | src/App.jsx:108-118 | The lookup and then the per-field setters end in `TemplateApplied` of the old state. |
| Configuration.Editor.RunThemeEffect | src/App.jsx:123-133 | The effect's setter sequence ends in `ThemeEffect` of the old state. |
| Templates.Table | src/templates.js:3-34 | The table has five entries, and no two of them share a name. |
| Templates.Lookup | src/App.jsx:109-110 | A preset is found exactly when the name is one of the table's names, and it is that entry's preset. |
| Templates.PresetNames | src/templates.js:3-34 | The table holds Default, Red, Blue, Green and Yellow, in that order. |
| Templates.NamesDistinct | src/templates.js:3-34 | No two entries share a name. |
| Templates.RedPreset | src/templates.js:10-15 | Red's four fields, value by value. |
| Templates.UnknownName | src/App.jsx:109-110 | Any other name finds nothing. |
| Templates.EntryColors | src/templates.js:3-34 | Each preset's three colours are `#` and six hex digits. |
| Templates.EntryFont | src/templates.js:3-34 | Each preset's font is one of the selector's options. |
| Templates.TableWellFormed | src/templates.js:3-34 | Every entry of the table is well formed. |
| Templates.PresetsWellFormed | src/templates.js:3-34 | Every preset that a name selects is well formed. Its brand colour is a valid input to lightening. |
| Templates.InitialFontIsOption | src/App.jsx:26 | The initial font `sans-serif` is a selector option. |
| Fonts.Options | src/components/FontSelector.jsx:14-22 | Seven font stacks, no two alike. |
| Fonts.Label | src/components/FontSelector.jsx:30 | The label is a prefix of the stack and holds no comma. It is the whole stack or stops right at a comma, so it is the text before the first comma. |
| Fonts.LabelWithoutComma | src/components/FontSelector.jsx:30 | A stack without a comma is its own label. |
| Fonts.LabelAt | src/components/FontSelector.jsx:30 | If the first comma is at k, the label is the first k characters. |
| Fonts.Choices | src/components/FontSelector.jsx:28-32 | One option per stack, in order. Each value is the whole stack and each caption is that stack's label, the text before its first comma. |
| Fonts.ChoiceLabel | src/components/FontSelector.jsx:14-32 | The seven captions are sans-serif, Arial, Helvetica, Courier New, Times New Roman, Georgia and Verdana. |
| Color.Clamp | src/App.jsx:309-311 | The result is in [0, 255]. It equals the input inside that range, is 0 below it and 255 above it. |
| Color.FormatColor | src/App.jsx:305-315 | Packing under the 2^24 bit, writing in hex and dropping the lead digit gives `#` plus two lower-case digits per channel. |
| Color.ChannelsOfNumber | src/App.jsx:300-304 | Shifting and masking the parsed number gives back the colour's three digit pairs. |
| Color.FormatChannels | src/App.jsx:306-313 | `(0x1000000 + …).toString(16)` is `1` followed by the digits of the three channels. |
| Color.LightenColor | src/App.jsx:299-316 | The result is a lower-case `#` hex colour. Each of its channels is the clamped sum of the input's channel and the amount. |
| Color.LightenByChannels | src/App.jsx:299-316 | The lightened colour is `#` followed by the two digits of each clamped channel. |
| Color.InitialHoverColor | src/App.jsx:25 | The initial brand colour lightened by 51 is `#76a8ff`. |
| Hex.ParseToHex | src/App.jsx:300 | `parseInt(·, 16)` reads back what `toString(16)` writes. |
| Stylesheet.DarkBackground | src/App.jsx:146 | `#1F2428` exactly for the 'Dark' theme, `#FFFFFF` exactly for any other. |
| Stylesheet.LightGray | src/App.jsx:147 | `#F4F4F4` exactly for the 'Light' theme, `#303030` exactly for any other. |
| Stylesheet.Render | src/App.jsx:140-290 | For any fixed text, the stylesheet opens with the `:host` block of custom properties and closes with the two placeholder rules built from the encoded placeholder. |
| Stylesheet.RenderDeclsContains | src/App.jsx:142-159 | Every declaration of the list appears in the rendered block. |
| Stylesheet.DeclaresHostProperty | src/App.jsx:142-159 | The stylesheet declares each of the sixteen `:host` properties with its value. |
| Stylesheet.RenderThemeTokens | src/App.jsx:145-147 | The stylesheet declares three derived tokens. The hover colour is the brand colour lightened channel by channel. The dark background and the light grey are the theme-dependent values above. |
| Stylesheet.InitialHoverToken | src/App.jsx:145 | With the initial state the stylesheet declares `--hover-color: #76a8ff`. |
| Stylesheet.ImageRule | src/App.jsx:164 | The image rule is empty exactly when the launcher image is the empty string. |
| Stylesheet.LauncherImageSpliced | src/App.jsx:162-168 | The launcher image changes nothing else. The stylesheet equals the image-free one with the image rule inserted right after the launcher colour. |
| Stylesheet.LauncherImageShown | src/App.jsx:164 | A non-empty image appears inside `background-image: url(…);`. |
| Stylesheet.AvatarSource | src/App.jsx:206 | The avatar image when it is non-empty, else the logo. |
| Stylesheet.RenderAvatar | src/App.jsx:204-207 | The stylesheet holds the avatar rule with that source. |
| Stylesheet.RenderPlaceholder | src/App.jsx:269-288 | The placeholder text reaches the stylesheet only through `encodeURIComponent`, which appears twice, each copy followed by `...`. |
| Stylesheet.EncodedPlaceholderIsSafe | src/App.jsx:281 | The encoded placeholder has no markup, quote, space or `#` character, and decodes back to the text. |
| Stylesheet.SameHostBlock | src/App.jsx:142-159 | The `:host` block depends only on the fields it names. |
| Stylesheet.SameRender | src/App.jsx:140-290 | Two states that agree on the fields the stylesheet reads give the same stylesheet. |
| Stylesheet.IgnoresSnippetFields | src/App.jsx:140-290 | These fields do not change the stylesheet: the messages, project, assistant name and description, embed mode, auto-open and preset name. |
| UriComponent.PercentByte | src/App.jsx:281 | A `%` and two upper-case hex digits whose value is the byte. |
| UriComponent.EncodeChar | src/App.jsx:281 | One character becomes a non-empty run of unescaped characters and `%XX` triples. |
| UriComponent.EncodeURIComponent | src/App.jsx:281 | The output is at least as long as the input and holds only unescaped characters and `%XX` triples with upper-case digits. |
| UriComponent.EncodedIsMarkupFree | src/App.jsx:281 | The output holds none of `< > & " #` or the space character. |
| UriComponent.DecodeEncode | src/App.jsx:281 | Decoding the component gives back every string, non-ASCII included. |
| UriComponent.PercentDecodeEncoded | src/App.jsx:281 | Percent-decoding the component gives exactly the string's UTF-8 bytes. |
| UriComponent.UnescapeWithoutPercent | src/App.jsx:325 | `unescape` keeps a text without `%` exactly as it is. |
| UriComponent.UnescapeEncoded | src/App.jsx:325 | `unescape(encodeURIComponent(s))` is the binary string of the UTF-8 bytes of s. |
| Utf8.Encode | src/App.jsx:325 | Every character takes one to four bytes, so the bytes number between the characters and four times that. |
| Utf8.EncodeChar | src/App.jsx:325 | One to four bytes per character, a single byte exactly for ASCII. |
| Utf8.DecodeEncode | src/App.jsx:325 | UTF-8 decoding undoes encoding. |
| Utf8.EncodeAppend | src/App.jsx:325 | Encoding distributes over concatenation. |
| Bytes.AsBytesAsChars | src/App.jsx:325 | A binary string reads back as the bytes it was made from. |
| Base64.Btoa | src/App.jsx:325 | `btoa` succeeds exactly on binary strings. |
| Base64.Encode | src/App.jsx:325 | Four characters per three bytes, rounded up. |
| Base64.EncodeLength | src/App.jsx:325 | The encoding is whole padded groups. |
| Base64.EncodeHasNoHash | src/App.jsx:327 | The payload never holds `#`, so the fragment that follows it is unambiguous. |
| Base64.DecodeEncode | src/App.jsx:325 | Decoding the base64 text gives the bytes back. |
| Decimal.NatToString | src/App.jsx:327 | At least one digit, only digits, and a leading zero only for 0 itself. |
| Decimal.ParseNatToString | src/App.jsx:327 | The printed timestamp reads back as the number. |
| Decimal.IntToStringInjective | src/App.jsx:153 | Different widths print differently. |
| DataUrl.ConvertCSSToDataURL | src/App.jsx:324-328 | The URL is the prefix, the base64 text of the stylesheet's UTF-8 bytes, `#` and the timestamp. |
| DataUrl.PayloadOfConverted | src/App.jsx:325-327 | The payload between the prefix and `#` is exactly that base64 text. |
| DataUrl.RoundTrip | src/App.jsx:324-328 | Reading the URL back gives the stylesheet text. |
| DataUrl.TimestampBustsCache | src/App.jsx:326-327 | Two different timestamps give different URLs that read back to the same text. |
| Json.MessagesJson | src/components/IntegrationCode.jsx:36-41 | A bracketed array, which is `[]` exactly when there are no messages. |
| Json.EscapeChar | src/components/IntegrationCode.jsx:36-41 | A character stays itself exactly when it is not a quote, a backslash or a control character. Otherwise it becomes a backslash escape. |
| Json.Escape | src/components/IntegrationCode.jsx:36-41 | No control character survives in the string body. |
| Json.UnescapeEscape | src/components/IntegrationCode.jsx:36-41 | An escaped message followed by its closing quote reads back as the message. |
| Json.ReadArrayOf | src/components/IntegrationCode.jsx:36-41 | The serialised list reads back as the messages, whatever follows it. |
| Json.ParseMessagesJson | src/components/IntegrationCode.jsx:36-41 | Parsing `JSON.stringify` of the records gives back the messages, in order. |
| Json.MessagesJsonInjective | src/components/IntegrationCode.jsx:36-41 | Different message lists give different JSON. |
| IntegrationCode.RenderConfig | src/components/IntegrationCode.jsx:19-29 | The render block names the container exactly in the 'embedded' mode. |
| IntegrationCode.OverlayForOtherModes | src/components/IntegrationCode.jsx:19-29 | Every mode other than 'embedded' gives the overlay snippet. |
| IntegrationCode.EmbeddedTarget | src/components/IntegrationCode.jsx:19-25 | In the 'embedded' mode the snippet mounts the chat in the page's container. |
| IntegrationCode.ProactiveConfig | src/components/IntegrationCode.jsx:31-43 | The block is empty exactly when there are no messages. |
| IntegrationCode.ProactiveRoundTrip | src/components/IntegrationCode.jsx:31-43 | The proactive block reads back as exactly the messages, in order. |
| IntegrationCode.ProactiveClears | src/components/IntegrationCode.jsx:35 | A non-empty block sets `clear: true`. |
| IntegrationCode.AutoOpenCode | src/components/IntegrationCode.jsx:45-49 | The code is empty exactly when auto-open is off. |
| IntegrationCode.AutoOpenCalls | src/components/IntegrationCode.jsx:47 | The auto-open code calls `window.voiceflow.chat.open()`. |
| IntegrationCode.ProactiveSpliced | src/components/IntegrationCode.jsx:68 | The messages change only the proactive block. The snippet equals the message-free one with that block inserted right after the render block. |
| IntegrationCode.AutoOpenSpliced | src/components/IntegrationCode.jsx:69 | Auto-open changes only the auto-open code. The snippet equals the one without it, with that code inserted inside `.then(function() {…})`. |
| IntegrationCode.ProjectIdVerbatim | src/components/IntegrationCode.jsx:60 | The project id appears verbatim between single quotes. |
| IntegrationCode.AssistantFieldsVerbatim | src/components/IntegrationCode.jsx:63-67 | The name, description, logo and stylesheet URL appear verbatim between double quotes. |
| IntegrationCode.Snippet | src/components/IntegrationCode.jsx:51-76 | For any fixed text, the snippet is one script element: it starts with the opening tag and ends with the closing one. |
| IntegrationCode.FixedEndpoints | src/components/IntegrationCode.jsx:61-62 | The snippet names the runtime URL and the production version. |
| IntegrationCode.LoadsBundle | src/components/IntegrationCode.jsx:71 | The snippet loads the widget bundle. |
| IntegrationCode.AppProps | src/App.jsx:729-740 | The stylesheet URL App passes reads back as the rendered stylesheet. Every other prop the component reads is the setting of the same name. |
| IntegrationCode.AppSnippetStylesheet | src/App.jsx:734 | The snippet App shows holds `stylesheet: "<url>"` with that data URL, and the URL reads back as the rendered stylesheet. |
| IntegrationCode.SnippetImageIsRawLogo | src/App.jsx:733 | The snippet's `image` is the raw logo setting, never the avatar. |
| IntegrationCode.IgnoresAvatarAndPlaceholder | src/App.jsx:738-739 | The avatar and placeholder props passed to the component do not change the snippet. |
| ProactiveMessages.TrimStart | src/components/ProactiveMessageEditor.jsx:13 | A suffix of the text that drops only white space and does not start with white space. |
| ProactiveMessages.TrimEnd | src/components/ProactiveMessageEditor.jsx:13 | A prefix of the text that drops only white space and does not end with white space. |
| ProactiveMessages.Trim | src/components/ProactiveMessageEditor.jsx:13-14 | The trimmed text is no longer than the draft and neither starts nor ends with white space. |
| ProactiveMessages.TrimIsInner | src/components/ProactiveMessageEditor.jsx:14 | The trimmed text is a piece of the draft with only white space around it. |
| ProactiveMessages.TrimBlank | src/components/ProactiveMessageEditor.jsx:13 | The draft trims to nothing exactly when it is all white space. |
| ProactiveMessages.TrimIdempotent | src/components/ProactiveMessageEditor.jsx:14 | Trimming twice is trimming once. |
| ProactiveMessages.Added | src/components/ProactiveMessageEditor.jsx:12-17 | A draft that is not blank is appended trimmed after the old messages. A blank draft leaves the list as it was. |
| ProactiveMessages.AddedKeepsTrimmed | src/components/ProactiveMessageEditor.jsx:12-17 | After adding, every message is still non-empty and trimmed. |
| ProactiveMessages.Without | src/components/ProactiveMessageEditor.jsx:19-22 | Filtering never lengthens the list. |
| ProactiveMessages.WithoutInRange | src/components/ProactiveMessageEditor.jsx:20 | For an index in range, exactly that element is removed and the others keep their order. |
| ProactiveMessages.OutOfRange | src/components/ProactiveMessageEditor.jsx:20 | For any other index the list is unchanged. |
| ProactiveMessages.WithoutLength | src/components/ProactiveMessageEditor.jsx:20 | The list shrinks by one exactly when the index is in range. |
| ProactiveMessages.WithoutKeepsTrimmed | src/components/ProactiveMessageEditor.jsx:19-22 | After removing, every message is still non-empty and trimmed. |
| ProactiveMessages.MessageEditor.constructor | src/components/ProactiveMessageEditor.jsx:10 | The editor starts with no messages and an empty draft. |
| ProactiveMessages.MessageEditor.SetDraft | src/components/ProactiveMessageEditor.jsx:41 | Typing replaces the draft and leaves the messages alone. |
| ProactiveMessages.MessageEditor.AddMessage | src/components/ProactiveMessageEditor.jsx:12-17 | The list becomes `Added` of the old list and draft. The draft is cleared only when something was added. The invariant is kept. |
| ProactiveMessages.MessageEditor.RemoveMessage | src/components/ProactiveMessageEditor.jsx:19-22 | The list becomes `Without` of the old list and the index. The draft is unchanged and the invariant is kept. |

## Left out

- Loading the widget into the page (`handleWidgetLoad`, `loadVoiceflowChat`, the DOM) and copying the snippet to the clipboard: these are I/O.
- The clock: `new Date().getTime()` is a parameter of `DataUrl.ConvertCSSToDataURL`.
- Floating point: `Math.round(2.55 * percent)` is not computed. `Color.LightenColor` takes the rounded amount as a parameter, and the only call (percent 20) gives 51, which `Stylesheet.HoverAmount` holds.
- Color.LightenColor: requires a `#` and six hex digits. `parseInt` on a malformed colour (NaN, fewer digits) is not modelled. In the app the brand colour comes from the colour picker or a preset, and `Configuration.Valid` carries that fact.
- The setters that copy one input into one field (colour pickers, sliders, text fields, the embed-mode and auto-open switches) are presentational. They are not among `Configuration.Edit`'s actions. The invariant assumes the colour picker delivers a `#` hex colour.
- React's scheduling: a handler's setter calls are applied in order as one update, and the theme effect is an explicit `ThemeChanged` action. The model does not run the effect automatically after each render.
- `templates[name]` also finds properties inherited from `Object.prototype` (for example `constructor`). `Templates.Lookup` finds only the five own entries, which are the only names the preset selector offers.
- Escaping in the snippet: the name, description, logo, stylesheet URL and project id are spliced verbatim, exactly as the code does (src/components/IntegrationCode.jsx:60-67). `IntegrationCode.AssistantFieldsVerbatim` states this.
- "Appears exactly when" properties of the stylesheet and the snippet are stated as insertions. The text with the option equals the text without it with the block inserted at one position. They are not stated as substring absence, because verbatim user text could contain the same characters.
- `unescape`'s `%uXXXX` form is not modelled. `encodeURIComponent` never produces it.
- Strings are sequences of Unicode scalar values. Lone surrogates, on which `encodeURIComponent` throws, cannot be represented.
- NaN: clearing the launcher-size field stores `parseInt('')`, which is NaN (src/components/LauncherSettings.jsx:40), and the stylesheet then prints `NaNpx`. `Configuration.Config.launcherSize` is an `int`, which cannot hold NaN.
- JavaScript number formatting: widths, sizes and timestamps are printed as integers. Fractional values and exponent notation are not modelled.
- `JSON.stringify` is modelled only for the message records the snippet serialises. The reader exists only as the partner the serialisation is proved against.
- ProactiveMessages.Without: its own contract only bounds the length. What it removes is stated by `WithoutInRange`, `OutOfRange` and `WithoutLength`.
- Fonts.Options: its contract gives the number of stacks and their distinctness, not the stacks themselves. The labels are stated by `Fonts.ChoiceLabel`, and the presets' fonts by `Templates.EntryFont`.
- The presentational components (headers, accordions, previews, help icons) are not modelled.
