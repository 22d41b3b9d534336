# zpl-js label core in Dafny

This project models the core of zpl-js, a TypeScript library that reads
ZPL (Zebra Programming Language) label programs and draws them on a
canvas. It also proves properties of that model. The model covers:

- **The parser.** `ZPLParser` checks the `^XA` … `^XZ` frame, then scans
  the body into command tokens (`^` or `~`, an upper-case letter, then a
  letter, digit or `@`, followed by parameters up to the next `^` or `~`).
  It checks each token against the command catalog and runs a handler for
  each of the eleven implemented commands (`^B3 ^BC ^BY ^CF ^FD ^FH ^FO ^FR
  ^GB ^LH ^FS`). Handler errors are collected, and parsing goes on with the
  next token. `produce()` writes the label back out with template
  variables filled in.
- **The label data model.** `Label`, `TextItem`, `GraphicBoxItem` and
  `BarcodeItem` (with its render options, processed data and orientation).
- **The Code Page 850 emulation.** `zebraEncode` turns text into the
  characters a Zebra printer would print. It works on the UTF-8 bytes of
  the text and, in hex mode, on `_hh` escapes. `zebraLikeEncode` gives one
  character per byte.
- **The `zpl` template tag and its configuration.** The tag normalises and
  truncates its input. It then recognises `label Name(params) {body}`,
  `label [Name] {body}` or plain ZPL, and builds the variable map.
  `ZplJsConfig` holds the maximum input length.
- **The renderer's decision layer.** Its default options, the logical
  canvas size, and what it draws for each item. This covers text fonts and
  block lines, box paint and corner radius, and barcode requests with
  their failure fallback. All of it is a trace of abstract drawing
  operations on a modelled 2D context state.
- **The editor's command suggestion.** Levenshtein distance, computed with
  a matrix, and the closest catalogued command.
- **The documentation site's page navigation.** The flattened page list,
  and the previous and next page.

## How the model is built

Each source file becomes one module:

| module | source |
|---|---|
| `Types` | `types.ts` |
| `Commands` | the key set of `zpl-commands.ts` |
| `Tokenizer` | the command scanner of `parse` |
| `ParamParsers` | the parameter validators of `parser.ts` |
| `Parser` | `parser.ts` |
| `Substitution` | the look-around replacement of `produce` |
| `Encoding` | `encoding.ts` |
| `Tag` | `tag.ts` |
| `Config` | `config.ts` |
| `Renderer` | `renderer.ts` |
| `CommandSuggest` | `packages/editor/src/index.tsx` |
| `DocNav` | `doc-sidebar.tsx` |

`JsText` states the ECMAScript built-ins the code relies on:

- `trim`, and `split` with a one-character separator;
- `parseInt(s, 10)` (section 19.2.5 of ECMA-262), `parseInt(s)` without a radix, where a `0x` or `0X` prefix selects base 16, and `parseFloat` (section 19.2.4), over exact decimals;
- the `toUpperCase` comparisons against single ASCII letters;
- `replace` with a one-character search string.

A JavaScript number that may be NaN is an `Option<int>`. Regular
expressions are replaced by explicit scanners with the same leftmost,
non-overlapping and greedy semantics.

The stateful parts are classes whose methods are proved against pure
specification functions:

- **`Parser.ZplParser`.** It holds the parser's fields. Every handler
  method ensures that the new state and the error it reports equal a pure
  step function of the old state (`B3Step`, `FdStep`, …, combined in
  `Apply`). `Parse` runs a loop over the tokens and is proved equal to
  `ParseSpec`. `Produce` runs a loop over the variables and is proved
  equal to `Produced`.
- **`Renderer.ZplRenderer`.** It holds the settings, the context state
  and the list of drawing operations so far. `Render` is proved equal to
  `RenderSpec`.
- **`Config.ZplJsConfig`.** It holds the static field and its setter.
- **`Encoding.ZebraEncode` and `CommandSuggest.LevenshteinDistance`.**
  Both keep the source's loops, over a byte sequence and over a 2-D
  array.

### Behaviour of the code worth knowing

The model follows the code in each of these points. The lemmas named
state each point.

- **`^B3` and `^BC` store `barcodeType` in upper case.**
  `getProcessedData` adds the Code 39 start and stop `*` only for the
  exact string `"code39"`. So no barcode the parser produces is ever
  wrapped (`Parser.ParsedBarcodesNeverWrapped`). The parser's own tests
  expect the lower-case names `"code39"` and `"code128"`
  (`packages/sdk/src/core/__tests__/parser.test.ts:46` and `:58`), while the handlers
  store `"CODE39"` and `"CODE128"`; the model follows the handlers.
- **`parse()` is not re-entrant.** It replaces `zplInput` with the body
  and keeps the items already on the label. A second call therefore
  reports a missing `^XA`, unless the body itself starts with one
  (`Parser.ParseTwice`). `produce()` puts the markers back
  (`Parser.ProduceRestoresInput`).
- **`^FD` and `^CF` strip a trailing `^FS`, but the scanner never puts one
  there.** Parameters never contain `^`, so the strip never changes
  anything. The `params.length < 1` check in `^CF` cannot fail, because
  `split` always returns at least one piece.
- **A failing `^B3` or `^BC` still leaves barcode mode on,** with the
  options from before. A failing `^GB` appends no box and leaves the
  reverse flag pending for the next field.
- **The Code Page 850 table is reproduced as written.** It differs from
  Code Page 850 in several entries:
  - 213 is `i`;
  - 240 is `-`;
  - 241 is `Ð`;
  - 242 is `±`;
  - 255 is a plain space.

  Every byte 0–255 has an entry, so `ZebraEncodeError` is never raised
  (`Encoding.CreateCodePage850Map`, `Encoding.ZebraEncode`).
- **Bytes 0–25 encode to nothing, and this includes line feed.** Encoded
  text therefore never contains `\n` (`Encoding.EncodedText`).
  So the renderer's block format, which splits on `\n`, always draws the
  whole text as one line, or nothing when `maxLines` is below one
  (`Renderer.TextIsOneLine`).
- **A barcode the generator refuses leaves the context's fill colour red
  and its font at 14px Arial.** The catch branch has no save and restore,
  so text drawn after it is red too
  (`Renderer.RefusedBarcodeTurnsTextRed`).

## Model

| member | source | states |
|---|---|---|
| JsText.AddNum | packages/sdk/src/core/parser.ts:281-282 | the sum is NaN exactly when either operand is NaN, else the integer sum |
| JsText.Trim | packages/sdk/src/core/parser.ts:584 | the result is the slice of the input after its leading whitespace, begins and ends with non-whitespace, and only whitespace follows it |
| JsText.TrimUnchanged | packages/sdk/src/core/parser.ts:584 | text that neither starts nor ends with whitespace is left unchanged by `trim` |
| JsText.Split | packages/sdk/src/core/parser.ts:53 | `split` gives at least one piece and no piece contains the separator |
| JsText.JoinSplit | packages/sdk/src/core/parser.ts:53 | joining the pieces of `split` with the separator gives back the original text |
| JsText.SplitJoin | packages/sdk/src/core/parser.ts:53 | splitting separator-free pieces joined by the separator gives back those pieces |
| JsText.SplitWithoutSeparator | packages/sdk/src/core/renderer.ts:40-41 | text without the separator splits into itself alone |
| JsText.ParseInt | packages/sdk/src/core/parser.ts:70 | `parseInt` of text without any decimal digit is NaN |
| JsText.ParseIntRoundTrip | packages/sdk/src/core/parser.ts:70 | `parseInt` reads back every integer from its decimal text, negative ones included |
| JsText.ParseIntOfDigits | packages/sdk/src/core/parser.ts:70 | `parseInt` of a natural's digits, with or without a leading `-`, is that number or its negation |
| JsText.ParseFloatOfDigits | packages/sdk/src/core/parser.ts:182 | `parseFloat` of a natural's digits, with or without a leading `-`, is that exact value |
| JsText.ParseFloat | packages/sdk/src/core/parser.ts:182 | `parseFloat` is NaN when the trimmed, unsigned text starts with neither a digit, a `.` nor `Infinity`, and a negative finite value comes only from a leading `-` |
| JsText.ParseIntNoRadix | packages/sdk/src/core/renderer.ts:40-41 | `parseInt` without a radix agrees with `parseInt(s, 10)` unless the unsigned text starts with `0x` or `0X`, and is NaN when no base-16 digit follows that prefix |
| JsText.ParseIntNoRadixHex | packages/sdk/src/core/renderer.ts:40-41 | `parseInt("0x1A")` is 26: the prefix switches to base 16 |
| JsText.ReplaceFirst | packages/sdk/src/core/renderer.ts:115 | `replace` leaves text without the searched character unchanged, and otherwise replaces exactly the first occurrence: the text before it has none, the text after it is kept |
| Types.MapSet | packages/sdk/src/core/tag.ts:47 | `Map.set` keeps an existing key in its place with the new value, appends a new key at the end, and leaves every other entry unchanged |
| Types.MapSetDistinct | packages/sdk/src/core/tag.ts:47 | `set` never introduces a duplicate key |
| Types.MapSetThenGet | packages/sdk/src/core/tag.ts:47 | after `set`, the key maps to the value just set |
| Types.DefaultsAsRenderOptions | packages/sdk/src/core/parser.ts:262 | `^BY` defaults passed as render options set exactly module width, height and ratio, and leave every other option unset |
| Types.Spread | packages/sdk/src/types/types.ts:117-127 | in the object spread, each property the overriding options set wins, and every other property keeps the base value |
| Types.NewTextItem | packages/sdk/src/types/types.ts:170-182 | a new text item keeps its own copy of the font and every other argument, unchanged |
| Types.NewGraphicBoxItem | packages/sdk/src/types/types.ts:205-213 | a new box sits at the given origin, is 0 × 0 with thickness 0, black, square-cornered and not reversed |
| Types.Round | packages/sdk/src/types/types.ts:124-126 | `Math.round` gives the integer n with n − 0.5 ≤ v < n + 0.5 |
| Types.ChosenDefaults | packages/sdk/src/types/types.ts:109-113 | the defaults are `options.defaults`, else the label's barcode defaults, else the static {2, 3.0, 10} |
| Types.GetRenderOptions | packages/sdk/src/types/types.ts:108-128 | `moduleWidth` is the chosen defaults' module width and `wideBarWidth` the rounded module width × ratio, whatever the render options say; without render options the width is the module width |
| Types.RenderOptionsWithoutOverrides | packages/sdk/src/types/types.ts:115-120 | without render options: the width is the module width, the height is a non-zero options height or else the defaults' height, and `displayValue` follows the options (true without options) |
| Types.ByHeightOverridesOptionsHeight | packages/sdk/src/types/types.ts:115-127 | `^BY` defaults given as render options override the height and ratio, while the width still comes from the chosen defaults |
| Types.GetProcessedData | packages/sdk/src/types/types.ts:130-136 | the data is wrapped in `*` exactly when the type is `"code39"`, and is otherwise unchanged |
| Types.GetOrientation | packages/sdk/src/types/types.ts:138-140 | the options' orientation, or N without options |
| Types.Label.constructor | packages/sdk/src/types/types.ts:150-158 | a new label has no items, home (0,0), font "0" facing N and no barcode defaults |
| Commands.HandlerFor | packages/sdk/src/core/parser.ts:376-550 | the handler table: "not implemented" exactly for catalogued commands outside the implemented eleven, and the no-op exactly for `^FS` |
| Commands.ImplementedAreCatalogued | packages/sdk/src/core/parser.ts:380-390 | every command with a real handler is in the catalog |
| Commands.CatalogShape | packages/sdk/src/types/zpl-commands.ts:8-178 | every catalog key is `^A`, or a prefix `^`/`~` and an upper-case letter followed by a third character |
| Commands.CommandTails | packages/sdk/src/types/zpl-commands.ts:8-178 | only a `^` or `~` prefix with an upper-case letter lists any command, and every listed third character is an upper-case letter, a digit or `@` |
| Commands.IsValidCommand | packages/sdk/src/core/parser.ts:48-50 | a catalogued command other than `^A` has three characters: prefix, upper-case letter and a listed third character |
| Tokenizer.ParamsEnd | packages/sdk/src/core/parser.ts:575 | the lazy parameter group ends at the first `^` or `~`, or at the end of the text |
| Tokenizer.NextCommand | packages/sdk/src/core/parser.ts:575-578 | the next match starts at the leftmost position that begins a command, and no earlier position does |
| Tokenizer.MatchesWellFormed | packages/sdk/src/core/parser.ts:575 | every raw token is a prefix, an upper-case letter and a letter, digit or `@`, with parameters free of `^` and `~` |
| Tokenizer.OneCommand | packages/sdk/src/core/parser.ts:575 | a command followed by prefix-free parameters is matched as one token with exactly those parameters |
| Tokenizer.SkipNonCommands | packages/sdk/src/core/parser.ts:578 | characters that begin no command (for example a lower-case `^fo`) are skipped silently |
| Tokenizer.NoCommandNoTokens | packages/sdk/src/core/parser.ts:575-600 | a body with no command gives no tokens |
| Tokenizer.MatchesDrop | packages/sdk/src/core/parser.ts:575-578 | scanning from an offset equals scanning the suffix from that point |
| Tokenizer.CleanToken | packages/sdk/src/core/parser.ts:579-584 | `^A` followed by anything but `@` becomes command `^A` with that character put in front of the parameters, and the parameters are trimmed |
| Tokenizer.Tokenize | packages/sdk/src/core/parser.ts:575-584 | one token per scanner match, in order: token k is match k cleaned by `CleanToken`; no token's parameters contain `^` or `~` |
| ParamParsers.ValidateOrientation | packages/sdk/src/core/parser.ts:152-160 | accepted exactly when the text is one letter N, R, I or B in either case, giving that orientation, and otherwise the orientation error |
| ParamParsers.IntInRange | packages/sdk/src/core/parser.ts:134-140 | succeeds exactly when `parseInt` gives a number within the bounds (NaN fails), with that number, and otherwise fails with the given message |
| ParamParsers.YesAt | packages/sdk/src/core/parser.ts:131-133 | an absent or empty position keeps the default, and a present one is true exactly when it is `Y` in either case |
| ParamParsers.ParseCode39Parameters | packages/sdk/src/core/parser.ts:117-150 | fails exactly on a bad orientation or an out-of-range height; the orientation error wins over the height error; otherwise each field is the given value or its default |
| ParamParsers.Code39HeightTooLarge | packages/sdk/src/core/parser.ts:117-150 | `^B3N,N,40000,Y,N` fails with the height message even though the other positions are valid |
| ParamParsers.ParseCode128Mode | packages/sdk/src/core/parser.ts:93-112 | accepted exactly when the text is one letter N, U, A or D in either case, and then the mode is the one that letter names in upper case; otherwise the mode error |
| ParamParsers.ParseCode128Parameters | packages/sdk/src/core/parser.ts:52-115 | fails exactly on a bad orientation, height or mode, reporting the first of them in that order; otherwise each field is the given value or its default |
| ParamParsers.RatioInRange | packages/sdk/src/core/parser.ts:180-190 | accepted exactly when `parseFloat` gives a finite value within 2.0..3.0, and that value is kept |
| ParamParsers.ParseByParameters | packages/sdk/src/core/parser.ts:162-203 | fails exactly on a module width outside 1..10, a ratio outside 2.0..3.0 or a height that is not positive, reporting the first in that order; a success keeps the given values or the defaults {2, 3.0, 10} |
| ParamParsers.StripFieldSeparator | packages/sdk/src/core/parser.ts:226 | text without `^` is left unchanged |
| ParamParsers.ParseFont | packages/sdk/src/core/parser.ts:225-237 | the font name is the first piece; height and width are set exactly when a second or third piece exists, as its `parseInt` |
| ParamParsers.ParseFieldOrigin | packages/sdk/src/core/parser.ts:278-284 | with two or more pieces, the `parseInt` of the first two; otherwise nothing |
| ParamParsers.ParseLabelHome | packages/sdk/src/core/parser.ts:356-372 | fewer than two pieces is the arity error; otherwise it fails exactly when a coordinate is a number outside 0..32000 (NaN passes), and succeeds with the two values |
| ParamParsers.ParseBoxColor | packages/sdk/src/core/parser.ts:328-336 | accepted exactly for B or W in either case, and otherwise the colour error; the colour's letter is the upper-cased input, so `b`/`B` give `Black` (painted in the foreground colour) and `w`/`W` give `White` |
| ParamParsers.BuildGraphicBox | packages/sdk/src/core/parser.ts:294-346 | fails exactly when a present width, height or thickness is outside 1..32000, the colour is not B/W, or the roundedness is outside 0..8, reporting the first failing check in that order; a success is a box at the cursor with the given values or the defaults |
| ParamParsers.EmptyParametersKeepDefaults | packages/sdk/src/core/parser.ts:52-203 | empty parameter text yields exactly the default Code 39, Code 128, `^BY` and box settings |
| Parser.B3Step | packages/sdk/src/core/parser.ts:209-213 | barcode mode is on with type "CODE39" whatever the parameters; the options are replaced only on success, and an error is reported exactly when the parameters fail; nothing else changes |
| Parser.BcStep | packages/sdk/src/core/parser.ts:215-219 | the same for "CODE128" with the Code 128 parameters |
| Parser.ByStep | packages/sdk/src/core/parser.ts:221-223 | the label's barcode defaults are replaced on success; on failure the state is unchanged and the error reported |
| Parser.CfStep | packages/sdk/src/core/parser.ts:225-237 | never fails, and replaces only the current font, whose name is the first piece |
| Parser.FieldItem | packages/sdk/src/core/parser.ts:241-267 | outside barcode mode a text item with the current font and the current block format; in barcode mode a barcode item with the current type and options and the label's `^BY` defaults, converted field by field, as render options (none when no `^BY` was given); at the cursor, with the current reverse and hex flags |
| Parser.FdStep | packages/sdk/src/core/parser.ts:239-276 | appends exactly that item, clears barcode mode and the reverse and hex flags, and changes nothing else |
| Parser.FoStep | packages/sdk/src/core/parser.ts:278-284 | with two pieces, moves the cursor to home plus the offsets (NaN-propagating); otherwise changes nothing; never touches anything but the cursor |
| Parser.FhStep | packages/sdk/src/core/parser.ts:286-288 | sets only the hex flag |
| Parser.FrStep | packages/sdk/src/core/parser.ts:290-292 | sets only the reverse flag |
| Parser.ReverseBox | packages/sdk/src/core/parser.ts:348-351 | changes a box's reverse flag and nothing else |
| Parser.GbStep | packages/sdk/src/core/parser.ts:294-354 | on success appends the box, reversed when the flag was set, and clears the flag; on failure reports the error and changes nothing |
| Parser.LhStep | packages/sdk/src/core/parser.ts:356-372 | on success changes only the label home; on failure reports the error and changes nothing |
| Parser.Apply | packages/sdk/src/core/parser.ts:376-550 | `^FS` changes nothing; a not-implemented command changes nothing and reports "Command not implemented"; `^CF ^FD ^FO ^FH ^FR ^FS` never fail; items only grow, by at most one |
| Parser.Step | packages/sdk/src/core/parser.ts:579-599 | one token appends at most one item and keeps the items before it |
| Parser.StepErrors | packages/sdk/src/core/parser.ts:588-599 | an uncatalogued token adds "Invalid command: X" and changes nothing else; a catalogued one adds "Error processing command X: Error: …" exactly when its handler fails; parsing goes on in every case |
| Parser.HandlerErrorText | packages/sdk/src/core/parser.ts:597 | the message starts with "Error processing command " and the command, and ends with the handler's message |
| Parser.Run | packages/sdk/src/core/parser.ts:578-600 | the token loop keeps earlier items and adds at most one per token |
| Parser.RunErrorsGrow | packages/sdk/src/core/parser.ts:578-600 | errors are only appended, at most one per token, in encounter order |
| Parser.RunConcat | packages/sdk/src/core/parser.ts:578-600 | running two token lists in turn equals running their concatenation |
| Parser.Body | packages/sdk/src/core/parser.ts:573 | the body is what lies between the leading `^XA` and the trailing `^XZ` |
| Parser.ParseSpec | packages/sdk/src/core/parser.ts:552-611 | a missing `^XA` (or `^XZ`) gives exactly that one error, no label and no tokenizing; valid exactly when no error was recorded; a label is set exactly when the frame is right and at least one item exists |
| Parser.ParseSpecOfBody | packages/sdk/src/core/parser.ts:570-610 | with the frame in place, the result is the token loop over the body, plus "Label contains no printable items" when no item exists |
| Parser.IsValidExactly | packages/sdk/src/core/parser.ts:602-609 | valid exactly when the frame is right, the loop left at least one item and recorded no error |
| Parser.ProduceRestoresInput | packages/sdk/src/core/parser.ts:613-615 | after a valid parse, producing without variables gives back the input that was parsed |
| Parser.ParseTwice | packages/sdk/src/core/parser.ts:552-573 | a second parse reports only a missing `^XA`, is invalid and leaves the state as the first left it |
| Parser.RunKeepsUpperCaseBarcodes | packages/sdk/src/core/parser.ts:209-219 | the token loop only ever stores "", "CODE39" or "CODE128" as barcode type |
| Parser.ApplyKeepsUpperCaseBarcodes | packages/sdk/src/core/parser.ts:209-219 | no handler stores any other barcode type |
| Parser.ParsedBarcodesNeverWrapped | packages/sdk/src/types/types.ts:130-136 | every barcode a fresh parse produces has its processed data equal to its raw data |
| Parser.NormaliseInput | packages/sdk/src/core/parser.ts:44 | the normalised input is the trimmed input with every CR that directly precedes an LF removed |
| Parser.CrLfToLf | packages/sdk/src/core/parser.ts:44 | the global `\r\n` → `\n` replacement removes exactly each CR directly followed by an LF and keeps every other character in order |
| Parser.ZplParser.constructor | packages/sdk/src/core/parser.ts:17-46 | a new parser holds the normalised input, the initial state (cursor and home 0, no modes, default font), a fresh label, an empty result, the name "Label" and no variables |
| Parser.ZplParser.IsValidCommandOf | packages/sdk/src/core/parser.ts:48-50 | a command accepted as catalogued has the catalog's shape |
| Parser.ZplParser.HandleB3 | packages/sdk/src/core/parser.ts:209-213 | the new state and reported error are `B3Step` of the old state; the rest of the parser is unchanged |
| Parser.ZplParser.HandleBC | packages/sdk/src/core/parser.ts:215-219 | likewise for `BcStep` |
| Parser.ZplParser.HandleBY | packages/sdk/src/core/parser.ts:221-223 | likewise for `ByStep` |
| Parser.ZplParser.HandleCF | packages/sdk/src/core/parser.ts:225-237 | likewise for `CfStep` |
| Parser.ZplParser.HandleFD | packages/sdk/src/core/parser.ts:239-276 | likewise for `FdStep`, the item appended to the label in place |
| Parser.ZplParser.HandleFO | packages/sdk/src/core/parser.ts:278-284 | likewise for `FoStep` |
| Parser.ZplParser.HandleFH | packages/sdk/src/core/parser.ts:286-288 | likewise for `FhStep` |
| Parser.ZplParser.HandleFR | packages/sdk/src/core/parser.ts:290-292 | likewise for `FrStep` |
| Parser.ZplParser.HandleGB | packages/sdk/src/core/parser.ts:294-354 | likewise for `GbStep` |
| Parser.ZplParser.HandleLH | packages/sdk/src/core/parser.ts:356-372 | likewise for `LhStep` |
| Parser.ZplParser.Dispatch | packages/sdk/src/core/parser.ts:376-550 | calling the table's handler equals `Apply` on the old state |
| Parser.ZplParser.ProcessToken | packages/sdk/src/core/parser.ts:579-599 | one iteration of the loop equals `Step`, and only the error list of the result changes |
| Parser.ZplParser.RunTokens | packages/sdk/src/core/parser.ts:578-600 | the loop over the tokens equals `Run` |
| Parser.ZplParser.Parse | packages/sdk/src/core/parser.ts:552-611 | the returned result, the new input and the state are exactly those `ParseSpec` gives, and the label is returned exactly when `ParseSpec` sets it |
| Parser.ZplParser.Produce | packages/sdk/src/core/parser.ts:613-628 | equals `Produced`: the "Label is not valid" error unless the last parse was valid, else the framed body with each variable substituted in map order |
| Substitution.FdBeforeMeaning | packages/sdk/src/core/parser.ts:620 | the scanner's look-behind check holds exactly when `^FD` ends somewhere before the name with only alphanumerics in between |
| Substitution.FsAfterMeaning | packages/sdk/src/core/parser.ts:620 | the look-ahead check holds exactly when only alphanumerics lie between the name and a following `^FS` |
| Substitution.NoMatchUnchanged | packages/sdk/src/core/parser.ts:623 | with no match from a position on, the replacement leaves that suffix unchanged |
| Substitution.ReplaceFrom | packages/sdk/src/core/parser.ts:619-623 | replacing a variable by its own name leaves the text unchanged |
| Substitution.AbsentNameUnchanged | packages/sdk/src/core/parser.ts:617-624 | a variable whose name does not occur leaves the text unchanged |
| Substitution.WholeFieldReplaced | packages/sdk/src/core/parser.ts:619-623 | a field holding just the variable's name becomes a field holding its value |
| Substitution.SubstituteAll | packages/sdk/src/core/parser.ts:617-624 | when every variable's value is its own name, substitution leaves the text unchanged |
| Substitution.Produced | packages/sdk/src/core/parser.ts:613-628 | fails with "Label is not valid" exactly when the parse was not valid; with no variables it is `^XA` + body + `^XZ` |
| Config.ZplJsConfig.constructor | packages/sdk/src/core/config.ts:2 | the stored maximum starts at 4096 |
| Config.ZplJsConfig.ZplMaxLength | packages/sdk/src/core/config.ts:11-13 | the getter returns the stored value and changes nothing |
| Config.ZplJsConfig.SetZplMaxLength | packages/sdk/src/core/config.ts:15-20 | a value of zero or less fails with "zplMaxLength must be a positive number." and keeps the old value; any other value is stored |
| Tag.Interleave | packages/sdk/src/core/tag.ts:18-19 | a single piece is followed by the first value, or nothing when that value is missing |
| Tag.NewlinesToSpaces | packages/sdk/src/core/tag.ts:20 | each line feed becomes a space and every other character stays |
| Tag.CollapseWhitespace | packages/sdk/src/core/tag.ts:21 | the result has no two adjacent whitespace characters and every whitespace in it is a space; it has the same words as the input, is empty exactly when the input is, and starts with whitespace exactly when the input does |
| Tag.CollapseKeepsEnd | packages/sdk/src/core/tag.ts:21 | the result ends with whitespace exactly when the input does |
| Tag.Words | packages/sdk/src/core/tag.ts:20-22 | the words of a text are non-empty and free of whitespace, and text that starts with a non-whitespace character has at least one |
| Tag.Normalise | packages/sdk/src/core/tag.ts:18-22 | the normalised input is single-spaced, free of line feeds, trimmed and has the same words as the joined template |
| Tag.NormaliseIsUnwords | packages/sdk/src/core/tag.ts:18-22 | the normalised input is exactly the input's words joined by single spaces |
| Tag.SingleSpacedIsUnwords | packages/sdk/src/core/tag.ts:20-22 | trimmed single-spaced text is its own words joined by single spaces |
| Tag.Utf16Length | packages/sdk/src/core/tag.ts:24 | `length` counts UTF-16 code units: at least one and at most two per character |
| Tag.FittingPrefix | packages/sdk/src/core/tag.ts:30 | the longest run of characters from the front whose code units fit the budget: it fits, the next character would not, and all of a text that fits is kept |
| Tag.Truncate | packages/sdk/src/core/tag.ts:30 | `substring(0, max)` is the prefix that fits `max` UTF-16 code units and that the next character would overflow; the whole input when it fits, empty for a non-positive or NaN maximum |
| Tag.TruncateSingleSpaced | packages/sdk/src/core/tag.ts:30 | truncation keeps the input single-spaced and free of line feeds |
| Tag.TagInput | packages/sdk/src/core/tag.ts:18-30 | the tag's input is a prefix of the template's words joined by single spaces, the whole of it when the maximum allows; it is single-spaced, has no line feed, and is no longer than a positive maximum in characters or in UTF-16 code units |
| Tag.LastCloseParen | packages/sdk/src/core/tag.ts:6 | the greedy `.*` before `)`: the last position at which the rest of the full pattern matches |
| Tag.MatchFull | packages/sdk/src/core/tag.ts:6 | a match needs the `label` keyword and a final `}`, and has a non-empty name of letters, digits, `-` and `_` |
| Tag.MatchShort | packages/sdk/src/core/tag.ts:7 | a match needs the `label` keyword and a final `}`; a name, when present, is non-empty |
| Tag.ShapeOf | packages/sdk/src/core/tag.ts:32-67 | the full form is tried first, then the short form, else the input is plain; input without the `label` keyword is plain |
| Tag.TypeNamed | packages/sdk/src/core/tag.ts:41-45 | a declared type is number or boolean exactly when so named, otherwise string |
| Tag.DeclareOne | packages/sdk/src/core/tag.ts:38-48 | a segment throws exactly when it is non-empty and has no `:`; an empty segment leaves the map unchanged; a typed segment sets its trimmed key to a variable of that name, with the type its trimmed second piece names and value "", keeping every entry under another key and adding nothing else |
| Tag.Declare | packages/sdk/src/core/tag.ts:37-49 | a success declares at most one variable per segment; a failure names a segment that is non-empty and has no `:` |
| Tag.DeclareFails | packages/sdk/src/core/tag.ts:37-49 | the declarations throw exactly when some segment is non-empty without a `:` |
| Tag.DeclareContents | packages/sdk/src/core/tag.ts:37-49 | a successful `reduce` holds, for each segment that is the last to declare its key, that segment's variable, and holds no key that no segment declares |
| Tag.MessageDeclared | packages/sdk/src/core/__tests__/tag.test.ts:31-42 | the parameters `message: string` declare exactly the variable `message` of type string with value "" |
| Tag.MessageTag | packages/sdk/src/core/__tests__/tag.test.ts:31-42 | a full-form tag with those parameters sets up its name, its body and exactly that variable |
| Tag.DeclareWellFormed | packages/sdk/src/core/tag.ts:37-49 | successful declarations have distinct keys, each mapping to a variable of that name with value "" |
| Tag.EmptyParamsDeclareNothing | packages/sdk/src/core/tag.ts:37-38 | `Name()` declares no variables |
| Tag.TrailingCommaThrows | packages/sdk/src/core/tag.ts:39-42 | a trailing `, ` makes the declarations throw |
| Tag.DeclaredFailureSticks | packages/sdk/src/core/tag.ts:37-49 | once a prefix of the segments fails, the whole declaration fails with that error |
| Tag.DeclareVariables | packages/sdk/src/core/tag.ts:37-49 | the loop over the segments equals `Declare` of the comma split |
| Tag.TagSpec | packages/sdk/src/core/tag.ts:32-67 | plain input is parsed whole as "Label"; the short form gives its body and its name or "Label"; the full form fails exactly when its declarations do, and otherwise gives its name, its body and the declared variables |
| Tag.TagVariablesDeclared | packages/sdk/src/core/tag.ts:37-54 | the variables of a successful tag are well formed |
| Tag.NamedParser | packages/sdk/src/core/tag.ts:52-54 | a fresh parser over the body, with the given name and variables and the initial state |
| Tag.Zpl | packages/sdk/src/core/tag.ts:12-70 | `zpl` fails exactly when the tag specification does, with its error; otherwise it returns a fresh parser over the specification's source, with its name and variables |
| Encoding.Glyph | packages/sdk/src/core/encoding.ts:13-281 | each table entry is empty or one character, and is empty exactly for bytes 0–25 |
| Encoding.CreateCodePage850Map | packages/sdk/src/core/encoding.ts:13-281 | the table has an entry for exactly the bytes 0–255, each the listed glyph |
| Encoding.CodePageEntry | packages/sdk/src/core/encoding.ts:290-297 | the decoder never fails on a byte of that table |
| Encoding.DecodeByte | packages/sdk/src/core/encoding.ts:290-297 | the decoder fails exactly on a byte without an entry, and otherwise returns that entry |
| Encoding.Utf8Char | packages/sdk/src/core/encoding.ts:286 | `TextEncoder` writes one to four bytes: one byte equal to the code point below 0x80, else only bytes ≥ 0x80 with continuation bytes 0x80–0xBF |
| Encoding.Utf8CharRoundTrip | packages/sdk/src/core/encoding.ts:286 | the UTF-8 bytes of a character decode back to its code point |
| Encoding.Utf8Encode | packages/sdk/src/core/encoding.ts:286 | `TextEncoder` writes between one and four bytes per character |
| Encoding.Utf8EncodeAppend | packages/sdk/src/core/encoding.ts:309 | encoding a concatenation is the concatenation of the encodings |
| Encoding.Utf8EncodeAscii | packages/sdk/src/core/encoding.ts:337 | ASCII text encodes to one byte per character, equal to its code |
| Encoding.GlyphsAppend | packages/sdk/src/core/encoding.ts:338-340 | decoding concatenated bytes is the concatenation of the decodings |
| Encoding.GlyphsLength | packages/sdk/src/core/encoding.ts:338-340 | the output length is the number of bytes ≥ 26 |
| Encoding.HexDigitValue | packages/sdk/src/core/encoding.ts:315 | a hex digit of either case has a value below 16 |
| Encoding.NextHexEscape | packages/sdk/src/core/encoding.ts:301-306 | the next `_hh` match lies at or after the scan position and is a real escape, unless the end was reached |
| Encoding.NextHexEscapeLeftmost | packages/sdk/src/core/encoding.ts:306 | no escape begins between the scan position and the match found: the match is leftmost |
| Encoding.AppendGlyphs | packages/sdk/src/core/encoding.ts:310-312 | the byte loop appends the table entries of the bytes, in order, and never fails |
| Encoding.HexModeEncode | packages/sdk/src/core/encoding.ts:299-326 | the escape loop gives each leftmost, non-overlapping escape's entry, with the text between escapes encoded byte by byte |
| Encoding.ZebraEncode | packages/sdk/src/core/encoding.ts:283-351 | `zebraEncode` never raises `ZebraEncodeError`, and gives the hex-mode or plain encoding of the text |
| Encoding.ZebraLikeEncode | packages/sdk/src/core/encoding.ts:368-378 | one character per UTF-8 byte, whose code is that byte |
| Encoding.PrintableTextUnchanged | packages/sdk/src/core/encoding.ts:336-340 | text of characters U+0020–U+007E encodes to itself |
| Encoding.NoEscapeSameAsPlain | packages/sdk/src/core/encoding.ts:299-340 | in hex mode, text without a `_hh` escape encodes as in plain mode |
| Encoding.NoLineFeedInGlyph | packages/sdk/src/core/encoding.ts:26 | no table entry is a line feed |
| Encoding.EncodedText | packages/sdk/src/core/encoding.ts:283-351 | encoded text never contains a line feed, in either mode |
| Renderer.WithDefaults | packages/sdk/src/core/renderer.ts:28-35 | each missing option becomes its default: dpi "203", dimensions "4x6", portrait, scale 1, background #FFFFFF and foreground #000000 |
| Renderer.Scaled | packages/sdk/src/core/renderer.ts:222-224 | a value times the scale, NaN staying NaN |
| Renderer.LabelSize | packages/sdk/src/core/renderer.ts:40-59 | each logical dimension is a multiple of 100 or NaN |
| Renderer.SingleDimensionIsNaN | packages/sdk/src/core/renderer.ts:40-53 | dimensions without an `x` leave the label height (the width, when turned) NaN |
| Renderer.DefaultLabelSize | packages/sdk/src/core/renderer.ts:28-59 | the default 4x6 inch portrait label is 400 by 600 logical pixels |
| Renderer.OrientationSwapsSize | packages/sdk/src/core/renderer.ts:46-59 | any orientation but portrait swaps the logical width and height |
| Renderer.TextFont | packages/sdk/src/core/renderer.ts:106-114 | font "0" is bold Roboto Condensed and every other font JetBrains Mono; the size is the scaled height, or 20 × scale when unset |
| Renderer.TextData | packages/sdk/src/core/renderer.ts:101-116 | the drawn text has no line feed; for fonts other than "0" it is the encoded data itself, and for font "0" the encoded data with its first `-` replaced by a spaced en dash |
| Renderer.FirstHyphenWidened | packages/sdk/src/core/renderer.ts:112-115 | printable text in font "0" is drawn with its first hyphen as " – " and every other character as it is |
| Renderer.TextState | packages/sdk/src/core/renderer.ts:106-117 | drawing text sets only the font and the `top` baseline |
| Renderer.LineOps | packages/sdk/src/core/renderer.ts:125-134 | a block line is drawn only when its index is below `maxLines`, at y + lineHeight·index, limited to the block width, in the current fill colour and font |
| Renderer.BlockOpsLine | packages/sdk/src/core/renderer.ts:125-134 | for k below both the line count and `maxLines`, a block's k-th draw is its k-th line, k line heights below the origin and limited to the block width |
| Renderer.BlockOpsCount | packages/sdk/src/core/renderer.ts:125-134 | a block draws min(lines, maxLines) lines, none when `maxLines` ≤ 0 |
| Renderer.TextIsOneLine | packages/sdk/src/core/renderer.ts:119-140 | plain text is one draw at the origin; a block draws nothing when `maxLines` < 1 and otherwise the whole text once, with the width limit |
| Renderer.FirstNonZero | packages/sdk/src/core/renderer.ts:159-162 | the `a \|\| b \|\| fallback` chain: the first value when it is set and non-zero, else the second under the same condition, else the fallback; never zero with a non-zero fallback |
| Renderer.RequestFor | packages/sdk/src/core/renderer.ts:156-167 | the generator gets the item's type and encoded processed data, a non-zero scale and height, and Arial text; the scale is the first non-zero of the render options' module width and the label's `^BY` module width, else 2; the height is a fifteenth of the first non-zero of the barcode's own height and the label's `^BY` height, else 100 |
| Renderer.Code39RequestDelimited | packages/sdk/src/core/renderer.ts:146 | a printable "code39" item is sent to the generator wrapped in `*` |
| Renderer.BarcodeEffect | packages/sdk/src/core/renderer.ts:174-219 | an accepted barcode is drawn from its request at the item's scaled origin, and the context state is left as it was; a refused one sets the fill to red and the font to 14px Arial, and draws only "Invalid barcode: " + the data, in red, at the item's scaled origin |
| Renderer.BoxRadius | packages/sdk/src/core/renderer.ts:234-238 | the corner radius is 0 when roundedness is not positive |
| Renderer.RadiusBounded | packages/sdk/src/core/renderer.ts:234-238 | for roundedness 0..8 the radius lies between 0 and half the shorter side, and reaches it at 8 |
| Renderer.BoxPaint | packages/sdk/src/core/renderer.ts:271-293 | a reversed box is an inverting fill; otherwise B paints in the foreground colour and W in the background colour, and a stroked box uses the scaled thickness as its line width |
| Renderer.SolidBoxExactly | packages/sdk/src/core/renderer.ts:285-292 | an unreversed box is filled exactly when its thickness equals both its width and height, and stroked otherwise |
| Renderer.BoxOp | packages/sdk/src/core/renderer.ts:226-297 | a box is one draw at its scaled origin with that paint, its scaled width and height, and the corner radius `BoxRadius` gives for those sides |
| Renderer.ItemEffect | packages/sdk/src/core/renderer.ts:86-92 | a box draws once and leaves the state; an item of unknown type is skipped |
| Renderer.RenderItemsExtends | packages/sdk/src/core/renderer.ts:84-93 | drawing items only appends to the drawing operations |
| Renderer.RenderSpec | packages/sdk/src/core/renderer.ts:74-96 | a render first clears to the background and ends by resetting the transform |
| Renderer.BoxesKeepState | packages/sdk/src/core/renderer.ts:84-93 | a label of boxes keeps the context state and draws once per box |
| Renderer.RefusedBarcodeTurnsTextRed | packages/sdk/src/core/renderer.ts:210-216 | text drawn after a refused barcode is red |
| Renderer.ZplRenderer.constructor | packages/sdk/src/core/renderer.ts:19-36 | the settings are the options with their defaults, nothing is drawn, and the logical size is computed from them |
| Renderer.ZplRenderer.RenderText | packages/sdk/src/core/renderer.ts:99-141 | sets the state `TextState` gives and appends what `TextOps` draws |
| Renderer.ZplRenderer.DrawBlock | packages/sdk/src/core/renderer.ts:125-134 | the `forEach` loop appends exactly the block's line draws, in order, and leaves the state |
| Renderer.ZplRenderer.RenderBarcode | packages/sdk/src/core/renderer.ts:143-220 | the state and the draws are those of `BarcodeEffect` |
| Renderer.ZplRenderer.RenderGraphicBox | packages/sdk/src/core/renderer.ts:226-297 | appends the box's draw and restores the state |
| Renderer.ZplRenderer.RenderItem | packages/sdk/src/core/renderer.ts:86-92 | the type dispatch equals `ItemEffect` |
| Renderer.ZplRenderer.RenderItemsInOrder | packages/sdk/src/core/renderer.ts:84-93 | the item loop equals `RenderItems`, each item finishing before the next |
| Renderer.ZplRenderer.ClearToBackground | packages/sdk/src/core/renderer.ts:74-81 | clears to the background and sets fill and stroke to the foreground colour |
| Renderer.ZplRenderer.Render | packages/sdk/src/core/renderer.ts:38-97 | the state and draws are those of `RenderSpec`, and the CSS size is the logical label size |
| CommandSuggest.EmptyDistance | packages/editor/src/index.tsx:31-32 | the distance to or from the empty string is the other string's length |
| CommandSuggest.DistanceBounds | packages/editor/src/index.tsx:45-56 | the distance is at least the length difference and at most the longer length |
| CommandSuggest.EditDistance | packages/editor/src/index.tsx:45-56 | the distance is 0 exactly when the strings are equal |
| CommandSuggest.FillRow | packages/editor/src/index.tsx:46-53 | one row of the matrix is filled with the recurrence, and the other rows are unchanged |
| CommandSuggest.LevenshteinDistance | packages/editor/src/index.tsx:30-57 | the matrix computation returns the recursive edit distance |
| CommandSuggest.ClosestUnique | packages/editor/src/index.tsx:63-69 | at most one position is the earliest minimum |
| CommandSuggest.FindClosestMatch | packages/editor/src/index.tsx:59-72 | null exactly for an empty list; otherwise the earliest element whose distance is at most every element's |
| DocNav.FlattenAppend | apps/site/src/components/doc-sidebar.tsx:92-96 | flattening concatenated section lists concatenates their pages |
| DocNav.Flatten | apps/site/src/components/doc-sidebar.tsx:92-96 | a page is in the flat list exactly when some section holds it |
| DocNav.AllPages | apps/site/src/components/doc-sidebar.tsx:92-96 | the fifteen pages are the three sections' items, in order |
| DocNav.FindIndex | apps/site/src/components/doc-sidebar.tsx:101 | `findIndex` is −1 exactly when no page has the URL, and otherwise the first such page |
| DocNav.AdjacentIn | apps/site/src/components/doc-sidebar.tsx:99-118 | an unknown URL gives no previous, current or next page; a known one gives that page as current |
| DocNav.AdjacentAt | apps/site/src/components/doc-sidebar.tsx:112-117 | at the first match i: previous is page i−1 when i > 0, next is page i+1 when i < n−1, and both are null otherwise |
| DocNav.AdjacentPages | apps/site/src/components/doc-sidebar.tsx:99-118 | `getAdjacentPages` looks the URL up in the site's flattened page list |
| DocNav.SiteUrlsDistinct | apps/site/src/components/doc-sidebar.tsx:6-84 | the site's fifteen URLs are distinct |
| DocNav.NextThenPrevious | apps/site/src/components/doc-sidebar.tsx:112-117 | with distinct URLs, the previous page of the next page is the current page |
| DocNav.PreviousThenNext | apps/site/src/components/doc-sidebar.tsx:112-117 | with distinct URLs, the next page of the previous page is the current page |

## Left out

- Logging: every `console.*` call, including the truncation warning in `tag.ts`. Its output has no effect on results.
- Canvas pixels: the DPI and device-pixel-ratio transform, the canvas's pixel size, quadratic-curve paths and font metrics. These are floating-point browser work. The renderer is modelled as a trace of abstract drawing operations on a modelled context state.
- bwip-js barcode generation: it is a foreign async library. It is a parameter `accepts` that says whether a request succeeds. The size of the generated image is not modelled.
- Asynchrony: `render` and `renderBarcode` are modelled as sequential. Each barcode finishes before the next item, as the `await` in the loop makes it.
- JsText.ParseInt: its value is an exact unbounded integer; JavaScript numbers are binary64, so `parseInt` rounds results beyond 2^53 (`parseInt("9007199254740993", 10)` is 9007199254740992).
- JsText.ParseIntNoRadix: exact unbounded integers as well, where JavaScript rounds beyond 2^53 in the same way.
- JsText.AddNum: the sum is exact; the `^FO` sums `labelHome + offset` (packages/sdk/src/core/parser.ts:281-282) round beyond 2^53 in JavaScript.
- Floating point: `parseFloat` is read over exact decimals (`real`), and `Math.round` over exact reals. `Infinity` is kept apart from finite values; NaN is a separate case.
- Regular expression engines: each pattern is an explicit scanner with the pattern's own leftmost, non-overlapping and greedy semantics. Variable names in `produce` are assumed to be alphanumeric, because the source builds the pattern from the name without escaping. Values are substituted literally, so a `$` pattern in a value is not modelled.
- JavaScript strings are sequences of UTF-16 code units; here they are sequences of Unicode scalar values. A character outside the Basic Multilingual Plane is one element here and two code units there. The model counts code units where the tag measures and cuts its input (`Tag.Utf16Length`, `Tag.Truncate`). Elsewhere it counts characters: `levenshteinDistance` counts code units and would differ on such characters, but the editor passes it only ASCII command tokens. The regular expressions involved match such a character the same way whether it is one element or two. A lone surrogate cannot be represented here.
- `ZebraEncodeError` for bytes outside the table is modelled as a `Result` error. It can never occur.
- The catalog metadata in `zpl-commands.ts` (names, descriptions, implementation status, reference URLs) drives the UI only. Just the key set is modelled, as a constant.
- `BarcodeItem`'s back-reference to its `Label` becomes a parameter `labelDefaults`, read at the time of use.
- The editor's React code, the site's other components, `Printer.print` (a network `fetch`), the listener relay, the presets and the re-exports are not part of this model.
- Commands.CatalogShape: states the prefix and letter of every catalog key but not which third characters the catalog lists; those are in `CommandTails`.
- Parser.ZplParser.IsValidCommandOf: states only that an accepted command has the catalog's shape, not the full key set.
- ParamParsers.StripFieldSeparator: states only that text without `^` is unchanged. That is the only kind of text the scanner produces.
- Tag.Interleave: states the single-piece case only; the general case is its definition, and `Tag.TagInput` states what the tag makes of it.
- Tag.MatchShort: states the shape of a match but not that every `label … {…}` input is matched.
- Renderer.BoxRadius: states the zero case; the bounds are in `Renderer.RadiusBounded`.
- Config.ZplJsConfig.SetZplMaxLength: the maximum is an integer here. A JavaScript number can also be a fraction or `Infinity`, which the setter accepts; neither is modelled.
- Parser.ZplParser.Produce and Substitution.Produced: a variable with an empty name is not modelled. `label X(: string){…}` declares one (tag.ts:39-47). The source then builds a pattern (parser.ts:619-623) that matches the empty string at every position of a field whose data between `^FD` and `^FS` is all alphanumeric, from just after `^FD` to just before `^FS`. It therefore inserts the value at each of those positions. Both members require plain variable names only when the label is valid; for an invalid label they fail whatever the variables are.
- Renderer.ZplRenderer.constructor: the canvas's 2D context is a parameter here, so the "Failed to get 2D context from canvas" error (renderer.ts:21-24) is not modelled.
- Tag.Truncate: when the maximum falls between the two code units of a character outside the Basic Multilingual Plane, `substring` keeps the lone high surrogate, which `TextEncoder` later turns into U+FFFD; the model keeps neither half. `Tag.TagInput` promises the whole text only when its UTF-16 length fits the maximum.
- Tag.Truncate: the maximum is an integer or NaN. `substring` with a fractional maximum truncates it, and with `Infinity` keeps the whole input; neither case is modelled.
