/** `ZPLParser` (packages/sdk/src/core/parser.ts). The parse-time state is
    given as a value (`ParserState`) with one step function per handler and
    the fold `Run` over the tokens; the class `ZplParser` holds the same state
    in fields, and each of its methods is proved to change them exactly as
    the matching function says. */
module Parser {
  import opened Wrappers
  import opened JsText
  import opened Types
  import opened Commands
  import opened Tokenizer
  import opened ParamParsers
  import opened Substitution

  /** The fields the handlers read and write, with the label's `items` and
      `barcodeDefaults`. Coordinates are JavaScript numbers: NaN is `None`. */
  datatype ParserState = ParserState(
    items: seq<Item>,
    barcodeDefaults: Option<BarcodeDefaults>,
    currentFont: FontSettings,
    currentX: Num, currentY: Num,
    labelHomeX: Num, labelHomeY: Num,
    currentBlockFormat: Option<TextBlockFormat>,
    isBarcodeMode: bool, isFieldReverseMode: bool, isFieldHexMode: bool,
    barcodeType: string,
    currentBarcodeOptions: Option<BarcodeOptions>)

  /** The state of a new parser over a new label. */
  const InitialState := ParserState([], None, DefaultFont, Some(0), Some(0), Some(0), Some(0), None,
                                    false, false, false, "", None)

  /** A handler's effect: the new state, and the message of the error it
      throws, if it throws. A handler that throws may already have changed
      the state. */
  datatype Outcome = Outcome(state: ParserState, error: Option<string>)

  /** `handleB3`: barcode mode on with type "CODE39" whatever happens; the
      options only when they parse. */
  function B3Step(params: string, st: ParserState): (o: Outcome)
    ensures o.state.isBarcodeMode && o.state.barcodeType == "CODE39"
    ensures o.error.Some? <==> ParseCode39Parameters(params).Failure?
    ensures o.error.Some? ==> o.error.value == ParseCode39Parameters(params).error
    ensures o.state.currentBarcodeOptions ==
      if o.error.Some? then st.currentBarcodeOptions else Some(ParseCode39Parameters(params).value)
    ensures o.state.(isBarcodeMode := st.isBarcodeMode, barcodeType := st.barcodeType,
                     currentBarcodeOptions := st.currentBarcodeOptions) == st
  {
    var marked := st.(isBarcodeMode := true, barcodeType := "CODE39");
    match ParseCode39Parameters(params)
    case Success(options) => Outcome(marked.(currentBarcodeOptions := Some(options)), None)
    case Failure(message) => Outcome(marked, Some(message))
  }

  /** `handleBC`: as `handleB3` with type "CODE128". */
  function BcStep(params: string, st: ParserState): (o: Outcome)
    ensures o.state.isBarcodeMode && o.state.barcodeType == "CODE128"
    ensures o.error.Some? <==> ParseCode128Parameters(params).Failure?
    ensures o.error.Some? ==> o.error.value == ParseCode128Parameters(params).error
    ensures o.state.currentBarcodeOptions ==
      if o.error.Some? then st.currentBarcodeOptions else Some(ParseCode128Parameters(params).value)
    ensures o.state.(isBarcodeMode := st.isBarcodeMode, barcodeType := st.barcodeType,
                     currentBarcodeOptions := st.currentBarcodeOptions) == st
  {
    var marked := st.(isBarcodeMode := true, barcodeType := "CODE128");
    match ParseCode128Parameters(params)
    case Success(options) => Outcome(marked.(currentBarcodeOptions := Some(options)), None)
    case Failure(message) => Outcome(marked, Some(message))
  }

  /** `handleBY`: the label's barcode defaults, replaced only when they parse. */
  function ByStep(params: string, st: ParserState): (o: Outcome)
    ensures o.error.Some? <==> ParseByParameters(params).Failure?
    ensures o.error.Some? ==> o.state == st && o.error.value == ParseByParameters(params).error
    ensures o.error.None? ==> o.state == st.(barcodeDefaults := Some(ParseByParameters(params).value))
  {
    match ParseByParameters(params)
    case Success(d) => Outcome(st.(barcodeDefaults := Some(d)), None)
    case Failure(message) => Outcome(st, Some(message))
  }

  /** `handleCF`: only the current font changes, and it never throws. */
  function CfStep(params: string, st: ParserState): (o: Outcome)
    ensures o.error.None?
    ensures o.state.currentFont.fontName == Split(StripFieldSeparator(params), ',')[0]
    ensures o.state.(currentFont := st.currentFont) == st
  {
    Outcome(st.(currentFont := ParseFont(params)), None)
  }

  /** The item `handleFD` appends. */
  function FieldItem(data: string, st: ParserState): (item: Item)
    ensures !st.isBarcodeMode ==> item.TextItem? && item.font == st.currentFont
    ensures st.isBarcodeMode ==> item.BarcodeItem? && item.barcodeType == st.barcodeType
    ensures st.isBarcodeMode ==> item.options == st.currentBarcodeOptions
    ensures st.isBarcodeMode ==> (item.renderOptions.Some? <==> st.barcodeDefaults.Some?)
    ensures st.isBarcodeMode && st.barcodeDefaults.Some? ==>
      item.renderOptions == Some(DefaultsAsRenderOptions(st.barcodeDefaults.value))
    ensures !st.isBarcodeMode ==> item.blockFormat == st.currentBlockFormat
    ensures item.x == st.currentX && item.y == st.currentY && item.data == data
    ensures item.fieldReversed == st.isFieldReverseMode && item.fieldHex == st.isFieldHexMode
  {
    if !st.isBarcodeMode then
      NewTextItem(st.currentX, st.currentY, data, st.currentFont, st.currentBlockFormat,
                  st.isFieldReverseMode, st.isFieldHexMode)
    else
      BarcodeItem(st.currentX, st.currentY, data, st.barcodeType, st.currentBarcodeOptions,
                  if st.barcodeDefaults.Some? then Some(DefaultsAsRenderOptions(st.barcodeDefaults.value)) else None,
                  st.isFieldReverseMode, st.isFieldHexMode)
  }

  /** `handleFD`: one item appended at the cursor, then barcode mode and
      both one-shot flags are off; nothing else changes. */
  function FdStep(params: string, st: ParserState): (o: Outcome)
    ensures o.error.None?
    ensures o.state.items == st.items + [FieldItem(StripFieldSeparator(params), st)]
    ensures !o.state.isBarcodeMode && !o.state.isFieldReverseMode && !o.state.isFieldHexMode
    ensures o.state.(items := st.items, isBarcodeMode := st.isBarcodeMode,
                     isFieldReverseMode := st.isFieldReverseMode, isFieldHexMode := st.isFieldHexMode) == st
  {
    var item := FieldItem(StripFieldSeparator(params), st);
    Outcome(st.(items := st.items + [item], isBarcodeMode := false,
                isFieldReverseMode := false, isFieldHexMode := false), None)
  }

  /** `handleFO`: with two positions the cursor moves to the label home plus
      the offsets; otherwise nothing happens. Items and home stay. */
  function FoStep(params: string, st: ParserState): (o: Outcome)
    ensures o.error.None?
    ensures var origin := ParseFieldOrigin(params);
      origin.Some? ==> o.state.currentX == AddNum(st.labelHomeX, origin.value.0) &&
                       o.state.currentY == AddNum(st.labelHomeY, origin.value.1)
    ensures ParseFieldOrigin(params).None? ==> o.state == st
    ensures o.state.(currentX := st.currentX, currentY := st.currentY) == st
  {
    match ParseFieldOrigin(params)
    case Some((dx, dy)) =>
      Outcome(st.(currentX := AddNum(st.labelHomeX, dx), currentY := AddNum(st.labelHomeY, dy)), None)
    case None => Outcome(st, None)
  }

  /** `handleFH`: the hex flag is set for the next field. */
  function FhStep(st: ParserState): (o: Outcome)
    ensures o.error.None? && o.state.isFieldHexMode
    ensures o.state.(isFieldHexMode := st.isFieldHexMode) == st
  {
    Outcome(st.(isFieldHexMode := true), None)
  }

  /** `handleFR`: the reverse flag is set for the next field or box. */
  function FrStep(st: ParserState): (o: Outcome)
    ensures o.error.None? && o.state.isFieldReverseMode
    ensures o.state.(isFieldReverseMode := st.isFieldReverseMode) == st
  {
    Outcome(st.(isFieldReverseMode := true), None)
  }

  /** A box with its reverse flag set to `reversed`. */
  function ReverseBox(box: Item, reversed: bool): (b: Item)
    requires box.GraphicBoxItem?
    ensures b.GraphicBoxItem? && b.fieldReversed == reversed
    ensures b.x == box.x && b.y == box.y && b.width == box.width && b.height == box.height
    ensures b.thickness == box.thickness && b.color == box.color && b.roundedness == box.roundedness
  {
    GraphicBoxItem(box.x, box.y, reversed, box.width, box.height, box.thickness, box.color, box.roundedness)
  }

  /** `handleGB`: a valid box is appended at the cursor and takes (and
      clears) the reverse flag; an invalid one appends nothing and leaves the
      flag pending. */
  function GbStep(params: string, st: ParserState): (o: Outcome)
    ensures var box := BuildGraphicBox(params, st.currentX, st.currentY);
      (o.error.Some? <==> box.Failure?) &&
      (box.Failure? ==> o.state == st && o.error.value == box.error) &&
      (box.Success? ==> o.state.items == st.items + [ReverseBox(box.value, st.isFieldReverseMode)]
                        && !o.state.isFieldReverseMode
                        && o.state.(items := st.items, isFieldReverseMode := st.isFieldReverseMode) == st)
  {
    match BuildGraphicBox(params, st.currentX, st.currentY)
    case Success(box) =>
      Outcome(st.(items := st.items + [ReverseBox(box, st.isFieldReverseMode)],
                  isFieldReverseMode := false), None)
    case Failure(message) => Outcome(st, Some(message))
  }

  /** `handleLH`: only the label home changes, and only when it is valid. */
  function LhStep(params: string, st: ParserState): (o: Outcome)
    ensures var home := ParseLabelHome(params);
      (o.error.Some? <==> home.Failure?) &&
      (home.Failure? ==> o.state == st && o.error.value == home.error) &&
      (home.Success? ==> o.state == st.(labelHomeX := home.value.0, labelHomeY := home.value.1))
  {
    match ParseLabelHome(params)
    case Success((x, y)) => Outcome(st.(labelHomeX := x, labelHomeY := y), None)
    case Failure(message) => Outcome(st, Some(message))
  }

  /** Calling the handler the table holds. */
  function Apply(h: Handler, params: string, st: ParserState): (o: Outcome)
    ensures h == HandleNoOp ==> o == Outcome(st, None)
    ensures h == CommandNotImplemented ==> o == Outcome(st, Some("Command not implemented"))
    ensures h in {HandleCF, HandleFD, HandleFO, HandleFH, HandleFR, HandleNoOp} ==> o.error.None?
    ensures st.items <= o.state.items && |o.state.items| <= |st.items| + 1
  {
    match h
    case HandleB3 => B3Step(params, st)
    case HandleBC => BcStep(params, st)
    case HandleBY => ByStep(params, st)
    case HandleCF => CfStep(params, st)
    case HandleFD => FdStep(params, st)
    case HandleFH => FhStep(st)
    case HandleFO => FoStep(params, st)
    case HandleFR => FrStep(st)
    case HandleGB => GbStep(params, st)
    case HandleLH => LhStep(params, st)
    case HandleNoOp => Outcome(st, None)
    case CommandNotImplemented => Outcome(st, Some("Command not implemented"))
  }

  /** The text `${error}` gives for a thrown `Error`. */
  function HandlerErrorText(command: string, message: string): (r: string)
    ensures var head := "Error processing command ";
      |r| >= |head| + |command| && r[..|head|] == head && r[|head|..|head| + |command|] == command
    ensures |r| >= |message| && r[|r| - |message|..] == message
  {
    "Error processing command " + command + ": Error: " + message
  }

  /** The state and the error list during the token loop. */
  datatype Progress = Progress(state: ParserState, errors: seq<string>)

  /** One turn of the token loop: items are only added, at most one. */
  function Step(t: Token, p: Progress): (r: Progress)
    ensures p.state.items <= r.state.items && |r.state.items| <= |p.state.items| + 1
  {
    if !IsValidCommand(t.command) then
      Progress(p.state, p.errors + ["Invalid command: " + t.command])
    else
      var o := Apply(HandlerFor(t.command), t.params, p.state);
      Progress(o.state, if o.error.Some? then p.errors + [HandlerErrorText(t.command, o.error.value)] else p.errors)
  }

  /** Error isolation: an unknown command adds "Invalid command" and
      changes nothing; a catalogued one without a handler adds "Command not
      implemented" and changes nothing; any other runs its handler, whose
      error, if any, is recorded with the command's name. The loop goes on
      in every case. */
  lemma StepErrors(t: Token, p: Progress)
    ensures !IsValidCommand(t.command) ==> Step(t, p) == Progress(p.state, p.errors + ["Invalid command: " + t.command])
    ensures IsValidCommand(t.command) && t.command !in ImplementedCommands ==>
      Step(t, p) == Progress(p.state, p.errors + [HandlerErrorText(t.command, "Command not implemented")])
    ensures IsValidCommand(t.command) ==>
      var o := Apply(HandlerFor(t.command), t.params, p.state);
      Step(t, p).state == o.state &&
      Step(t, p).errors == p.errors + (if o.error.Some? then [HandlerErrorText(t.command, o.error.value)] else [])
  {
  }

  /** The token loop over `tokens`, in order. Items are only added, at most
      one per token. */
  function Run(tokens: seq<Token>, init: Progress): (r: Progress)
    ensures init.state.items <= r.state.items && |r.state.items| <= |init.state.items| + |tokens|
  {
    if tokens == [] then init
    else Step(tokens[|tokens| - 1], Run(tokens[..|tokens| - 1], init))
  }

  /** Errors are only appended, at most one per token, so earlier errors
      keep their place. */
  lemma {:induction false} RunErrorsGrow(tokens: seq<Token>, init: Progress)
    ensures init.errors <= Run(tokens, init).errors
    ensures |Run(tokens, init).errors| <= |init.errors| + |tokens|
  {
    if tokens != [] {
      var before := Run(tokens[..|tokens| - 1], init);
      RunErrorsGrow(tokens[..|tokens| - 1], init);
      StepErrors(tokens[|tokens| - 1], before);
    }
  }

  /** Running two token lists one after the other is running their
      concatenation: the loop carries its state and errors forward. */
  lemma {:induction false} RunConcat(ts: seq<Token>, us: seq<Token>, init: Progress)
    ensures Run(ts + us, init) == Run(us, Run(ts, init))
    decreases |us|
  {
    if us == [] {
      assert ts + us == ts;
    } else {
      var last := us[|us| - 1];
      assert ts + us == (ts + us[..|us| - 1]) + [last];
      assert (ts + us)[..|ts + us| - 1] == ts + us[..|us| - 1];
      RunConcat(ts, us[..|us| - 1], init);
    }
  }

  /** The loop's last turn. */
  lemma RunSnoc(ts: seq<Token>, t: Token, init: Progress)
    ensures Run(ts + [t], init) == Step(t, Run(ts, init))
  {
    assert (ts + [t])[..|ts|] == ts;
  }

  /** The loop's turn `i` over a token list. */
  lemma RunPrefixStep(tokens: seq<Token>, i: nat, init: Progress)
    requires i < |tokens|
    ensures Run(tokens[..i + 1], init) == Step(tokens[i], Run(tokens[..i], init))
  {
    assert tokens[..i + 1][..i] == tokens[..i];
  }

  predicate StartsWithXa(z: string) { |z| >= 3 && z[..3] == "^XA" }

  predicate EndsWithXz(z: string) { |z| >= 3 && z[|z| - 3..] == "^XZ" }

  /** `^XA` at the start and `^XZ` at the end cannot overlap. */
  lemma MarkersApart(z: string)
    requires StartsWithXa(z) && EndsWithXz(z)
    ensures |z| >= 6
  {
    var head, tail := z[..3], z[|z| - 3..];
    assert head[0] == z[0] && head[1] == z[1] && head[2] == z[2];
    assert tail[0] == z[|z| - 3] && tail[1] == z[|z| - 2] && tail[2] == z[|z| - 1];
  }

  /** What lies between `^XA` and `^XZ`. */
  function Body(z: string): (b: string)
    requires StartsWithXa(z) && EndsWithXz(z)
    ensures z == "^XA" + b + "^XZ"
  {
    MarkersApart(z);
    assert z == z[..3] + z[3..|z| - 3] + z[|z| - 3..];
    z[3..|z| - 3]
  }

  /** The effect of `parse()`: the new state, the new `zplInput`, the error
      list, whether `result.label` is set, and `result.isValid`. */
  datatype ParseRun = ParseRun(state: ParserState, zplInput: string, errors: seq<string>,
                               labelSet: bool, isValid: bool)

  /** `parse()` as a value, from the current `zplInput` and state. */
  function ParseSpec(zplInput: string, st: ParserState): (r: ParseRun)
    ensures !StartsWithXa(zplInput) ==> r == ParseRun(st, zplInput, ["Missing ^XA start command"], false, false)
    ensures StartsWithXa(zplInput) && !EndsWithXz(zplInput) ==>
      r == ParseRun(st, zplInput, ["Missing ^XZ end command"], false, false)
    ensures r.isValid <==> r.errors == []
    ensures r.labelSet <==> StartsWithXa(zplInput) && EndsWithXz(zplInput) && |r.state.items| > 0
    ensures r.isValid ==> r.labelSet
    ensures st.items <= r.state.items
  {
    if !StartsWithXa(zplInput) then ParseRun(st, zplInput, ["Missing ^XA start command"], false, false)
    else if !EndsWithXz(zplInput) then ParseRun(st, zplInput, ["Missing ^XZ end command"], false, false)
    else
      var body := Body(zplInput);
      var p := Run(Tokenize(body), Progress(st, []));
      if |p.state.items| == 0 then ParseRun(p.state, body, p.errors + ["Label contains no printable items"], false, false)
      else ParseRun(p.state, body, p.errors, true, p.errors == [])
  }

  /** `ParseSpec` once both markers are in place. */
  lemma ParseSpecOfBody(zplInput: string, st: ParserState)
    requires StartsWithXa(zplInput) && EndsWithXz(zplInput)
    ensures var p := Run(Tokenize(Body(zplInput)), Progress(st, []));
      ParseSpec(zplInput, st) ==
        if |p.state.items| == 0 then ParseRun(p.state, Body(zplInput), p.errors + ["Label contains no printable items"], false, false)
        else ParseRun(p.state, Body(zplInput), p.errors, true, p.errors == [])
  {
  }

  /** `isValid` holds exactly when the markers are in place, the loop left
      at least one item and recorded no error. */
  lemma IsValidExactly(zplInput: string, st: ParserState)
    ensures ParseSpec(zplInput, st).isValid <==>
      StartsWithXa(zplInput) && EndsWithXz(zplInput) &&
      var p := Run(Tokenize(Body(zplInput)), Progress(st, []));
      |p.state.items| > 0 && p.errors == []
  {
  }

  /** After a valid parse, `produce()` without variables gives back the
      input `parse()` started from. */
  lemma ProduceRestoresInput(zplInput: string, st: ParserState)
    requires ParseSpec(zplInput, st).isValid
    ensures Produced(true, ParseSpec(zplInput, st).zplInput, []) == Success(zplInput)
  {
  }

  /** `parse()` is not re-entrant: it keeps the items already on the label,
      and a second call reads the body the first one left in `zplInput`, so
      it reports a missing `^XA` unless the body itself starts with one. */
  lemma ParseTwice(zplInput: string, st: ParserState)
    requires StartsWithXa(zplInput) && EndsWithXz(zplInput)
    requires !StartsWithXa(Body(zplInput))
    ensures var first := ParseSpec(zplInput, st);
      var second := ParseSpec(first.zplInput, first.state);
      second.errors == ["Missing ^XA start command"] && !second.isValid &&
      second.state == first.state
  {
  }

  /** The barcode types the parser can give: none yet, or those of `^B3`
      and `^BC`. */
  predicate KnownBarcodeType(t: string) { t == "" || t == "CODE39" || t == "CODE128" }

  /** Barcode mode is only on after `^B3`/`^BC`, and every barcode item
      holds their upper-case type. */
  predicate UpperCaseBarcodes(st: ParserState) {
    && KnownBarcodeType(st.barcodeType)
    && (st.isBarcodeMode ==> st.barcodeType != "")
    && forall k :: 0 <= k < |st.items| && st.items[k].BarcodeItem? ==>
         st.items[k].barcodeType == "CODE39" || st.items[k].barcodeType == "CODE128"
  }

  /** The token loop keeps `UpperCaseBarcodes`. */
  lemma {:induction false} RunKeepsUpperCaseBarcodes(tokens: seq<Token>, init: Progress)
    requires UpperCaseBarcodes(init.state)
    ensures UpperCaseBarcodes(Run(tokens, init).state)
  {
    if tokens != [] {
      RunKeepsUpperCaseBarcodes(tokens[..|tokens| - 1], init);
      var t := tokens[|tokens| - 1];
      var before := Run(tokens[..|tokens| - 1], init);
      if IsValidCommand(t.command) {
        ApplyKeepsUpperCaseBarcodes(HandlerFor(t.command), t.params, before.state);
      }
    }
  }

  /** Each handler keeps `UpperCaseBarcodes`: only `^B3`/`^BC` turn barcode
      mode on, and they set the type as they do so. */
  lemma ApplyKeepsUpperCaseBarcodes(h: Handler, params: string, st: ParserState)
    requires UpperCaseBarcodes(st)
    ensures UpperCaseBarcodes(Apply(h, params, st).state)
  {
    var after := Apply(h, params, st).state;
    match h {
      case HandleFD =>
        var item := FieldItem(StripFieldSeparator(params), st);
        assert after.items == st.items + [item];
        assert item.BarcodeItem? ==> st.isBarcodeMode;
      case HandleGB =>
        assert after.items == st.items || after.items[..|st.items|] == st.items;
      case _ =>
    }
  }

  /** `getProcessedData` tests for the lower-case "code39", but the parser
      stores "CODE39", so no barcode a parse produces is ever wrapped in
      start/stop `*`s. */
  lemma ParsedBarcodesNeverWrapped(zplInput: string)
    ensures var items := ParseSpec(zplInput, InitialState).state.items;
      forall k :: 0 <= k < |items| && items[k].BarcodeItem? ==> GetProcessedData(items[k]) == items[k].data
  {
    if StartsWithXa(zplInput) && EndsWithXz(zplInput) {
      RunKeepsUpperCaseBarcodes(Tokenize(Body(zplInput)), Progress(InitialState, []));
    }
  }

  /** `ParsedZPL`. */
  datatype ParsedZpl = ParsedZpl(parsedLabel: Option<Label>, isValid: bool, errors: seq<string>,
                                 variables: Option<VariableMap>)

  /** The constructor's input normalisation: trimmed, then each CR LF pair
      replaced by LF, scanning left to right. */
  function NormaliseInput(zpl: string): (r: string)
    ensures |r| <= |Trim(zpl)|
    ensures r == DropCrBeforeLf(Trim(zpl))
  {
    CrLfToLf(Trim(zpl))
  }

  /** `s` without each carriage return that directly precedes a line feed;
      every other character is kept, in order. */
  function DropCrBeforeLf(s: string): string {
    if s == [] then []
    else (if s[0] == '\r' && |s| > 1 && s[1] == '\n' then [] else [s[0]]) + DropCrBeforeLf(s[1..])
  }

  /** `replace(/\r\n/g, "\n")`: each CR LF pair, matched left to right
      without overlap, becomes LF; that is the same as dropping each CR that
      precedes an LF. */
  function CrLfToLf(s: string): (r: string)
    ensures |r| <= |s|
    ensures '\r' !in s ==> r == s
    ensures forall c :: c in r ==> c in s
    ensures r == DropCrBeforeLf(s)
  {
    if |s| < 2 then s
    else if s[0] == '\r' && s[1] == '\n' then
      assert s[1..][1..] == s[2..];
      "\n" + CrLfToLf(s[2..])
    else [s[0]] + CrLfToLf(s[1..])
  }

  class ZplParser {
    const zplLabel: Label
    var currentFont: FontSettings
    var currentX: Num
    var currentY: Num
    var labelHomeX: Num
    var labelHomeY: Num
    var currentBlockFormat: Option<TextBlockFormat>
    var isBarcodeMode: bool
    var isFieldReverseMode: bool
    var isFieldHexMode: bool
    var barcodeType: string
    var currentBarcodeOptions: Option<BarcodeOptions>
    var zplInput: string
    var result: ParsedZpl
    var name: string
    var variables: VariableMap

    /** The handler-visible state. */
    function State(): ParserState
      reads this, zplLabel
    {
      ParserState(zplLabel.items, zplLabel.barcodeDefaults, currentFont, currentX, currentY,
                  labelHomeX, labelHomeY, currentBlockFormat, isBarcodeMode, isFieldReverseMode,
                  isFieldHexMode, barcodeType, currentBarcodeOptions)
    }

    /** What the handlers leave alone. */
    function Rest(): (string, ParsedZpl, string, VariableMap, Position, FontSettings)
      reads this, zplLabel
    {
      (zplInput, result, name, variables, zplLabel.homePosition, zplLabel.defaultFont)
    }

    /** A parser over the trimmed input with CR LF turned into LF, a new
        label, and the label's default font as the current font. */
    constructor(zpl: string)
      ensures fresh(zplLabel)
      ensures zplInput == NormaliseInput(zpl) && State() == InitialState
      ensures zplLabel.homePosition == Position(0, 0) && zplLabel.defaultFont == DefaultFont
      ensures result == ParsedZpl(None, false, [], None) && name == "Label" && variables == []
    {
      zplInput := CrLfToLf(Trim(zpl));
      zplLabel := new Label();
      currentFont := DefaultFont;
      currentX, currentY := Some(0), Some(0);
      labelHomeX, labelHomeY := Some(0), Some(0);
      currentBlockFormat := None;
      isBarcodeMode, isFieldReverseMode, isFieldHexMode := false, false, false;
      barcodeType := "";
      currentBarcodeOptions := None;
      result := ParsedZpl(None, false, [], None);
      name := "Label";
      variables := [];
    }

    /** `isValidCommand`: a catalogued command is `^A` or has the scanner's
        three-character shape. */
    function IsValidCommandOf(command: string): (b: bool)
      ensures b ==> (command == "^A" ||
                     (|command| == 3 && (command[0] == '^' || command[0] == '~') && 'A' <= command[1] <= 'Z'))
    {
      if IsValidCommand(command) then CatalogShape(command); true else false
    }

    method HandleB3(params: string) returns (error: Option<string>)
      modifies this
      ensures Outcome(State(), error) == B3Step(params, old(State())) && Rest() == old(Rest())
    {
      isBarcodeMode := true;
      barcodeType := "CODE39";
      var options := ParseCode39Parameters(params);
      if options.Failure? {
        return Some(options.error);
      }
      currentBarcodeOptions := Some(options.value);
      return None;
    }

    method HandleBC(params: string) returns (error: Option<string>)
      modifies this
      ensures Outcome(State(), error) == BcStep(params, old(State())) && Rest() == old(Rest())
    {
      isBarcodeMode := true;
      barcodeType := "CODE128";
      var options := ParseCode128Parameters(params);
      if options.Failure? {
        return Some(options.error);
      }
      currentBarcodeOptions := Some(options.value);
      return None;
    }

    method HandleBY(params: string) returns (error: Option<string>)
      modifies zplLabel
      ensures Outcome(State(), error) == ByStep(params, old(State())) && Rest() == old(Rest())
    {
      var d := ParseByParameters(params);
      if d.Failure? {
        return Some(d.error);
      }
      zplLabel.barcodeDefaults := Some(d.value);
      return None;
    }

    method HandleCF(params: string) returns (error: Option<string>)
      modifies this
      ensures Outcome(State(), error) == CfStep(params, old(State())) && Rest() == old(Rest())
    {
      currentFont := ParseFont(params);
      return None;
    }

    method HandleFD(params: string) returns (error: Option<string>)
      modifies this, zplLabel
      ensures Outcome(State(), error) == FdStep(params, old(State())) && Rest() == old(Rest())
    {
      var data := StripFieldSeparator(params);
      if !isBarcodeMode {
        zplLabel.items := zplLabel.items + [NewTextItem(currentX, currentY, data, currentFont, currentBlockFormat,
                                                  isFieldReverseMode, isFieldHexMode)];
      } else {
        var renderOptions := if zplLabel.barcodeDefaults.Some? then Some(DefaultsAsRenderOptions(zplLabel.barcodeDefaults.value)) else None;
        zplLabel.items := zplLabel.items + [BarcodeItem(currentX, currentY, data, barcodeType, currentBarcodeOptions,
                                                  renderOptions, isFieldReverseMode, isFieldHexMode)];
        isBarcodeMode := false;
      }
      if isFieldReverseMode {
        isFieldReverseMode := false;
      }
      if isFieldHexMode {
        isFieldHexMode := false;
      }
      return None;
    }

    method HandleFO(params: string) returns (error: Option<string>)
      modifies this
      ensures Outcome(State(), error) == FoStep(params, old(State())) && Rest() == old(Rest())
    {
      var p := Split(params, ',');
      if |p| >= 2 {
        currentX := AddNum(labelHomeX, ParseInt(p[0]));
        currentY := AddNum(labelHomeY, ParseInt(p[1]));
      }
      return None;
    }

    method HandleFH() returns (error: Option<string>)
      modifies this
      ensures Outcome(State(), error) == FhStep(old(State())) && Rest() == old(Rest())
    {
      isFieldHexMode := true;
      return None;
    }

    method HandleFR() returns (error: Option<string>)
      modifies this
      ensures Outcome(State(), error) == FrStep(old(State())) && Rest() == old(Rest())
    {
      isFieldReverseMode := true;
      return None;
    }

    method HandleGB(params: string) returns (error: Option<string>)
      modifies this, zplLabel
      ensures Outcome(State(), error) == GbStep(params, old(State())) && Rest() == old(Rest())
    {
      var box := BuildGraphicBox(params, currentX, currentY);
      if box.Failure? {
        return Some(box.error);
      }
      var item := box.value;
      if isFieldReverseMode {
        item := ReverseBox(item, true);
        isFieldReverseMode := false;
      }
      zplLabel.items := zplLabel.items + [item];
      return None;
    }

    method HandleLH(params: string) returns (error: Option<string>)
      modifies this
      ensures Outcome(State(), error) == LhStep(params, old(State())) && Rest() == old(Rest())
    {
      var p := Split(params, ',');
      if |p| >= 2 {
        var x, y := ParseInt(p[0]), ParseInt(p[1]);
        if OutOfHomeRange(x) || OutOfHomeRange(y) {
          return Some(HomeRangeError);
        }
        labelHomeX, labelHomeY := x, y;
        return None;
      }
      return Some(HomeArityError);
    }

    /** `zplCommandHandlers[command](cleanParams)`. */
    method Dispatch(h: Handler, params: string) returns (error: Option<string>)
      modifies this, zplLabel
      ensures Outcome(State(), error) == Apply(h, params, old(State())) && Rest() == old(Rest())
    {
      match h
      case HandleB3 => error := HandleB3(params);
      case HandleBC => error := HandleBC(params);
      case HandleBY => error := HandleBY(params);
      case HandleCF => error := HandleCF(params);
      case HandleFD => error := HandleFD(params);
      case HandleFH => error := HandleFH();
      case HandleFO => error := HandleFO(params);
      case HandleFR => error := HandleFR();
      case HandleGB => error := HandleGB(params);
      case HandleLH => error := HandleLH(params);
      case HandleNoOp => error := None;
      case CommandNotImplemented => error := Some("Command not implemented");
    }

    /** One turn of the token loop of `parse()`. */
    method ProcessToken(t: Token)
      modifies this, zplLabel
      ensures Progress(State(), result.errors) == Step(t, Progress(old(State()), old(result.errors)))
      ensures result == old(result).(errors := result.errors)
      ensures zplInput == old(zplInput) && name == old(name) && variables == old(variables)
    {
      if !IsValidCommandOf(t.command) {
        result := result.(errors := result.errors + ["Invalid command: " + t.command]);
      } else {
        var error := Dispatch(HandlerFor(t.command), t.params);
        if error.Some? {
          result := result.(errors := result.errors + [HandlerErrorText(t.command, error.value)]);
        }
      }
    }

    /** `parse()`: the structural checks, the token loop over the body and
        the final verdict, exactly as `ParseSpec` describes. */
    method Parse() returns (r: ParsedZpl)
      modifies this, zplLabel
      ensures var spec := ParseSpec(old(zplInput), old(State()));
        State() == spec.state && zplInput == spec.zplInput &&
        result == ParsedZpl(if spec.labelSet then Some(zplLabel) else None, spec.isValid, spec.errors,
                            Some(old(variables)))
      ensures r == result && name == old(name) && variables == old(variables)
    {
      result := ParsedZpl(None, false, [], Some(variables));
      if !StartsWithXa(zplInput) {
        result := result.(errors := result.errors + ["Missing ^XA start command"]);
        return result;
      }
      if !EndsWithXz(zplInput) {
        result := result.(errors := result.errors + ["Missing ^XZ end command"]);
        return result;
      }
      ghost var st0 := State();
      ghost var z0 := zplInput;
      zplInput := Body(zplInput);
      RunTokens(Tokenize(zplInput));
      ParseSpecOfBody(z0, st0);
      if |zplLabel.items| == 0 {
        result := result.(errors := result.errors + ["Label contains no printable items"]);
        return result;
      }
      result := result.(parsedLabel := Some(zplLabel));
      if |result.errors| == 0 {
        result := result.(isValid := true);
      }
      return result;
    }

    /** The token loop of `parse()`: each token in order. */
    method RunTokens(tokens: seq<Token>)
      modifies this, zplLabel
      ensures Progress(State(), result.errors) == Run(tokens, Progress(old(State()), old(result.errors)))
      ensures result == old(result).(errors := result.errors)
      ensures zplInput == old(zplInput) && name == old(name) && variables == old(variables)
    {
      ghost var init := Progress(State(), result.errors);
      var i := 0;
      while i < |tokens|
        invariant 0 <= i <= |tokens|
        invariant Progress(State(), result.errors) == Run(tokens[..i], init)
        invariant result.parsedLabel == old(result.parsedLabel) && result.isValid == old(result.isValid)
        invariant result.variables == old(result.variables)
        invariant zplInput == old(zplInput) && name == old(name) && variables == old(variables)
      {
        ProcessToken(tokens[i]);
        RunPrefixStep(tokens, i, init);
        i := i + 1;
      }
      assert tokens[..i] == tokens;
    }

    /** `produce()`: the variables applied one after the other, in map
        order, to the label text. */
    method Produce() returns (r: Result<string, string>)
      requires result.isValid ==> forall k :: 0 <= k < |variables| ==> PlainVariable(variables[k].1)
      ensures r == Produced(result.isValid, zplInput, variables)
    {
      if result.isValid {
        var workingString := "^XA" + zplInput + "^XZ";
        var i := 0;
        while i < |variables|
          invariant 0 <= i <= |variables|
          invariant workingString == SubstituteAll(variables[..i], "^XA" + zplInput + "^XZ")
        {
          assert variables[..i + 1][..i] == variables[..i];
          workingString := ReplaceVariable(workingString, variables[i].1);
          i := i + 1;
        }
        assert variables[..i] == variables;
        return Success(workingString);
      }
      return Failure("Label is not valid");
    }
  }
}
