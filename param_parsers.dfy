/** The parameter parsers of `ZPLParser` (packages/sdk/src/core/parser.ts):
    each maps a cleaned parameter string to a fresh record or to the message
    of the error it throws. Positions are comma-separated; a position that
    is missing or empty keeps its default. */
module ParamParsers {
  import opened Wrappers
  import opened JsText
  import opened Types

  /** `params.length > k && params[k]`: position `k` holds a non-empty value. */
  predicate Present(params: seq<string>, k: nat) {
    |params| > k && params[k] != ""
  }

  /** Position `k` holds a value that `IntInRange` rejects. */
  predicate OutOfRange(params: seq<string>, k: nat, lo: int, hi: int, error: string) {
    Present(params, k) && IntInRange(params[k], lo, hi, error).Failure?
  }

  const OrientationError := "Invalid orientation value. Must be N, R, I, or B"
  const BarcodeHeightError := "Barcode height must be between 1 and 32000 dots"
  const Code128ModeError := "Invalid Code 128 mode. Must be N, U, A, or D"
  const ModuleWidthError := "Module width must be between 1 and 10 dots"
  const RatioError := "Wide bar to narrow bar ratio must be between 2.0 and 3.0"
  const ByHeightError := "Height must be greater than 0"
  const BoxWidthError := "Box width must be between 1 and 32000 dots"
  const BoxHeightError := "Box height must be between 1 and 32000 dots"
  const ThicknessError := "Border thickness must be between 1 and 32000 dots"
  const ColorError := "Color must be B or W"
  const RoundednessError := "Roundedness must be between 0 and 8"
  const HomeRangeError := "^LH coordinates must be between 0 and 32000"
  const HomeArityError := "^LH command requires both x and y coordinates"

  /** The letter of an orientation. */
  function OrientationLetter(o: Orientation): char {
    match o
    case N => 'N'
    case R => 'R'
    case I => 'I'
    case B => 'B'
  }

  /** `validateOrientation`: N, R, I or B in either case, else an error. */
  function ValidateOrientation(text: string): (r: Result<Orientation, string>)
    ensures r.Success? <==> |text| == 1 && UpperChar(text[0]) in {'N', 'R', 'I', 'B'}
    ensures r.Success? ==> OrientationLetter(r.value) == UpperChar(text[0])
    ensures r.Failure? ==> r.error == OrientationError
  {
    if UpperIs(text, 'N') then Success(N)
    else if UpperIs(text, 'R') then Success(R)
    else if UpperIs(text, 'I') then Success(I)
    else if UpperIs(text, 'B') then Success(B)
    else Failure(OrientationError)
  }

  /** `parseInt(text, 10)` checked against `lo..hi`; NaN fails the check,
      since every comparison with NaN is false. */
  function IntInRange(text: string, lo: int, hi: int, message: string): (r: Result<int, string>)
    ensures r.Success? <==> ParseInt(text).Some? && lo <= ParseInt(text).value <= hi
    ensures r.Success? ==> r.value == ParseInt(text).value
    ensures r.Failure? ==> r.error == message
  {
    var v := ParseInt(text);
    if v.Some? && lo <= v.value <= hi then Success(v.value) else Failure(message)
  }

  /** A position holding `Y` or `y` (the `toUpperCase() === "Y"` flags). */
  function YesAt(params: seq<string>, k: nat, default: bool): (b: bool)
    ensures !Present(params, k) ==> b == default
    ensures Present(params, k) ==> (b <==> UpperIs(params[k], 'Y'))
  {
    if Present(params, k) then UpperIs(params[k], 'Y') else default
  }

  /** `parseCode39Parameters`: orientation, mod-43 check digit, height,
      interpretation line, line above code. */
  function ParseCode39Parameters(paramString: string): (r: Result<BarcodeOptions, string>)
    ensures var params := Split(paramString, ',');
      r.Failure? <==>
        (Present(params, 0) && ValidateOrientation(params[0]).Failure?) ||
        OutOfRange(params, 2, 1, 32000, BarcodeHeightError)
    ensures var params := Split(paramString, ',');
      Present(params, 0) && ValidateOrientation(params[0]).Failure? ==> r == Failure(OrientationError)
    ensures var params := Split(paramString, ',');
      (!(Present(params, 0) && ValidateOrientation(params[0]).Failure?) &&
       OutOfRange(params, 2, 1, 32000, BarcodeHeightError)) ==> r == Failure(BarcodeHeightError)
    ensures r.Failure? ==> r.error in {OrientationError, BarcodeHeightError}
    ensures r.Success? ==> r.value.Code39Options? && r.value.defaults.None?
    ensures var params := Split(paramString, ',');
      r.Success? ==>
        && r.value.orientation == (if Present(params, 0) then ValidateOrientation(params[0]).value else N)
        && r.value.mod43CheckDigit == YesAt(params, 1, false)
        && r.value.height == (if Present(params, 2) then ParseInt(params[2]).value else 0)
        && (Present(params, 2) ==> 1 <= r.value.height <= 32000)
        && r.value.printInterpretationLine == YesAt(params, 3, true)
        && r.value.interpretationLineAboveCode == YesAt(params, 4, false)
  {
    var params := Split(paramString, ',');
    var orientation :- if Present(params, 0) then ValidateOrientation(params[0]) else Success(N);
    var height :- if Present(params, 2) then IntInRange(params[2], 1, 32000, BarcodeHeightError) else Success(0);
    Success(Code39Options(orientation, YesAt(params, 1, false), height,
                          YesAt(params, 3, true), YesAt(params, 4, false), None))
  }

  /** The letter the source stores for each Code 128 mode. */
  function ModeLetter(m: Code128Mode): char {
    match m
    case ModeN => 'N'
    case ModeU => 'U'
    case ModeA => 'A'
    case ModeD => 'D'
  }

  /** The Code 128 mode letters. */
  function ParseCode128Mode(text: string): (r: Result<Code128Mode, string>)
    ensures r.Success? <==> |text| == 1 && UpperChar(text[0]) in {'N', 'U', 'A', 'D'}
    ensures r.Success? ==> ModeLetter(r.value) == UpperChar(text[0])
    ensures r.Failure? ==> r.error == Code128ModeError
  {
    if UpperIs(text, 'N') then Success(ModeN)
    else if UpperIs(text, 'U') then Success(ModeU)
    else if UpperIs(text, 'A') then Success(ModeA)
    else if UpperIs(text, 'D') then Success(ModeD)
    else Failure(Code128ModeError)
  }

  /** `parseCode128Parameters`: orientation, height, interpretation line,
      line above code, UCC check digit, mode (default A). */
  function ParseCode128Parameters(paramString: string): (r: Result<BarcodeOptions, string>)
    ensures var params := Split(paramString, ',');
      r.Failure? <==>
        (Present(params, 0) && ValidateOrientation(params[0]).Failure?) ||
        OutOfRange(params, 1, 1, 32000, BarcodeHeightError) ||
        (Present(params, 5) && ParseCode128Mode(params[5]).Failure?)
    ensures var params := Split(paramString, ',');
      Present(params, 0) && ValidateOrientation(params[0]).Failure? ==> r == Failure(OrientationError)
    ensures var params := Split(paramString, ',');
      (!(Present(params, 0) && ValidateOrientation(params[0]).Failure?) &&
       OutOfRange(params, 1, 1, 32000, BarcodeHeightError)) ==> r == Failure(BarcodeHeightError)
    ensures var params := Split(paramString, ',');
      (!(Present(params, 0) && ValidateOrientation(params[0]).Failure?) &&
       !OutOfRange(params, 1, 1, 32000, BarcodeHeightError) &&
       Present(params, 5) && ParseCode128Mode(params[5]).Failure?) ==> r == Failure(Code128ModeError)
    ensures r.Failure? ==> r.error in {OrientationError, BarcodeHeightError, Code128ModeError}
    ensures r.Success? ==> r.value.Code128Options? && r.value.defaults.None?
    ensures var params := Split(paramString, ',');
      r.Success? ==>
        && r.value.orientation == (if Present(params, 0) then ValidateOrientation(params[0]).value else N)
        && r.value.height == (if Present(params, 1) then ParseInt(params[1]).value else 0)
        && (Present(params, 1) ==> 1 <= r.value.height <= 32000)
        && r.value.printInterpretationLine == YesAt(params, 2, true)
        && r.value.interpretationLineAboveCode == YesAt(params, 3, false)
        && r.value.uccCheckDigit == YesAt(params, 4, false)
        && r.value.mode == (if Present(params, 5) then ParseCode128Mode(params[5]).value else ModeA)
  {
    var params := Split(paramString, ',');
    var orientation :- if Present(params, 0) then ValidateOrientation(params[0]) else Success(N);
    var height :- if Present(params, 1) then IntInRange(params[1], 1, 32000, BarcodeHeightError) else Success(0);
    var mode :- if Present(params, 5) then ParseCode128Mode(params[5]) else Success(ModeA);
    Success(Code128Options(orientation, height, YesAt(params, 2, true), YesAt(params, 3, false),
                           YesAt(params, 4, false), mode, None))
  }

  /** The `^BY` ratio: `parseFloat` of the text within 2.0..3.0; NaN and the
      infinities fail. */
  function RatioInRange(text: string): (r: Result<real, string>)
    ensures r.Success? <==> ParseFloat(text).Finite? && 2.0 <= ParseFloat(text).value <= 3.0
    ensures r.Success? ==> r.value == ParseFloat(text).value
    ensures r.Failure? ==> r.error == RatioError
  {
    var f := ParseFloat(text);
    if f.Finite? && 2.0 <= f.value <= 3.0 then Success(f.value) else Failure(RatioError)
  }

  /** `parseBYParameters`: module width, ratio, height; defaults {2, 3.0, 10}. */
  function ParseByParameters(paramString: string): (r: Result<BarcodeDefaults, string>)
    ensures var params := Split(paramString, ',');
      r.Failure? <==>
        OutOfRange(params, 0, 1, 10, ModuleWidthError) ||
        (Present(params, 1) && RatioInRange(params[1]).Failure?) ||
        (Present(params, 2) && !(ParseInt(params[2]).Some? && ParseInt(params[2]).value > 0))
    ensures var params := Split(paramString, ',');
      OutOfRange(params, 0, 1, 10, ModuleWidthError) ==> r == Failure(ModuleWidthError)
    ensures var params := Split(paramString, ',');
      (!OutOfRange(params, 0, 1, 10, ModuleWidthError) &&
       Present(params, 1) && RatioInRange(params[1]).Failure?) ==> r == Failure(RatioError)
    ensures var params := Split(paramString, ',');
      (!OutOfRange(params, 0, 1, 10, ModuleWidthError) &&
       !(Present(params, 1) && RatioInRange(params[1]).Failure?) &&
       Present(params, 2) && !(ParseInt(params[2]).Some? && ParseInt(params[2]).value > 0)) ==> r == Failure(ByHeightError)
    ensures r.Success? ==> 1 <= r.value.moduleWidth <= 10 && 2.0 <= r.value.wideBarToNarrowRatio <= 3.0
    ensures r.Success? ==> r.value.height > 0
    ensures var params := Split(paramString, ',');
      r.Success? ==>
        && r.value.moduleWidth == (if Present(params, 0) then ParseInt(params[0]).value else 2)
        && r.value.wideBarToNarrowRatio == (if Present(params, 1) then ParseFloat(params[1]).value else 3.0)
        && r.value.height == (if Present(params, 2) then ParseInt(params[2]).value else 10)
  {
    var params := Split(paramString, ',');
    var width :- if Present(params, 0) then IntInRange(params[0], 1, 10, ModuleWidthError) else Success(2);
    var ratio :- if Present(params, 1) then RatioInRange(params[1]) else Success(3.0);
    var height :- if Present(params, 2) then
                    (var h := ParseInt(params[2]); if h.Some? && h.value > 0 then Success(h.value) else Failure(ByHeightError))
                  else Success(10);
    Success(BarcodeDefaults(width, ratio, height))
  }

  /** `paramString.replace(/\^FS$/, "")`: a trailing `^FS` is dropped. */
  function StripFieldSeparator(s: string): (r: string)
    ensures '^' !in s ==> r == s
  {
    if |s| >= 3 && s[|s| - 3..] == "^FS" then
      assert s[|s| - 3] == '^';
      s[..|s| - 3]
    else s
  }

  /** `handleCF`: font name, height and width (`parseInt`, possibly NaN) when
      those positions exist at all; the orientation is dropped. The "at least
      font name" error cannot occur, because a split yields at least one piece. */
  function ParseFont(paramString: string): (f: FontSettings)
    ensures var params := Split(StripFieldSeparator(paramString), ',');
      && f.fontName == params[0]
      && (f.height.Some? <==> |params| > 1)
      && (|params| > 1 ==> f.height.value == ParseInt(params[1]))
      && (f.width.Some? <==> |params| > 2)
      && (|params| > 2 ==> f.width.value == ParseInt(params[2]))
      && f.orientation.None?
  {
    var params := Split(StripFieldSeparator(paramString), ',');
    FontSettings(params[0],
                 if |params| > 1 then Some(ParseInt(params[1])) else None,
                 if |params| > 2 then Some(ParseInt(params[2])) else None,
                 None)
  }

  /** `handleFO`: with two or more positions, the offsets (`parseInt`,
      possibly NaN); otherwise nothing. */
  function ParseFieldOrigin(paramString: string): (r: Option<(Num, Num)>)
    ensures var params := Split(paramString, ',');
      (r.Some? <==> |params| >= 2) &&
      (r.Some? ==> r.value == (ParseInt(params[0]), ParseInt(params[1])))
  {
    var params := Split(paramString, ',');
    if |params| >= 2 then Some((ParseInt(params[0]), ParseInt(params[1]))) else None
  }

  /** A coordinate `^LH` rejects: a number outside 0..32000 (NaN passes). */
  predicate OutOfHomeRange(v: Num) {
    v.Some? && (v.value < 0 || v.value > 32000)
  }

  /** `handleLH`: the new home, which needs two positions within 0..32000. */
  function ParseLabelHome(paramString: string): (r: Result<(Num, Num), string>)
    ensures var params := Split(paramString, ',');
      (|params| < 2 ==> r == Failure(HomeArityError)) &&
      (|params| >= 2 ==>
        var x, y := ParseInt(params[0]), ParseInt(params[1]);
        (r.Failure? <==> OutOfHomeRange(x) || OutOfHomeRange(y)) &&
        (r.Failure? ==> r.error == HomeRangeError) &&
        (r.Success? ==> r.value == (x, y)))
  {
    var params := Split(paramString, ',');
    if |params| >= 2 then
      var x, y := ParseInt(params[0]), ParseInt(params[1]);
      if OutOfHomeRange(x) || OutOfHomeRange(y) then Failure(HomeRangeError) else Success((x, y))
    else
      Failure(HomeArityError)
  }

  /** The letter the source stores for each box colour. */
  function ColorLetter(c: BoxColor): char {
    match c
    case Black => 'B'
    case White => 'W'
  }

  /** The box colour letters. */
  function ParseBoxColor(text: string): (r: Result<BoxColor, string>)
    ensures r.Success? <==> UpperIs(text, 'B') || UpperIs(text, 'W')
    ensures r.Success? ==> ColorLetter(r.value) == UpperChar(text[0])
    ensures r.Failure? ==> r.error == ColorError
  {
    if UpperIs(text, 'B') then Success(Black)
    else if UpperIs(text, 'W') then Success(White)
    else Failure(ColorError)
  }

  /** Position 3 holds a colour other than B or W. */
  predicate ColorRejected(params: seq<string>) {
    Present(params, 3) && ParseBoxColor(params[3]).Failure?
  }

  /** The validation part of `handleGB`: a new box at (x, y) with width,
      height and thickness 1..32000, colour B/W and roundedness 0..8 where
      given, the first failing check's message otherwise. */
  function BuildGraphicBox(paramString: string, x: Num, y: Num): (r: Result<Item, string>)
    ensures var params := Split(paramString, ',');
      r.Failure? <==>
        OutOfRange(params, 0, 1, 32000, BoxWidthError) ||
        OutOfRange(params, 1, 1, 32000, BoxHeightError) ||
        OutOfRange(params, 2, 1, 32000, ThicknessError) ||
        ColorRejected(params) ||
        OutOfRange(params, 4, 0, 8, RoundednessError)
    ensures var params := Split(paramString, ',');
      OutOfRange(params, 0, 1, 32000, BoxWidthError) ==> r == Failure(BoxWidthError)
    ensures var params := Split(paramString, ',');
      (!OutOfRange(params, 0, 1, 32000, BoxWidthError) &&
       OutOfRange(params, 1, 1, 32000, BoxHeightError)) ==> r == Failure(BoxHeightError)
    ensures var params := Split(paramString, ',');
      (!OutOfRange(params, 0, 1, 32000, BoxWidthError) &&
       !OutOfRange(params, 1, 1, 32000, BoxHeightError) &&
       OutOfRange(params, 2, 1, 32000, ThicknessError)) ==> r == Failure(ThicknessError)
    ensures var params := Split(paramString, ',');
      (!OutOfRange(params, 0, 1, 32000, BoxWidthError) &&
       !OutOfRange(params, 1, 1, 32000, BoxHeightError) &&
       !OutOfRange(params, 2, 1, 32000, ThicknessError) &&
       ColorRejected(params)) ==> r == Failure(ColorError)
    ensures var params := Split(paramString, ',');
      (!OutOfRange(params, 0, 1, 32000, BoxWidthError) &&
       !OutOfRange(params, 1, 1, 32000, BoxHeightError) &&
       !OutOfRange(params, 2, 1, 32000, ThicknessError) &&
       !ColorRejected(params) &&
       OutOfRange(params, 4, 0, 8, RoundednessError)) ==> r == Failure(RoundednessError)
    ensures r.Failure? ==> r.error in {BoxWidthError, BoxHeightError, ThicknessError, ColorError, RoundednessError}
    ensures var params := Split(paramString, ',');
      r.Success? ==>
        && r.value.GraphicBoxItem? && r.value.x == x && r.value.y == y && !r.value.fieldReversed
        && r.value.width == (if Present(params, 0) then ParseInt(params[0]).value else 0)
        && r.value.height == (if Present(params, 1) then ParseInt(params[1]).value else 0)
        && r.value.thickness == (if Present(params, 2) then ParseInt(params[2]).value else 0)
        && r.value.color == (if Present(params, 3) then ParseBoxColor(params[3]).value else Black)
        && r.value.roundedness == (if Present(params, 4) then ParseInt(params[4]).value else 0)
        && 0 <= r.value.roundedness <= 8
  {
    var params := Split(paramString, ',');
    var box := NewGraphicBoxItem(x, y);
    var width :- if Present(params, 0) then IntInRange(params[0], 1, 32000, BoxWidthError) else Success(box.width);
    var height :- if Present(params, 1) then IntInRange(params[1], 1, 32000, BoxHeightError) else Success(box.height);
    var thickness :- if Present(params, 2) then IntInRange(params[2], 1, 32000, ThicknessError) else Success(box.thickness);
    var color :- if Present(params, 3) then ParseBoxColor(params[3]) else Success(box.color);
    var roundedness :- if Present(params, 4) then IntInRange(params[4], 0, 8, RoundednessError) else Success(box.roundedness);
    Success(box.(width := width, height := height, thickness := thickness, color := color, roundedness := roundedness))
  }

  /** A `^B3` height beyond 32000 fails with the height message, even though
      the other positions are valid. */
  lemma Code39HeightTooLarge()
    ensures ParseCode39Parameters("N,N,40000,Y,N") == Failure(BarcodeHeightError)
  {
    SplitHeightExample();
    HeightBeyondRange("N,N,40000,Y,N");
  }

  lemma HeightBeyondRange(paramString: string)
    requires Split(paramString, ',') == ["N", "N", "40000", "Y", "N"]
    ensures ParseCode39Parameters(paramString) == Failure(BarcodeHeightError)
  {
    var params := Split(paramString, ',');
    assert params[0] == "N" && params[2] == "40000";
    assert !(Present(params, 0) && ValidateOrientation(params[0]).Failure?) by {
      assert ValidateOrientation("N") == Success(N);
    }
    assert OutOfRange(params, 2, 1, 32000, BarcodeHeightError) by {
      ParseIntForty();
    }
  }

  lemma SplitHeightExample()
    ensures Split("N,N,40000,Y,N", ',') == ["N", "N", "40000", "Y", "N"]
  {
    var pieces := ["N", "N", "40000", "Y", "N"];
    assert Join(pieces, ',') == "N,N,40000,Y,N" by {
      assert pieces[1..][1..][1..][1..] == ["N"];
    }
    SplitJoin(pieces, ',');
  }

  lemma ParseIntForty()
    ensures ParseInt("40000") == Some(40000)
  {
    DigitTextScan("40000");
    assert DecimalValue("40000") == 40000 by {
      assert "40000"[..4] == "4000" && "4000"[..3] == "400" && "400"[..2] == "40" && "40"[..1] == "4";
      assert "4"[..0] == "";
    }
  }

  /** Empty parameters keep every default. */
  lemma EmptyParametersKeepDefaults()
    ensures ParseCode39Parameters("") == Success(Code39Options(N, false, 0, true, false, None))
    ensures ParseCode128Parameters("") == Success(Code128Options(N, 0, true, false, false, ModeA, None))
    ensures ParseByParameters("") == Success(BarcodeDefaults(2, 3.0, 10))
    ensures BuildGraphicBox("", Some(0), Some(0)) == Success(NewGraphicBoxItem(Some(0), Some(0)))
  {
    assert Split("", ',') == [""];
  }
}
