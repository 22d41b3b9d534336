/** `ZPLRenderer` (packages/sdk/src/core/renderer.ts): draws a parsed label on
    a 2D canvas. The canvas is modelled by the part of its drawing state the
    renderer sets (`CanvasState`) and by the trace of drawing operations it
    issues (`DrawOp`); the barcode generator is a parameter that says which
    requests it accepts. Numbers are reals, with `None` standing for NaN. */
module Renderer {
  import opened Wrappers
  import opened JsText
  import opened Types
  import opened Encoding

  /** A JavaScript number in the renderer's arithmetic; `None` is NaN. */
  type Number = Option<real>

  function MulNumber(a: Number, b: real): (r: Number)
    ensures r.Some? <==> a.Some?
    ensures r.Some? ==> r.value == a.value * b
  {
    if a.Some? then Some(a.value * b) else None
  }

  function AddNumber(a: Number, b: Number): (r: Number)
    ensures r.Some? <==> a.Some? && b.Some?
    ensures r.Some? ==> r.value == a.value + b.value
  {
    if a.Some? && b.Some? then Some(a.value + b.value) else None
  }

  /** `RendererOptions`: every field optional. */
  datatype RendererOptions = RendererOptions(
    dpi: Option<string>, dimensions: Option<string>, orientation: Option<string>,
    scale: Option<real>, backgroundColor: Option<string>, foregroundColor: Option<string>)

  /** `Required<RendererOptions>`. */
  datatype RendererSettings = RendererSettings(
    dpi: string, dimensions: string, orientation: string,
    scale: real, backgroundColor: string, foregroundColor: string)

  const DefaultDpi := "203"
  const DefaultDimensions := "4x6"
  const Portrait := "portrait"
  const WhiteHex := "#FFFFFF"
  const BlackHex := "#000000"

  /** The constructor's `??` defaults: a given option is kept, a missing one
      is 203 dpi, 4x6 inches, portrait, scale 1, white on black. */
  function WithDefaults(o: RendererOptions): (s: RendererSettings)
    ensures s.dpi == o.dpi.GetOr(DefaultDpi) && s.dimensions == o.dimensions.GetOr(DefaultDimensions)
    ensures s.orientation == o.orientation.GetOr(Portrait) && s.scale == o.scale.GetOr(1.0)
    ensures s.backgroundColor == o.backgroundColor.GetOr(WhiteHex)
    ensures s.foregroundColor == o.foregroundColor.GetOr(BlackHex)
  {
    RendererSettings(o.dpi.GetOr(DefaultDpi), o.dimensions.GetOr(DefaultDimensions),
                     o.orientation.GetOr(Portrait), o.scale.GetOr(1.0),
                     o.backgroundColor.GetOr(WhiteHex), o.foregroundColor.GetOr(BlackHex))
  }

  /** The CSS font the renderer sets, before the browser serialises it. */
  datatype FontSpec = FontSpec(bold: bool, size: Number, family: string)

  const RobotoFamily := "'Roboto Condensed', Arial, sans-serif"
  const MonoFamily := "'JetBrains Mono', monospace"
  const ErrorFont := FontSpec(false, Some(14.0), "Arial")
  const ErrorColor := "red"

  /** The drawing state of the 2D context the renderer reads and writes. */
  datatype CanvasState = CanvasState(
    fillStyle: string, strokeStyle: string, font: FontSpec, textBaseline: string,
    lineWidth: Number, compositeOperation: string)

  /** The options handed to the barcode generator. */
  datatype BarcodeRequest = BarcodeRequest(
    bcid: string, text: string, scale: int, height: real, includeText: bool, textFont: string)

  /** How a box path is painted. */
  datatype Paint =
    | Fill(color: string)
    | Stroke(color: string, lineWidth: real)
    | InvertFill   // filled with white under the "difference" operation

  /** The drawing operations the renderer issues, in order. */
  datatype DrawOp =
    | ClearCanvas(color: string)
    | FillText(text: string, x: Number, y: Number, maxWidth: Number, color: string, font: FontSpec)
    | DrawBarcode(request: BarcodeRequest, x: Number, y: Number)
    | DrawBox(x: Number, y: Number, width: real, height: real, radius: real, paint: Paint)
    | ResetTransform

  /** `scaleValue` on a value that cannot be NaN. */
  function ScaleInt(v: int, scale: real): real {
    v as real * scale
  }

  /** `scaleValue`: a coordinate times the scale; NaN stays NaN. */
  function Scaled(v: Num, scale: real): (r: Number)
    ensures r.Some? <==> v.Some?
  {
    if v.Some? then Some(ScaleInt(v.value, scale)) else None
  }

  /** The logical canvas size in CSS pixels: the inch dimensions split on
      `x`, swapped unless the orientation is "portrait", times 100. A missing
      second dimension reads as NaN. */
  function LabelSize(s: RendererSettings): (r: (Num, Num))
    ensures r.0.Some? ==> r.0.value % 100 == 0
    ensures r.1.Some? ==> r.1.value % 100 == 0
  {
    var parts := Split(s.dimensions, 'x');
    var w := ParseIntNoRadix(parts[0]);
    var h := if |parts| > 1 then ParseIntNoRadix(parts[1]) else None;
    if s.orientation == Portrait then (Hundredfold(w), Hundredfold(h)) else (Hundredfold(h), Hundredfold(w))
  }

  /** Inches to CSS pixels of the canvas: `* 100`; NaN stays NaN. */
  function Hundredfold(n: Num): (r: Num)
    ensures r.Some? <==> n.Some?
    ensures r.Some? ==> r.value % 100 == 0
  {
    if n.Some? then Some(n.value * 100) else None
  }

  /** Dimensions without an `x` have no second part, so the height (the
      width, when turned) is NaN. */
  lemma SingleDimensionIsNaN(s: RendererSettings)
    requires 'x' !in s.dimensions
    ensures var r := LabelSize(s); (if s.orientation == Portrait then r.1 else r.0).None?
  {
    SplitWithoutSeparator(s.dimensions, 'x');
  }

  /** The default 4x6 inch portrait label is 400 by 600 canvas pixels. */
  lemma DefaultLabelSize(o: RendererOptions)
    requires o.dimensions.None? && o.orientation.None?
    ensures LabelSize(WithDefaults(o)) == (Some(400), Some(600))
  {
    var s := WithDefaults(o);
    assert s.dimensions == [DigitChar(4)] + "x" + [DigitChar(6)];
    SplitDimensions(DigitChar(4), DigitChar(6));
    DigitNoRadix(4);
    DigitNoRadix(6);
  }

  lemma SplitDimensions(a: char, b: char)
    requires a != 'x' && b != 'x'
    ensures Split([a] + "x" + [b], 'x') == [[a], [b]]
  {
    SplitJoin([[a], [b]], 'x');
  }

  lemma DigitNoRadix(n: nat)
    requires n < 10
    ensures ParseIntNoRadix([DigitChar(n)]) == Some(n)
  {
    ParseIntOfDigits(n);
  }

  /** Any orientation but "portrait" swaps width and height. */
  lemma OrientationSwapsSize(s: RendererSettings, other: string)
    requires s.orientation == Portrait && other != Portrait
    ensures LabelSize(s.(orientation := other)) == (LabelSize(s).1, LabelSize(s).0)
  {
  }

  // ----- text -----

  /** The font a text item is drawn with: its height (20 when unset) times
      the scale; font "0" is bold Roboto Condensed, every other font
      JetBrains Mono. */
  function TextFont(font: FontSettings, scale: real): (f: FontSpec)
    ensures f.bold <==> font.fontName == "0"
    ensures f.family == (if font.fontName == "0" then RobotoFamily else MonoFamily)
    ensures font.height.None? ==> f.size == Some(20.0 * scale)
    ensures font.height.Some? ==> f.size == Scaled(font.height.value, scale)
  {
    var size := Scaled(if font.height.Some? then font.height.value else Some(20), scale);
    if font.fontName == "0" then FontSpec(true, size, RobotoFamily) else FontSpec(false, size, MonoFamily)
  }

  /** The text a text item shows: its data through the printer encoding, with
      the first hyphen widened to a spaced en dash for font "0". */
  function TextData(item: Item): (d: string)
    requires item.TextItem?
    ensures '\n' !in d
    ensures item.font.fontName != "0" ==> d == EncodedText(item.data, item.fieldHex)
    ensures item.font.fontName == "0" ==> d == ReplaceFirst(EncodedText(item.data, item.fieldHex), '-', " \U{2013} ")
  {
    var d := EncodedText(item.data, item.fieldHex);
    if item.font.fontName == "0" then
      var r := ReplaceFirst(d, '-', " \U{2013} ");
      ReplaceFirstKeepsNoLineFeed(d, '-', " \U{2013} ");
      r
    else d
  }

  /** Printable text drawn in font "0" shows its first hyphen as a spaced
      en dash and every other character as it is. */
  lemma FirstHyphenWidened(item: Item, i: nat)
    requires item.TextItem? && item.font.fontName == "0" && !item.fieldHex
    requires forall k :: 0 <= k < |item.data| ==> ' ' <= item.data[k] <= '~'
    requires i < |item.data| && item.data[i] == '-' && '-' !in item.data[..i]
    ensures TextData(item) == item.data[..i] + " \U{2013} " + item.data[i + 1..]
  {
    var s := item.data;
    PrintableTextUnchanged(s);
    var j := IndexOfChar(s, '-');
    assert j == i;
  }

  lemma ReplaceFirstKeepsNoLineFeed(s: string, c: char, rep: string)
    requires '\n' !in s && '\n' !in rep
    ensures '\n' !in ReplaceFirst(s, c, rep)
  {
    var i := IndexOfChar(s, c);
    if i < |s| {
      assert ReplaceFirst(s, c, rep) == s[..i] + rep + s[i + 1..];
      assert forall k :: 0 <= k < |s[..i]| ==> s[..i][k] == s[k];
      assert forall k :: i + 1 <= k < |s| ==> s[i + 1..][k - i - 1] == s[k];
    }
  }

  /** The state a text item leaves: its font, and the "top" baseline. */
  function TextState(item: Item, s: RendererSettings, ctx: CanvasState): (c: CanvasState)
    requires item.TextItem?
    ensures c.fillStyle == ctx.fillStyle && c.strokeStyle == ctx.strokeStyle
    ensures c.lineWidth == ctx.lineWidth && c.compositeOperation == ctx.compositeOperation
    ensures c.font == TextFont(item.font, s.scale) && c.textBaseline == "top"
  {
    CanvasState(ctx.fillStyle, ctx.strokeStyle, TextFont(item.font, s.scale), "top",
                ctx.lineWidth, ctx.compositeOperation)
  }

  /** The line with this index, drawn only below `maxLines`, `lineHeight`
      further down per index and squeezed into the block width. */
  function LineOps(line: string, index: nat, maxLines: int, x: Number, y: Number,
                   lineHeight: Number, width: real, ctx: CanvasState): (ops: seq<DrawOp>)
    ensures index >= maxLines ==> ops == []
    ensures index < maxLines ==>
      ops == [FillText(line, x, AddNumber(y, MulNumber(lineHeight, index as real)), Some(width), ctx.fillStyle, ctx.font)]
  {
    if index < maxLines then
      [FillText(line, x, AddNumber(y, MulNumber(lineHeight, index as real)), Some(width), ctx.fillStyle, ctx.font)]
    else []
  }

  /** `lines.forEach` over a block's lines, in order. */
  function BlockOps(lines: seq<string>, maxLines: int, x: Number, y: Number,
                    lineHeight: Number, width: real, ctx: CanvasState): (ops: seq<DrawOp>)
    decreases |lines|
  {
    if lines == [] then []
    else BlockOps(lines[..|lines| - 1], maxLines, x, y, lineHeight, width, ctx)
         + LineOps(lines[|lines| - 1], |lines| - 1, maxLines, x, y, lineHeight, width, ctx)
  }

  lemma AppendAssoc(a: seq<DrawOp>, b: seq<DrawOp>, c: seq<DrawOp>)
    ensures (a + b) + c == a + (b + c)
  {
  }

  /** `BlockOps` over one more line. */
  lemma BlockOpsStep(lines: seq<string>, index: nat, maxLines: int, x: Number, y: Number,
                     lineHeight: Number, width: real, ctx: CanvasState)
    requires index < |lines|
    ensures BlockOps(lines[..index + 1], maxLines, x, y, lineHeight, width, ctx) ==
      BlockOps(lines[..index], maxLines, x, y, lineHeight, width, ctx)
      + LineOps(lines[index], index, maxLines, x, y, lineHeight, width, ctx)
  {
    assert lines[..index + 1][..index] == lines[..index];
  }

  /** A block shows its first `maxLines` lines and no more. */
  lemma {:induction false} BlockOpsCount(lines: seq<string>, maxLines: int, x: Number, y: Number,
                                         lineHeight: Number, width: real, ctx: CanvasState)
    ensures |BlockOps(lines, maxLines, x, y, lineHeight, width, ctx)| ==
      if maxLines <= 0 then 0 else if |lines| <= maxLines then |lines| else maxLines
  {
    if lines != [] {
      BlockOpsCount(lines[..|lines| - 1], maxLines, x, y, lineHeight, width, ctx);
    }
  }

  /** The k-th draw of a block is its k-th line, `k` line heights below the
      block's origin and squeezed into the block width. */
  lemma {:induction false} BlockOpsLine(lines: seq<string>, maxLines: int, x: Number, y: Number,
                                        lineHeight: Number, width: real, ctx: CanvasState, k: nat)
    requires k < |lines| && k < maxLines
    ensures k < |BlockOps(lines, maxLines, x, y, lineHeight, width, ctx)|
    ensures BlockOps(lines, maxLines, x, y, lineHeight, width, ctx)[k] ==
      FillText(lines[k], x, AddNumber(y, MulNumber(lineHeight, k as real)), Some(width), ctx.fillStyle, ctx.font)
  {
    var n := |lines| - 1;
    var front := lines[..n];
    BlockOpsCount(front, maxLines, x, y, lineHeight, width, ctx);
    if k < n {
      BlockOpsLine(front, maxLines, x, y, lineHeight, width, ctx, k);
      assert front[k] == lines[k];
    } else {
      assert |BlockOps(front, maxLines, x, y, lineHeight, width, ctx)| == k;
    }
  }

  /** What a text item draws, with the state `TextState` gives. */
  function TextOps(item: Item, s: RendererSettings, ctx: CanvasState): (ops: seq<DrawOp>)
    requires item.TextItem?
  {
    var st := TextState(item, s, ctx);
    var x := Scaled(item.x, s.scale);
    var y := Scaled(item.y, s.scale);
    var data := TextData(item);
    if item.blockFormat.None? then [FillText(data, x, y, None, st.fillStyle, st.font)]
    else
      var block := item.blockFormat.value;
      BlockOps(Split(data, '\n'), block.maxLines, x, y, MulNumber(st.font.size, 1.2),
               ScaleInt(block.width, s.scale), st)
  }

  /** Encoded text has no line feed, so a block shows its whole text on one
      line at the item's origin, or nothing when `maxLines` is below 1; the
      block format only adds the width limit. */
  lemma TextIsOneLine(item: Item, s: RendererSettings, ctx: CanvasState)
    requires item.TextItem?
    ensures var st := TextState(item, s, ctx);
      var x := Scaled(item.x, s.scale);
      var y := Scaled(item.y, s.scale);
      var ops := TextOps(item, s, ctx);
      (item.blockFormat.None? ==> ops == [FillText(TextData(item), x, y, None, st.fillStyle, st.font)]) &&
      (item.blockFormat.Some? && item.blockFormat.value.maxLines < 1 ==> ops == []) &&
      (item.blockFormat.Some? && item.blockFormat.value.maxLines >= 1 && y.Some? && st.font.size.Some? ==>
        ops == [FillText(TextData(item), x, y, Some(ScaleInt(item.blockFormat.value.width, s.scale)),
                         st.fillStyle, st.font)])
  {
    var data := TextData(item);
    SplitPrefix(data, "", '\n');
    assert data + "" == data;
    assert Split(data, '\n') == [data];
    assert [data][..0] == [];
    if item.blockFormat.Some? {
      var st := TextState(item, s, ctx);
      var x := Scaled(item.x, s.scale);
      var y := Scaled(item.y, s.scale);
      var lineHeight := MulNumber(st.font.size, 1.2);
      var width := ScaleInt(item.blockFormat.value.width, s.scale);
      var m := item.blockFormat.value.maxLines;
      assert TextOps(item, s, ctx) == BlockOps(Split(data, '\n'), m, x, y, lineHeight, width, st);
      assert BlockOps([data], m, x, y, lineHeight, width, st) == LineOps(data, 0, m, x, y, lineHeight, width, st);
      if y.Some? && st.font.size.Some? {
        assert (0 as real) == 0.0;
        assert lineHeight.value * 0.0 == 0.0;
        assert MulNumber(lineHeight, 0 as real) == Some(0.0);
        assert AddNumber(y, Some(0.0)) == y;
      }
    }
  }

  // ----- barcodes -----

  /** `a || b` on optional integers: the first that is set and non-zero. */
  function FirstNonZero(a: Option<int>, b: Option<int>, fallback: int): (r: int)
    ensures fallback != 0 ==> r != 0
    ensures a.Some? && a.value != 0 ==> r == a.value
    ensures (a.None? || a.value == 0) && b.Some? && b.value != 0 ==> r == b.value
    ensures (a.None? || a.value == 0) && (b.None? || b.value == 0) ==> r == fallback
  {
    if a.Some? && a.value != 0 then a.value
    else if b.Some? && b.value != 0 then b.value
    else fallback
  }

  /** The generator options for a barcode item: its type, its processed data
      through the printer encoding, the module width (render options, else
      the label's `^BY` settings, else 2) and a fifteenth of the height (the
      barcode's own, else the label's, else 100); zero counts as unset. */
  function RequestFor(item: Item, labelDefaults: Option<BarcodeDefaults>): (r: BarcodeRequest)
    requires item.BarcodeItem?
    ensures r.bcid == item.barcodeType && r.text == EncodedText(GetProcessedData(item), item.fieldHex)
    ensures r.scale != 0 && r.height != 0.0
    ensures r.includeText && r.textFont == "Arial"
    ensures r.scale == FirstNonZero(if item.renderOptions.Some? then item.renderOptions.value.moduleWidth else None,
                                    if labelDefaults.Some? then Some(labelDefaults.value.moduleWidth) else None, 2)
    ensures r.height == FirstNonZero(if item.options.Some? then Some(item.options.value.height) else None,
                                     if labelDefaults.Some? then Some(labelDefaults.value.height) else None, 100) as real / 15.0
    ensures item.renderOptions.None? && labelDefaults.None? ==> r.scale == 2
    ensures (item.options.None? || item.options.value.height == 0) && labelDefaults.None? ==> r.height == 100.0 / 15.0
  {
    var scale := FirstNonZero(if item.renderOptions.Some? then item.renderOptions.value.moduleWidth else None,
                              if labelDefaults.Some? then Some(labelDefaults.value.moduleWidth) else None, 2);
    var height := FirstNonZero(if item.options.Some? then Some(item.options.value.height) else None,
                               if labelDefaults.Some? then Some(labelDefaults.value.height) else None, 100);
    BarcodeRequest(item.barcodeType, EncodedText(GetProcessedData(item), item.fieldHex), scale,
                   height as real / 15.0, true, "Arial")
  }

  /** A code39 barcode is asked for with its data between `*` delimiters. */
  lemma Code39RequestDelimited(item: Item, labelDefaults: Option<BarcodeDefaults>)
    requires item.BarcodeItem? && item.barcodeType == "code39" && !item.fieldHex
    requires forall k :: 0 <= k < |item.data| ==> ' ' <= item.data[k] <= '~'
    ensures RequestFor(item, labelDefaults).text == "*" + item.data + "*"
  {
    var d := "*" + item.data + "*";
    assert forall k :: 0 <= k < |d| ==> ' ' <= d[k] <= '~' by {
      forall k | 0 <= k < |d| ensures ' ' <= d[k] <= '~' {
        if 0 < k < |d| - 1 { assert d[k] == item.data[k - 1]; }
      }
    }
    PrintableTextUnchanged(d);
  }

  /** A barcode the generator accepts is drawn at the item's origin and the
      state is restored; one it refuses leaves the error text in red 14px
      Arial, and that fill colour and font stay in force. */
  function BarcodeEffect(item: Item, labelDefaults: Option<BarcodeDefaults>, s: RendererSettings,
                         accepts: BarcodeRequest -> bool, ctx: CanvasState): (r: (CanvasState, seq<DrawOp>))
    requires item.BarcodeItem?
    ensures accepts(RequestFor(item, labelDefaults)) ==>
      r == (ctx, [DrawBarcode(RequestFor(item, labelDefaults), Scaled(item.x, s.scale), Scaled(item.y, s.scale))])
    ensures !accepts(RequestFor(item, labelDefaults)) ==>
      r.0 == ctx.(fillStyle := ErrorColor, font := ErrorFont) && |r.1| == 1 && r.1[0].FillText? &&
      r.1[0].color == ErrorColor && r.1[0].text == "Invalid barcode: " + RequestFor(item, labelDefaults).text &&
      r.1[0].x == Scaled(item.x, s.scale) && r.1[0].y == Scaled(item.y, s.scale)
  {
    var request := RequestFor(item, labelDefaults);
    var x := Scaled(item.x, s.scale);
    var y := Scaled(item.y, s.scale);
    if accepts(request) then (ctx, [DrawBarcode(request, x, y)])
    else
      var c := ctx.(fillStyle := ErrorColor, font := ErrorFont);
      (c, [FillText("Invalid barcode: " + request.text, x, y, None, c.fillStyle, c.font)])
  }

  // ----- graphic boxes -----

  function Min(a: real, b: real): real { if a <= b then a else b }

  /** Corner radius: none unless the roundedness is positive, else that many
      eighths of half the shorter side. */
  function BoxRadius(roundedness: int, width: real, height: real): (r: real)
    ensures roundedness <= 0 ==> r == 0.0
  {
    if roundedness > 0 then (roundedness as real / 8.0) * (Min(width, height) / 2.0) else 0.0
  }

  /** For the roundedness `^GB` accepts (0 to 8) and non-negative sides, the
      radius is at most half the shorter side: the full roundedness 8 makes
      the shorter sides half circles. */
  lemma RadiusBounded(roundedness: int, width: real, height: real)
    requires 0 <= roundedness <= 8 && 0.0 <= width && 0.0 <= height
    ensures 0.0 <= BoxRadius(roundedness, width, height) <= Min(width, height) / 2.0
    ensures roundedness == 8 ==> BoxRadius(roundedness, width, height) == Min(width, height) / 2.0
  {
    var m := Min(width, height) / 2.0;
    var f := roundedness as real / 8.0;
    assert 0.0 <= f <= 1.0;
    assert 0.0 <= m;
    assert f * m <= 1.0 * m;
  }

  /** Reversed boxes invert what is below them; others are filled when the
      thickness equals both sides, stroked with the thickness as line width
      otherwise, in the foreground colour for B and the background for W. */
  function BoxPaint(item: Item, s: RendererSettings): (p: Paint)
    requires item.GraphicBoxItem?
    ensures item.fieldReversed <==> p.InvertFill?
    ensures !item.fieldReversed ==> p.color == (if item.color == Black then s.foregroundColor else s.backgroundColor)
    ensures !item.fieldReversed && p.Stroke? ==> p.lineWidth == ScaleInt(item.thickness, s.scale)
  {
    var t := ScaleInt(item.thickness, s.scale);
    var w := ScaleInt(item.width, s.scale);
    var h := ScaleInt(item.height, s.scale);
    if item.fieldReversed then InvertFill
    else
      var color := if item.color == Black then s.foregroundColor else s.backgroundColor;
      if t == w && t == h then Fill(color) else Stroke(color, t)
  }

  /** With a non-zero scale, a box is solid exactly when its thickness equals
      its width and its height. */
  lemma SolidBoxExactly(item: Item, s: RendererSettings)
    requires item.GraphicBoxItem? && !item.fieldReversed && s.scale != 0.0
    ensures BoxPaint(item, s).Fill? <==> item.thickness == item.width && item.thickness == item.height
  {
    var sc := s.scale;
    if item.thickness as real * sc == item.width as real * sc {
      ScaleCancels(item.thickness as real, item.width as real, sc);
    }
    if item.thickness as real * sc == item.height as real * sc {
      ScaleCancels(item.thickness as real, item.height as real, sc);
    }
  }

  lemma ScaleCancels(a: real, b: real, sc: real)
    requires sc != 0.0 && a * sc == b * sc
    ensures a == b
  {
    assert (a - b) * sc == 0.0;
  }

  /** The path and paint of a box. */
  function BoxOp(item: Item, s: RendererSettings): (op: DrawOp)
    requires item.GraphicBoxItem?
    ensures op.DrawBox? && op.paint == BoxPaint(item, s)
    ensures op.x == Scaled(item.x, s.scale) && op.y == Scaled(item.y, s.scale)
    ensures op.width == ScaleInt(item.width, s.scale) && op.height == ScaleInt(item.height, s.scale)
    ensures op.radius == BoxRadius(item.roundedness, op.width, op.height)
  {
    var w := ScaleInt(item.width, s.scale);
    var h := ScaleInt(item.height, s.scale);
    DrawBox(Scaled(item.x, s.scale), Scaled(item.y, s.scale), w, h, BoxRadius(item.roundedness, w, h),
            BoxPaint(item, s))
  }

  // ----- the whole label -----

  /** What one item does to the state and the trace: text and barcodes as
      above, boxes between `save` and `restore`, other items nothing. */
  function ItemEffect(item: Item, labelDefaults: Option<BarcodeDefaults>, s: RendererSettings,
                      accepts: BarcodeRequest -> bool, ctx: CanvasState): (r: (CanvasState, seq<DrawOp>))
    ensures item.GraphicBoxItem? ==> r == (ctx, [BoxOp(item, s)])
    ensures item.OtherItem? ==> r == (ctx, [])
  {
    match item
    case TextItem(_, _, _, _, _, _, _) => (TextState(item, s, ctx), TextOps(item, s, ctx))
    case BarcodeItem(_, _, _, _, _, _, _, _) => BarcodeEffect(item, labelDefaults, s, accepts, ctx)
    case GraphicBoxItem(_, _, _, _, _, _, _, _) => (ctx, [BoxOp(item, s)])
    case OtherItem(_, _, _) => (ctx, [])
  }

  /** The items in label order, each seeing the state the previous one left. */
  function RenderItems(items: seq<Item>, labelDefaults: Option<BarcodeDefaults>, s: RendererSettings,
                       accepts: BarcodeRequest -> bool, ctx: CanvasState, ops: seq<DrawOp>)
    : (r: (CanvasState, seq<DrawOp>))
    decreases |items|
  {
    if items == [] then (ctx, ops)
    else
      var before := RenderItems(items[..|items| - 1], labelDefaults, s, accepts, ctx, ops);
      var step := ItemEffect(items[|items| - 1], labelDefaults, s, accepts, before.0);
      (step.0, before.1 + step.1)
  }

  /** `RenderItems` over one more item. */
  lemma RenderItemsStep(items: seq<Item>, i: nat, labelDefaults: Option<BarcodeDefaults>, s: RendererSettings,
                        accepts: BarcodeRequest -> bool, ctx: CanvasState, ops: seq<DrawOp>,
                        before: (CanvasState, seq<DrawOp>), after: (CanvasState, seq<DrawOp>))
    requires i < |items|
    requires before == RenderItems(items[..i], labelDefaults, s, accepts, ctx, ops)
    requires after.0 == ItemEffect(items[i], labelDefaults, s, accepts, before.0).0
    requires after.1 == before.1 + ItemEffect(items[i], labelDefaults, s, accepts, before.0).1
    ensures after == RenderItems(items[..i + 1], labelDefaults, s, accepts, ctx, ops)
  {
    assert items[..i + 1][..i] == items[..i];
  }

  /** Items only add to the trace. */
  lemma {:induction false} RenderItemsExtends(items: seq<Item>, labelDefaults: Option<BarcodeDefaults>,
                                              s: RendererSettings, accepts: BarcodeRequest -> bool,
                                              ctx: CanvasState, ops: seq<DrawOp>)
    ensures ops <= RenderItems(items, labelDefaults, s, accepts, ctx, ops).1
    decreases |items|
  {
    if items != [] {
      RenderItemsExtends(items[..|items| - 1], labelDefaults, s, accepts, ctx, ops);
    }
  }

  /** A whole render: clear to the background, draw in the foreground
      colour, every item in order, then reset the transform. */
  function RenderSpec(items: seq<Item>, labelDefaults: Option<BarcodeDefaults>, s: RendererSettings,
                      accepts: BarcodeRequest -> bool, ctx: CanvasState, ops: seq<DrawOp>)
    : (r: (CanvasState, seq<DrawOp>))
    ensures |r.1| >= |ops| + 2 && r.1[..|ops|] == ops && r.1[|ops|] == ClearCanvas(s.backgroundColor)
    ensures r.1[|r.1| - 1] == ResetTransform
  {
    var fg := s.foregroundColor;
    var start := ctx.(fillStyle := fg, strokeStyle := fg);
    var pre := ops + [ClearCanvas(s.backgroundColor)];
    var drawn := RenderItems(items, labelDefaults, s, accepts, start, pre);
    RenderItemsExtends(items, labelDefaults, s, accepts, start, pre);
    assert drawn.1[..|pre|] == pre;
    (drawn.0, drawn.1 + [ResetTransform])
  }

  /** Boxes and unknown items leave the drawing state as they found it, so
      a label of only boxes renders with the foreground colour throughout and
      one draw per box. */
  lemma {:induction false} BoxesKeepState(items: seq<Item>, labelDefaults: Option<BarcodeDefaults>,
                                          s: RendererSettings, accepts: BarcodeRequest -> bool,
                                          ctx: CanvasState, ops: seq<DrawOp>)
    requires forall k :: 0 <= k < |items| ==> items[k].GraphicBoxItem?
    ensures RenderItems(items, labelDefaults, s, accepts, ctx, ops).0 == ctx
    ensures |RenderItems(items, labelDefaults, s, accepts, ctx, ops).1| == |ops| + |items|
    decreases |items|
  {
    if items != [] {
      BoxesKeepState(items[..|items| - 1], labelDefaults, s, accepts, ctx, ops);
    }
  }

  /** A refused barcode turns the text drawn after it red: its fill colour
      outlives the item. */
  lemma RefusedBarcodeTurnsTextRed(barcode: Item, text: Item, labelDefaults: Option<BarcodeDefaults>,
                                   s: RendererSettings, accepts: BarcodeRequest -> bool, ctx: CanvasState)
    requires barcode.BarcodeItem? && !accepts(RequestFor(barcode, labelDefaults))
    requires text.TextItem? && text.blockFormat.None?
    ensures var ops := RenderItems([barcode, text], labelDefaults, s, accepts, ctx, []).1;
      |ops| == 2 && ops[1].FillText? && ops[1].color == ErrorColor
  {
    assert [barcode, text][..1] == [barcode];
    assert [barcode][..0] == [];
    var first := RenderItems([barcode], labelDefaults, s, accepts, ctx, []);
    assert RenderItems([barcode][..0], labelDefaults, s, accepts, ctx, []) == (ctx, []);
    var effect := ItemEffect(barcode, labelDefaults, s, accepts, ctx);
    assert effect == BarcodeEffect(barcode, labelDefaults, s, accepts, ctx);
    assert first == (effect.0, [] + effect.1);
    assert [] + effect.1 == effect.1;
    assert first.0.fillStyle == ErrorColor;
    assert |first.1| == 1;
    var second := ItemEffect(text, labelDefaults, s, accepts, first.0);
    assert second.1 == TextOps(text, s, first.0);
    assert second.1[0].color == ErrorColor;
  }

  /** The renderer: its settings, the state of its canvas's 2D context and
      the operations drawn on it so far. */
  class ZplRenderer {
    const settings: RendererSettings
    /** The size `render` gives the canvas; it depends on the settings only. */
    const labelSize: (Num, Num)
    var ctx: CanvasState
    var ops: seq<DrawOp>
    var cssWidth: Num
    var cssHeight: Num

    /** A renderer on a canvas whose context is in state `canvasState`. */
    constructor(options: RendererOptions, canvasState: CanvasState)
      ensures settings == WithDefaults(options) && ctx == canvasState && ops == []
      ensures labelSize == LabelSize(settings)
      ensures cssWidth.None? && cssHeight.None?
    {
      var s := WithDefaults(options);
      settings := s;
      labelSize := LabelSize(s);
      ctx := canvasState;
      ops := [];
      cssWidth, cssHeight := None, None;
    }

    /** `renderText`. */
    method RenderText(item: Item)
      requires item.TextItem?
      modifies this
      ensures ctx == TextState(item, settings, old(ctx))
      ensures ops == old(ops) + TextOps(item, settings, old(ctx))
      ensures cssWidth == old(cssWidth) && cssHeight == old(cssHeight)
    {
      var encoded := ZebraEncode(item.data, item.fieldHex);
      var data := encoded.value;
      var x := Scaled(item.x, settings.scale);
      var y := Scaled(item.y, settings.scale);
      var fontSize := Scaled(if item.font.height.Some? then item.font.height.value else Some(20), settings.scale);
      var family := if item.font.fontName == "0" then RobotoFamily else MonoFamily;
      ctx := ctx.(font := FontSpec(false, fontSize, family));
      if family == RobotoFamily {
        ctx := ctx.(font := ctx.font.(bold := true));
        data := ReplaceFirst(data, '-', " \U{2013} ");
      }
      ctx := ctx.(textBaseline := "top");
      assert data == TextData(item);
      assert ctx == TextState(item, settings, old(ctx));
      if item.blockFormat.Some? {
        var block := item.blockFormat.value;
        DrawBlock(Split(data, '\n'), block.maxLines, x, y, MulNumber(fontSize, 1.2),
                  ScaleInt(block.width, settings.scale));
      } else {
        ops := ops + [FillText(data, x, y, None, ctx.fillStyle, ctx.font)];
      }
    }

    /** The `lines.forEach` of a text block. */
    method DrawBlock(lines: seq<string>, maxLines: int, x: Number, y: Number, lineHeight: Number, width: real)
      modifies this
      ensures ops == old(ops) + BlockOps(lines, maxLines, x, y, lineHeight, width, ctx)
      ensures ctx == old(ctx) && cssWidth == old(cssWidth) && cssHeight == old(cssHeight)
    {
      var index := 0;
      ghost var ops0 := ops;
      while index < |lines|
        invariant 0 <= index <= |lines|
        invariant ops == ops0 + BlockOps(lines[..index], maxLines, x, y, lineHeight, width, ctx)
        invariant ctx == old(ctx) && cssWidth == old(cssWidth) && cssHeight == old(cssHeight)
      {
        BlockOpsStep(lines, index, maxLines, x, y, lineHeight, width, ctx);
        ghost var before := ops;
        if index < maxLines {
          ops := ops + [FillText(lines[index], x, AddNumber(y, MulNumber(lineHeight, index as real)),
                                 Some(width), ctx.fillStyle, ctx.font)];
        }
        assert ops == before + LineOps(lines[index], index, maxLines, x, y, lineHeight, width, ctx);
        AppendAssoc(ops0, BlockOps(lines[..index], maxLines, x, y, lineHeight, width, ctx),
                    LineOps(lines[index], index, maxLines, x, y, lineHeight, width, ctx));
        index := index + 1;
      }
      assert lines[..index] == lines;
    }

    /** `renderBarcode`, with the generator's verdict on each request given
      by `accepts`. */
    method RenderBarcode(item: Item, labelDefaults: Option<BarcodeDefaults>, accepts: BarcodeRequest -> bool)
      requires item.BarcodeItem?
      modifies this
      ensures ctx == BarcodeEffect(item, labelDefaults, settings, accepts, old(ctx)).0
      ensures ops == old(ops) + BarcodeEffect(item, labelDefaults, settings, accepts, old(ctx)).1
      ensures cssWidth == old(cssWidth) && cssHeight == old(cssHeight)
    {
      var x := Scaled(item.x, settings.scale);
      var y := Scaled(item.y, settings.scale);
      var encoded := ZebraEncode(GetProcessedData(item), item.fieldHex);
      var processedData := encoded.value;
      var request := BarcodeRequest(
        item.barcodeType, processedData,
        FirstNonZero(if item.renderOptions.Some? then item.renderOptions.value.moduleWidth else None,
                     if labelDefaults.Some? then Some(labelDefaults.value.moduleWidth) else None, 2),
        FirstNonZero(if item.options.Some? then Some(item.options.value.height) else None,
                     if labelDefaults.Some? then Some(labelDefaults.value.height) else None, 100) as real / 15.0,
        true, "Arial");
      if accepts(request) {
        var saved := ctx;
        ops := ops + [DrawBarcode(request, x, y)];
        ctx := saved;
      } else {
        ctx := ctx.(fillStyle := ErrorColor);
        ctx := ctx.(font := ErrorFont);
        ops := ops + [FillText("Invalid barcode: " + processedData, x, y, None, ctx.fillStyle, ctx.font)];
      }
    }

    /** `renderGraphicBox`: every change to the state happens between `save`
      and `restore`. */
    method RenderGraphicBox(item: Item)
      requires item.GraphicBoxItem?
      modifies this
      ensures ctx == old(ctx) && ops == old(ops) + [BoxOp(item, settings)]
      ensures cssWidth == old(cssWidth) && cssHeight == old(cssHeight)
    {
      var x := Scaled(item.x, settings.scale);
      var y := Scaled(item.y, settings.scale);
      var width := ScaleInt(item.width, settings.scale);
      var height := ScaleInt(item.height, settings.scale);
      var thickness := ScaleInt(item.thickness, settings.scale);
      var radius := 0.0;
      if item.roundedness > 0 {
        var shorterSide := Min(width, height);
        radius := (item.roundedness as real / 8.0) * (shorterSide / 2.0);
      }
      var saved := ctx;
      var paint: Paint;
      if item.fieldReversed {
        ctx := ctx.(compositeOperation := "difference", fillStyle := WhiteHex);
        paint := InvertFill;
      } else {
        var color := if item.color == Black then settings.foregroundColor else settings.backgroundColor;
        ctx := ctx.(fillStyle := color);
        ctx := ctx.(strokeStyle := ctx.fillStyle);
        if thickness == width && thickness == height {
          paint := Fill(ctx.fillStyle);
        } else {
          ctx := ctx.(lineWidth := Some(thickness));
          paint := Stroke(ctx.strokeStyle, thickness);
        }
      }
      assert radius == BoxRadius(item.roundedness, width, height);
      assert paint == BoxPaint(item, settings);
      assert DrawBox(x, y, width, height, radius, paint) == BoxOp(item, settings);
      ops := ops + [DrawBox(x, y, width, height, radius, paint)];
      ctx := saved;
    }

    /** One pass of the item loop: dispatch on the item's type. */
    method RenderItem(item: Item, labelDefaults: Option<BarcodeDefaults>, accepts: BarcodeRequest -> bool)
      modifies this
      ensures ctx == ItemEffect(item, labelDefaults, settings, accepts, old(ctx)).0
      ensures ops == old(ops) + ItemEffect(item, labelDefaults, settings, accepts, old(ctx)).1
      ensures cssWidth == old(cssWidth) && cssHeight == old(cssHeight)
    {
      match item {
        case TextItem(_, _, _, _, _, _, _) => RenderText(item);
        case BarcodeItem(_, _, _, _, _, _, _, _) => RenderBarcode(item, labelDefaults, accepts);
        case GraphicBoxItem(_, _, _, _, _, _, _, _) => RenderGraphicBox(item);
        case OtherItem(_, _, _) => assert old(ops) + [] == ops;
      }
    }

    /** `for (const item of label.items)`. */
    method RenderItemsInOrder(items: seq<Item>, labelDefaults: Option<BarcodeDefaults>, accepts: BarcodeRequest -> bool)
      modifies this
      ensures (ctx, ops) == RenderItems(items, labelDefaults, settings, accepts, old(ctx), old(ops))
      ensures cssWidth == old(cssWidth) && cssHeight == old(cssHeight)
    {
      ghost var ctx0, ops0 := ctx, ops;
      var i := 0;
      while i < |items|
        invariant 0 <= i <= |items|
        invariant (ctx, ops) == RenderItems(items[..i], labelDefaults, settings, accepts, ctx0, ops0)
        invariant cssWidth == old(cssWidth) && cssHeight == old(cssHeight)
      {
        ghost var before := (ctx, ops);
        RenderItem(items[i], labelDefaults, accepts);
        RenderItemsStep(items, i, labelDefaults, settings, accepts, ctx0, ops0, before, (ctx, ops));
        i := i + 1;
      }
      assert items[..i] == items;
    }

    /** Clear to the background colour, then draw in the foreground colour. */
    method ClearToBackground()
      modifies this
      ensures ctx == old(ctx).(fillStyle := settings.foregroundColor, strokeStyle := settings.foregroundColor)
      ensures ops == old(ops) + [ClearCanvas(settings.backgroundColor)]
      ensures cssWidth == old(cssWidth) && cssHeight == old(cssHeight)
    {
      ctx := ctx.(fillStyle := settings.backgroundColor);
      ops := ops + [ClearCanvas(settings.backgroundColor)];
      ctx := ctx.(fillStyle := settings.foregroundColor);
      ctx := ctx.(strokeStyle := settings.foregroundColor);
    }

    /** `render`: size the canvas, clear it, draw every item in order, reset
      the transform. */
    method Render(zplLabel: Label, accepts: BarcodeRequest -> bool)
      modifies this
      ensures ctx == RenderSpec(zplLabel.items, zplLabel.barcodeDefaults, settings, accepts, old(ctx), old(ops)).0
      ensures ops == RenderSpec(zplLabel.items, zplLabel.barcodeDefaults, settings, accepts, old(ctx), old(ops)).1
      ensures (cssWidth, cssHeight) == labelSize
    {
      cssWidth, cssHeight := labelSize.0, labelSize.1;
      ClearToBackground();
      RenderItemsInOrder(zplLabel.items, zplLabel.barcodeDefaults, accepts);
      ops := ops + [ResetTransform];
    }
  }
}
