/** The label data model (packages/sdk/src/types/types.ts): the label, its
    layout items and the barcode helpers the renderer calls. */
module Types {
  import opened Wrappers
  import opened JsText

  /** A point in dots. */
  datatype Position = Position(x: int, y: int)

  datatype VariableType = StringType | NumberType | BooleanType

  /** A template variable declared by the `zpl` tag. */
  datatype Variable = Variable(name: string, varType: VariableType, value: string)

  /** A `Map<string, Variable>`: its entries in insertion order. */
  type VariableMap = seq<(string, Variable)>

  function Keys(m: VariableMap): (ks: seq<string>)
    ensures |ks| == |m| && forall k :: 0 <= k < |m| ==> ks[k] == m[k].0
  {
    if m == [] then [] else Keys(m[..|m| - 1]) + [m[|m| - 1].0]
  }

  /** No key occurs twice. */
  predicate DistinctKeys(m: VariableMap) {
    forall i, j :: 0 <= i < j < |m| ==> m[i].0 != m[j].0
  }

  /** `Map.prototype.set`: an existing key keeps its place and takes the new
      value; a new key is appended. */
  function MapSet(m: VariableMap, key: string, v: Variable): (r: VariableMap)
    ensures key in Keys(m) ==> |r| == |m|
    ensures key !in Keys(m) ==> r == m + [(key, v)]
    ensures forall k :: 0 <= k < |m| && m[k].0 != key ==> r[k] == m[k]
    ensures forall k :: 0 <= k < |m| && m[k].0 == key ==> r[k] == (key, v)
    ensures Keys(r) == if key in Keys(m) then Keys(m) else Keys(m) + [key]
  {
    if key in Keys(m) then seq(|m|, k requires 0 <= k < |m| => if m[k].0 == key then (key, v) else m[k])
    else m + [(key, v)]
  }

  /** `set` keeps the keys distinct, so the map is a map. */
  lemma MapSetDistinct(m: VariableMap, key: string, v: Variable)
    requires DistinctKeys(m)
    ensures DistinctKeys(MapSet(m, key, v))
  {
  }

  /** The value `get` returns for a key just set. */
  lemma MapSetThenGet(m: VariableMap, key: string, v: Variable)
    ensures var r := MapSet(m, key, v);
      exists k :: 0 <= k < |r| && r[k] == (key, v)
  {
    var r := MapSet(m, key, v);
    if key in Keys(m) {
      var k :| 0 <= k < |m| && Keys(m)[k] == key;
      assert r[k] == (key, v);
    } else {
      assert r[|m|] == (key, v);
    }
  }

  /** `^BY` settings: module width 1..10, wide-to-narrow ratio 2.0..3.0,
      height. The ratio is an exact decimal, not a binary float. */
  datatype BarcodeDefaults = BarcodeDefaults(moduleWidth: int, wideBarToNarrowRatio: real, height: int)

  datatype Orientation = N | R | I | B

  datatype Code128Mode = ModeN | ModeU | ModeA | ModeD

  /** `BarcodeCode39Options` and `BarcodeCode128Options`. */
  datatype BarcodeOptions =
    | Code39Options(orientation: Orientation, mod43CheckDigit: bool, height: int,
                    printInterpretationLine: bool, interpretationLineAboveCode: bool,
                    defaults: Option<BarcodeDefaults>)
    | Code128Options(orientation: Orientation, height: int, printInterpretationLine: bool,
                     interpretationLineAboveCode: bool, uccCheckDigit: bool, mode: Code128Mode,
                     defaults: Option<BarcodeDefaults>)

  /** `BarcodeRenderOptions`, every field optional; `wideBarToNarrowRatio` is
      the extra field a `BarcodeDefaults` object carries when it is passed in
      this role. */
  datatype RenderOptions = RenderOptions(
    width: Option<int>,
    height: Option<int>,
    moduleWidth: Option<int>,
    wideBarWidth: Option<int>,
    displayValue: Option<bool>,
    background: Option<string>,
    lineColor: Option<string>,
    wideBarToNarrowRatio: Option<real>)

  const NoRenderOptions := RenderOptions(None, None, None, None, None, None, None, None)

  /** A `BarcodeDefaults` object used as render options: it has exactly the
      three properties `moduleWidth`, `wideBarToNarrowRatio` and `height`. */
  function DefaultsAsRenderOptions(d: BarcodeDefaults): (o: RenderOptions)
    ensures o.moduleWidth == Some(d.moduleWidth) && o.height == Some(d.height)
    ensures o.wideBarToNarrowRatio == Some(d.wideBarToNarrowRatio)
    ensures o.width.None? && o.wideBarWidth.None? && o.displayValue.None?
    ensures o.background.None? && o.lineColor.None?
  {
    NoRenderOptions.(moduleWidth := Some(d.moduleWidth), height := Some(d.height),
                     wideBarToNarrowRatio := Some(d.wideBarToNarrowRatio))
  }

  /** Object spread `{...base, ...over}`: every property `over` has wins. */
  function Spread(base: RenderOptions, over: RenderOptions): (r: RenderOptions)
    ensures r.width == (if over.width.Some? then over.width else base.width)
    ensures r.height == (if over.height.Some? then over.height else base.height)
    ensures r.moduleWidth == (if over.moduleWidth.Some? then over.moduleWidth else base.moduleWidth)
    ensures r.wideBarWidth == (if over.wideBarWidth.Some? then over.wideBarWidth else base.wideBarWidth)
    ensures r.displayValue == (if over.displayValue.Some? then over.displayValue else base.displayValue)
    ensures r.background == (if over.background.Some? then over.background else base.background)
    ensures r.lineColor == (if over.lineColor.Some? then over.lineColor else base.lineColor)
    ensures r.wideBarToNarrowRatio ==
      (if over.wideBarToNarrowRatio.Some? then over.wideBarToNarrowRatio else base.wideBarToNarrowRatio)
  {
    RenderOptions(
      Pick(over.width, base.width), Pick(over.height, base.height),
      Pick(over.moduleWidth, base.moduleWidth), Pick(over.wideBarWidth, base.wideBarWidth),
      Pick(over.displayValue, base.displayValue), Pick(over.background, base.background),
      Pick(over.lineColor, base.lineColor), Pick(over.wideBarToNarrowRatio, base.wideBarToNarrowRatio))
  }

  function Pick<T>(over: Option<T>, base: Option<T>): Option<T> {
    if over.Some? then over else base
  }

  /** `FontSettings`. `height` and `width` are `None` when undefined and
      `Some(None)` when they hold NaN. */
  datatype FontSettings = FontSettings(fontName: string, height: Option<Num>, width: Option<Num>,
                                       orientation: Option<string>)

  /** `TextBlockFormat`: field block width and the number of lines shown. */
  datatype TextBlockFormat = TextBlockFormat(width: int, maxLines: int)

  datatype BoxColor = Black | White

  /** The layout items. Shared fields have the same name in every kind;
      `OtherItem` stands for a `LayoutItem` whose type tag is none of
      "Text", "Barcode" and "GraphicBox". */
  datatype Item =
    | TextItem(x: Num, y: Num, data: string, font: FontSettings,
               blockFormat: Option<TextBlockFormat>, fieldReversed: bool, fieldHex: bool)
    | BarcodeItem(x: Num, y: Num, data: string, barcodeType: string,
                  options: Option<BarcodeOptions>, renderOptions: Option<RenderOptions>,
                  fieldReversed: bool, fieldHex: bool)
    | GraphicBoxItem(x: Num, y: Num, fieldReversed: bool, width: int, height: int,
                     thickness: int, color: BoxColor, roundedness: int)
    | OtherItem(itemType: string, x: Num, y: Num)

  /** `new TextItem(...)`: the item keeps its own copy of `font`. */
  function NewTextItem(x: Num, y: Num, data: string, font: FontSettings,
                       blockFormat: Option<TextBlockFormat>, fieldReversed: bool, fieldHex: bool): (t: Item)
    ensures t.TextItem? && t.x == x && t.y == y && t.data == data && t.font == font
    ensures t.blockFormat == blockFormat && t.fieldReversed == fieldReversed && t.fieldHex == fieldHex
  {
    TextItem(x, y, data, font, blockFormat, fieldReversed, fieldHex)
  }

  /** `new GraphicBoxItem(x, y)`: a 0 x 0 black box, no border, square corners. */
  function NewGraphicBoxItem(x: Num, y: Num): (b: Item)
    ensures b.GraphicBoxItem? && b.x == x && b.y == y && !b.fieldReversed
    ensures b.width == 0 && b.height == 0 && b.thickness == 0
    ensures b.color == Black && b.roundedness == 0
  {
    GraphicBoxItem(x, y, false, 0, 0, 0, Black, 0)
  }

  /** `BarcodeItem.defaultBarcodeSettings`. */
  const DefaultBarcodeSettings := BarcodeDefaults(2, 3.0, 10)

  /** `Math.round`: the nearest integer, halves rounded up. */
  function Round(v: real): (n: int)
    ensures n as real - 0.5 <= v < n as real + 0.5
  {
    (v + 0.5).Floor
  }

  /** The defaults `getRenderOptions` uses: the options' own, else those of
      the label the item refers to, else {2, 3.0, 10}. `labelDefaults` is
      that label's `barcodeDefaults` when it is asked. */
  function ChosenDefaults(item: Item, labelDefaults: Option<BarcodeDefaults>): (d: BarcodeDefaults)
    requires item.BarcodeItem?
    ensures item.options.Some? && item.options.value.defaults.Some? ==> d == item.options.value.defaults.value
    ensures (item.options.None? || item.options.value.defaults.None?) && labelDefaults.Some? ==> d == labelDefaults.value
    ensures (item.options.None? || item.options.value.defaults.None?) && labelDefaults.None? ==> d == DefaultBarcodeSettings
  {
    if item.options.Some? && item.options.value.defaults.Some? then item.options.value.defaults.value
    else if labelDefaults.Some? then labelDefaults.value
    else DefaultBarcodeSettings
  }

  /** `BarcodeItem.getRenderOptions`: `moduleWidth` and `wideBarWidth`
      always come from the chosen defaults, whatever the render options say. */
  function GetRenderOptions(item: Item, labelDefaults: Option<BarcodeDefaults>): (r: RenderOptions)
    requires item.BarcodeItem?
    ensures r.moduleWidth == Some(ChosenDefaults(item, labelDefaults).moduleWidth)
    ensures r.wideBarWidth == Some(WideBarWidth(ChosenDefaults(item, labelDefaults)))
    ensures item.renderOptions.None? ==> r.width == Some(ChosenDefaults(item, labelDefaults).moduleWidth)
  {
    var defaults := ChosenDefaults(item, labelDefaults);
    var height := if item.options.Some? && item.options.value.height != 0 then item.options.value.height
                  else defaults.height;
    var base := NoRenderOptions.(
      width := Some(defaults.moduleWidth),
      height := Some(height),
      displayValue := Some(if item.options.Some? then item.options.value.printInterpretationLine else true));
    var spread := if item.renderOptions.Some? then Spread(base, item.renderOptions.value) else base;
    spread.(moduleWidth := Some(defaults.moduleWidth),
            wideBarWidth := Some(WideBarWidth(defaults)))
  }

  /** `Math.round(moduleWidth * wideBarToNarrowRatio)`. */
  function WideBarWidth(d: BarcodeDefaults): (w: int)
    ensures w as real - 0.5 <= d.moduleWidth as real * d.wideBarToNarrowRatio < w as real + 0.5
  {
    Round(d.moduleWidth as real * d.wideBarToNarrowRatio)
  }

  /** Without render options, the height is the options' height when it is
      non-zero, else the chosen defaults' height; the width is the defaults'
      module width and the interpretation line follows the options. */
  lemma RenderOptionsWithoutOverrides(item: Item, labelDefaults: Option<BarcodeDefaults>)
    requires item.BarcodeItem? && item.renderOptions.None?
    ensures var r := GetRenderOptions(item, labelDefaults);
      var d := ChosenDefaults(item, labelDefaults);
      r.width == Some(d.moduleWidth) &&
      (item.options.Some? && item.options.value.height != 0 ==> r.height == Some(item.options.value.height)) &&
      (item.options.None? || item.options.value.height == 0 ==> r.height == Some(d.height)) &&
      r.displayValue == Some(item.options.None? || item.options.value.printInterpretationLine)
  {
  }

  /** The override order: render options made from `^BY` settings replace the
      height computed from the barcode's own options, so a `^BY` height wins
      over a `^B3`/`^BC` height; the width still comes from the chosen
      defaults, since `^BY` settings have no `width`. */
  lemma ByHeightOverridesOptionsHeight(item: Item, labelDefaults: Option<BarcodeDefaults>, settings: BarcodeDefaults)
    requires item.BarcodeItem? && item.renderOptions == Some(DefaultsAsRenderOptions(settings))
    ensures GetRenderOptions(item, labelDefaults).height == Some(settings.height)
    ensures GetRenderOptions(item, labelDefaults).width == Some(ChosenDefaults(item, labelDefaults).moduleWidth)
    ensures GetRenderOptions(item, labelDefaults).wideBarToNarrowRatio == Some(settings.wideBarToNarrowRatio)
  {
  }

  /** `BarcodeItem.getProcessedData`: start/stop `*` only for type "code39". */
  function GetProcessedData(item: Item): (d: string)
    requires item.BarcodeItem?
    ensures item.barcodeType == "code39" ==> d == "*" + item.data + "*"
    ensures item.barcodeType != "code39" ==> d == item.data
  {
    if item.barcodeType == "code39" then "*" + item.data + "*" else item.data
  }

  /** `BarcodeItem.getOrientation`: the options' orientation, else N. */
  function GetOrientation(item: Item): (o: Orientation)
    requires item.BarcodeItem?
    ensures item.options.Some? ==> o == item.options.value.orientation
    ensures item.options.None? ==> o == N
  {
    if item.options.Some? then item.options.value.orientation else N
  }

  /** The font a new label starts with. */
  const DefaultFont := FontSettings("0", None, None, Some("N"))

  /** `Label`: the parser appends items to `items` and replaces
      `barcodeDefaults` in place. */
  class Label {
    var items: seq<Item>
    var homePosition: Position
    var defaultFont: FontSettings
    var barcodeDefaults: Option<BarcodeDefaults>

    /** A new label: no items, home (0,0), font "0" facing N, no `^BY` settings. */
    constructor()
      ensures items == [] && homePosition == Position(0, 0)
      ensures defaultFont == FontSettings("0", None, None, Some("N"))
      ensures barcodeDefaults.None?
    {
      items := [];
      homePosition := Position(0, 0);
      defaultFont := DefaultFont;
      barcodeDefaults := None;
    }
  }
}
