/** The printer's character encoding as the preview emulates it
    (packages/sdk/src/core/encoding.ts): text is turned into its UTF-8 bytes
    and every byte is shown through a fixed 256-entry table, a Code Page 850
    variant with Zebra's own glyphs for control bytes. In hex mode `_hh`
    escapes stand for single bytes. */
module Encoding {
  import opened Wrappers

  type byte = b: int | 0 <= b < 256

  /** Zebra's glyphs for the control bytes 26..31 (SUB, ESC, FS, GS, RS, US). */
  const ZebraControlGlyphs: string := "0\U{2153}\U{2154}\U{0132}\U{0133}\\"

  /** The glyphs of bytes 128..255, sixteen to a row. They follow IBM Code
      Page 850 except at 213 (`i`), 240 (`-`), 241 (`Ð`), 242 (`±`) and 255
      (a plain space). */
  function Extended128(): string { "\U{00C7}\U{00FC}\U{00E9}\U{00E2}\U{00E4}\U{00E0}\U{00E5}\U{00E7}\U{00EA}\U{00EB}\U{00E8}\U{00EF}\U{00EE}\U{00EC}\U{00C4}\U{00C5}" }  // 128-143
  function Extended144(): string { "\U{00C9}\U{00E6}\U{00C6}\U{00F4}\U{00F6}\U{00F2}\U{00FB}\U{00F9}\U{00FF}\U{00D6}\U{00DC}\U{00F8}\U{00A3}\U{00D8}\U{00D7}\U{0192}" }  // 144-159
  function Extended160(): string { "\U{00E1}\U{00ED}\U{00F3}\U{00FA}\U{00F1}\U{00D1}\U{00AA}\U{00BA}\U{00BF}\U{00AE}\U{00AC}\U{00BD}\U{00BC}\U{00A1}\U{00AB}\U{00BB}" }  // 160-175
  function Extended176(): string { "\U{2591}\U{2592}\U{2593}\U{2502}\U{2524}\U{00C1}\U{00C2}\U{00C0}\U{00A9}\U{2563}\U{2551}\U{2557}\U{255D}\U{00A2}\U{00A5}\U{2510}" }  // 176-191
  function Extended192(): string { "\U{2514}\U{2534}\U{252C}\U{251C}\U{2500}\U{253C}\U{00E3}\U{00C3}\U{255A}\U{2554}\U{2569}\U{2566}\U{2560}\U{2550}\U{256C}\U{00A4}" }  // 192-207
  function Extended208(): string { "\U{00F0}\U{00D0}\U{00CA}\U{00CB}\U{00C8}i\U{00CD}\U{00CE}\U{00CF}\U{2518}\U{250C}\U{2588}\U{2584}\U{00A6}\U{00CC}\U{2580}" }  // 208-223
  function Extended224(): string { "\U{00D3}\U{00DF}\U{00D4}\U{00D2}\U{00F5}\U{00D5}\U{00B5}\U{00FE}\U{00DE}\U{00DA}\U{00DB}\U{00D9}\U{00FD}\U{00DD}\U{00AF}\U{00B4}" }  // 224-239
  function Extended240(): string { "-\U{00D0}\U{00B1}\U{00BE}\U{00B6}\U{00A7}\U{00F7}\U{00B8}\U{00B0}\U{00A8}\U{00B7}\U{00B9}\U{00B3}\U{00B2}\U{25A0} " }  // 240-255

  /** The glyph of an extended byte, from its row. */
  function ExtendedGlyph(b: byte): char
    requires b >= 128
  {
    if b < 144 then Extended128()[b - 128]
    else if b < 160 then Extended144()[b - 144]
    else if b < 176 then Extended160()[b - 160]
    else if b < 192 then Extended176()[b - 176]
    else if b < 208 then Extended192()[b - 192]
    else if b < 224 then Extended208()[b - 208]
    else if b < 240 then Extended224()[b - 224]
    else Extended240()[b - 240]
  }

  /** The table entry for byte `b`: empty for 0..25, one glyph otherwise. */
  function Glyph(b: byte): (g: string)
    ensures |g| <= 1
    ensures g == [] <==> b < 26
  {
    if b < 26 then ""
    else if b < 32 then [ZebraControlGlyphs[b - 26]]
    else if b < 127 then [b as char]  // the table lists printable ASCII at its own code points
    else if b == 127 then "\U{2302}"
    else [ExtendedGlyph(b)]
  }

  /** `createCodePage850Map`: the lookup table, keyed by byte value. */
  function CreateCodePage850Map(): (table: map<int, string>)
    ensures IsCodePage850(table)
  {
    map b: int | 0 <= b < 256 :: Glyph(b)
  }

  /** `table` has an entry for exactly the bytes 0..255, each its glyph. */
  ghost predicate IsCodePage850(table: map<int, string>) {
    (forall b: int :: b in table <==> 0 <= b < 256) && forall b: byte :: b in table ==> table[b] == Glyph(b)
  }

  /** Looking a byte up in the table never fails. */
  lemma CodePageEntry(table: map<int, string>, b: byte)
    requires IsCodePage850(table)
    ensures DecodeByte(table, b) == Success(Glyph(b))
  {
  }

  /** `ZebraEncodeError`: a byte the table has no entry for. */
  datatype ZebraEncodeError = NoMapping(byteValue: int)

  /** The decoder closure of `zebraEncode`: the entry for `b`, or the error
      for a byte missing from the table. */
  function DecodeByte(table: map<int, string>, b: byte): (r: Result<string, ZebraEncodeError>)
    ensures r.Success? <==> b in table
    ensures r.Success? ==> r.value == table[b]
  {
    if b in table then Success(table[b]) else Failure(NoMapping(b))
  }

  /** UTF-8 form of one scalar value (section 3 of RFC 3629). */
  function Utf8Char(c: char): (bs: seq<byte>)
    ensures 1 <= |bs| <= 4
    ensures |bs| == 1 <==> c as int < 0x80
    ensures |bs| == 1 ==> bs[0] == c as int
    ensures |bs| > 1 ==> forall k :: 0 <= k < |bs| ==> bs[k] >= 0x80
    ensures forall k :: 1 <= k < |bs| ==> 0x80 <= bs[k] < 0xC0
  {
    var v := c as int;
    assert v < 0x110000;
    if v < 0x80 then [v]
    else if v < 0x800 then [0xC0 + v / 64, 0x80 + v % 64]
    else if v < 0x10000 then [0xE0 + v / 4096, 0x80 + (v / 64) % 64, 0x80 + v % 64]
    else [0xF0 + v / 262144, 0x80 + (v / 4096) % 64, 0x80 + (v / 64) % 64, 0x80 + v % 64]
  }

  /** The scalar value a one-character UTF-8 sequence stands for. */
  function Utf8CharValue(bs: seq<byte>): int
    requires 1 <= |bs| <= 4
  {
    var b0: int := bs[0];
    if |bs| == 1 then b0
    else if |bs| == 2 then (b0 - 0xC0) * 64 + Low6(bs[1])
    else if |bs| == 3 then (b0 - 0xE0) * 4096 + Low6(bs[1]) * 64 + Low6(bs[2])
    else (b0 - 0xF0) * 262144 + Low6(bs[1]) * 4096 + Low6(bs[2]) * 64 + Low6(bs[3])
  }

  /** The payload bits of a continuation byte. */
  function Low6(b: byte): int {
    b - 0x80
  }

  /** Decoding a character's UTF-8 bytes gives the character back. */
  lemma Utf8CharRoundTrip(c: char)
    ensures Utf8CharValue(Utf8Char(c)) == c as int
  {
    var v := c as int;
    var q, r := v / 64, v % 64;
    var q2, r2 := q / 64, q % 64;
    var q3, r3 := q2 / 64, q2 % 64;
    assert v == q * 64 + r && q == q2 * 64 + r2 && q2 == q3 * 64 + r3;
    if v >= 0x800 && v < 0x10000 {
      assert v / 4096 == q2;
    } else if v >= 0x10000 {
      assert v / 4096 == q2;
      assert v / 262144 == q3;
    }
  }

  /** `TextEncoder.encode`: the UTF-8 bytes of `s`. */
  function Utf8Encode(s: string): (r: seq<byte>)
    ensures |s| <= |r| <= 4 * |s|
  {
    if s == [] then [] else Utf8Char(s[0]) + Utf8Encode(s[1..])
  }

  lemma {:induction false} Utf8EncodeAppend(a: string, b: string)
    ensures Utf8Encode(a + b) == Utf8Encode(a) + Utf8Encode(b)
  {
    if a != [] {
      assert (a + b)[0] == a[0];
      assert (a + b)[1..] == a[1..] + b;
      Utf8EncodeAppend(a[1..], b);
    } else {
      assert a + b == b;
    }
  }

  /** Text made of ASCII characters is its own UTF-8 encoding. */
  lemma {:induction false} Utf8EncodeAscii(s: string)
    requires forall k :: 0 <= k < |s| ==> s[k] as int < 0x80
    ensures |Utf8Encode(s)| == |s|
    ensures forall k :: 0 <= k < |s| ==> Utf8Encode(s)[k] == s[k] as int
  {
    if s != [] {
      Utf8EncodeAscii(s[1..]);
    }
  }

  /** The table entries of `bs`, in order (the non-hex output of `zebraEncode`). */
  function Glyphs(bs: seq<byte>): string {
    if bs == [] then [] else Glyphs(bs[..|bs| - 1]) + Glyph(bs[|bs| - 1])
  }

  lemma GlyphsAppend(a: seq<byte>, b: seq<byte>)
    ensures Glyphs(a + b) == Glyphs(a) + Glyphs(b)
  {
    GlyphsAsConcat(a + b);
    GlyphsAsConcat(a);
    GlyphsAsConcat(b);
    ConcatAppend(a, b, Glyph);
  }

  /** The entries of `bs` under any table `f`, in order. */
  function Concat(bs: seq<byte>, f: byte -> string): string {
    if bs == [] then [] else Concat(bs[..|bs| - 1], f) + f(bs[|bs| - 1])
  }

  lemma {:induction false} ConcatAppend(a: seq<byte>, b: seq<byte>, f: byte -> string)
    ensures Concat(a + b, f) == Concat(a, f) + Concat(b, f)
    decreases |b|
  {
    if b == [] {
      assert a + b == a;
    } else {
      assert (a + b)[..|a + b| - 1] == a + b[..|b| - 1];
      ConcatAppend(a, b[..|b| - 1], f);
    }
  }

  lemma {:induction false} GlyphsAsConcat(bs: seq<byte>)
    ensures Glyphs(bs) == Concat(bs, Glyph)
  {
    if bs != [] {
      GlyphsAsConcat(bs[..|bs| - 1]);
    }
  }

  /** Number of bytes in `bs` that have a visible glyph (value 26 or more). */
  function VisibleBytes(bs: seq<byte>): nat {
    if bs == [] then 0 else VisibleBytes(bs[..|bs| - 1]) + (if bs[|bs| - 1] >= 26 then 1 else 0)
  }

  /** Each byte of 26 or more contributes exactly one character; the control
      bytes 0..25 vanish. */
  lemma {:induction false} GlyphsLength(bs: seq<byte>)
    ensures |Glyphs(bs)| == VisibleBytes(bs)
  {
    if bs != [] {
      GlyphsLength(bs[..|bs| - 1]);
    }
  }

  predicate IsHexDigit(c: char) {
    '0' <= c <= '9' || 'a' <= c <= 'f' || 'A' <= c <= 'F'
  }

  function HexDigitValue(c: char): (v: nat)
    requires IsHexDigit(c)
    ensures v < 16
  {
    if '0' <= c <= '9' then c as int - '0' as int
    else if 'a' <= c <= 'f' then c as int - 'a' as int + 10
    else c as int - 'A' as int + 10
  }

  /** An escape `_hh` (two hex digits, either case) starts at `p`. */
  predicate HexEscapeAt(s: string, p: nat) {
    p + 3 <= |s| && s[p] == '_' && IsHexDigit(s[p + 1]) && IsHexDigit(s[p + 2])
  }

  /** The byte an escape at `p` stands for. */
  function EscapedByte(s: string, p: nat): byte
    requires HexEscapeAt(s, p)
  {
    HexDigitValue(s[p + 1]) * 16 + HexDigitValue(s[p + 2])
  }

  /** No escape starts in `[from, p)`. */
  predicate NoEscapeBetween(s: string, from: nat, p: nat) {
    forall q :: from <= q < p ==> !HexEscapeAt(s, q)
  }

  /** The leftmost escape at or after `from`, or `|s|` when there is none: the
      match `/_([0-9a-fA-F]{2})/g` finds next. */
  function NextHexEscape(s: string, from: nat): (p: nat)
    requires from <= |s|
    ensures from <= p <= |s|
    ensures p < |s| ==> HexEscapeAt(s, p)
    decreases |s| - from
  {
    if from == |s| then |s|
    else if HexEscapeAt(s, from) then from
    else NextHexEscape(s, from + 1)
  }

  /** No escape starts between `from` and the one `NextHexEscape` finds. */
  lemma {:induction false} NextHexEscapeLeftmost(s: string, from: nat)
    requires from <= |s|
    ensures NoEscapeBetween(s, from, NextHexEscape(s, from))
    decreases |s| - from
  {
    if from < |s| && !HexEscapeAt(s, from) {
      NextHexEscapeLeftmost(s, from + 1);
    }
  }

  /** Hex-mode output: `acc`, the output so far, followed by the text from
      `from` on, where the text between escapes is encoded as in non-hex mode
      and each escape becomes the entry of its byte. */
  function HexModeFrom(s: string, from: nat, acc: string): string
    requires from <= |s|
    decreases |s| - from
  {
    var p := NextHexEscape(s, from);
    if p == |s| then acc + Glyphs(Utf8Encode(s[from..]))
    else HexModeFrom(s, p + 3, acc + Glyphs(Utf8Encode(s[from..p])) + Glyph(EscapedByte(s, p)))
  }

  /** What `zebraEncode(text, isHexMode)` returns: never a line feed, in
      either mode, since byte 10 has an empty entry. */
  function EncodedText(text: string, isHexMode: bool): (r: string)
    ensures '\n' !in r
  {
    if isHexMode then
      NoLineFeedInHexMode(text, 0, "");
      HexModeFrom(text, 0, "")
    else
      NoLineFeedInGlyphs(Utf8Encode(text));
      Glyphs(Utf8Encode(text))
  }

  /** Appends the entries of `bytes` to `result`: the `for (const byte of …)`
      loops of `zebraEncode`. */
  method AppendGlyphs(table: map<int, string>, result: string, bytes: seq<byte>)
    returns (r: Result<string, ZebraEncodeError>)
    requires IsCodePage850(table)
    ensures r == Success(result + Glyphs(bytes))
  {
    var acc := result;
    var i := 0;
    while i < |bytes|
      invariant 0 <= i <= |bytes|
      invariant acc == result + Glyphs(bytes[..i])
    {
      CodePageEntry(table, bytes[i]);
      var g := DecodeByte(table, bytes[i]);
      assert bytes[..i + 1][..i] == bytes[..i];
      acc := acc + g.value;
      i := i + 1;
    }
    assert bytes[..i] == bytes;
    return Success(acc);
  }

  /** `zebraEncode`: never raises `ZebraEncodeError`, because the table has an
      entry for every byte, and returns the entries of the text's bytes. */
  method ZebraEncode(text: string, isHexMode: bool) returns (r: Result<string, ZebraEncodeError>)
    ensures r == Success(EncodedText(text, isHexMode))
  {
    var codePage850 := CreateCodePage850Map();
    var result := "";
    if isHexMode {
      r := HexModeEncode(codePage850, text);
    } else {
      r := AppendGlyphs(codePage850, result, Utf8Encode(text));
      assert result + Glyphs(Utf8Encode(text)) == Glyphs(Utf8Encode(text));
    }
  }

  /** The hex-mode branch of `zebraEncode`: the text between escapes through
      the table, then each escape's byte through the table. */
  method HexModeEncode(codePage850: map<int, string>, text: string) returns (r: Result<string, ZebraEncodeError>)
    requires IsCodePage850(codePage850)
    ensures r == Success(HexModeFrom(text, 0, ""))
  {
    var result := "";
    var lastIndex := 0;
    var index := NextHexEscape(text, 0);
    while index < |text|
      invariant lastIndex <= index <= |text|
      invariant index == NextHexEscape(text, lastIndex)
      invariant HexModeFrom(text, 0, "") == HexModeFrom(text, lastIndex, result)
      decreases |text| - lastIndex
    {
      var normal := AppendGlyphs(codePage850, result, Utf8Encode(text[lastIndex..index]));
      CodePageEntry(codePage850, EscapedByte(text, index));
      var g := DecodeByte(codePage850, EscapedByte(text, index));
      HexModeStep(text, lastIndex, index, result);
      result := normal.value + g.value;
      lastIndex := index + 3;
      index := NextHexEscape(text, lastIndex);
    }
    r := AppendGlyphs(codePage850, result, Utf8Encode(text[lastIndex..]));
    HexModeEnd(text, lastIndex, result);
  }

  /** One escape of the hex-mode scan: the text before it, then its byte. */
  lemma HexModeStep(s: string, from: nat, p: nat, acc: string)
    requires from <= |s| && p == NextHexEscape(s, from) && p < |s|
    ensures HexModeFrom(s, from, acc) ==
      HexModeFrom(s, p + 3, acc + Glyphs(Utf8Encode(s[from..p])) + Glyph(EscapedByte(s, p)))
  {
  }

  /** The end of the hex-mode scan: the rest of the text has no escape. */
  lemma HexModeEnd(s: string, from: nat, acc: string)
    requires from <= |s| && NextHexEscape(s, from) == |s|
    ensures HexModeFrom(s, from, acc) == acc + Glyphs(Utf8Encode(s[from..]))
  {
  }

  /** `zebraLikeEncode`: one character per UTF-8 byte, whose code is the byte. */
  method ZebraLikeEncode(text: string) returns (r: string)
    ensures |r| == |Utf8Encode(text)|
    ensures forall k :: 0 <= k < |r| ==> r[k] as int == Utf8Encode(text)[k]
  {
    var utf8Bytes := Utf8Encode(text);
    r := "";
    var i := 0;
    while i < |utf8Bytes|
      invariant 0 <= i <= |utf8Bytes|
      invariant |r| == i
      invariant forall k :: 0 <= k < i ==> r[k] as int == utf8Bytes[k]
    {
      r := r + [utf8Bytes[i] as char];
      i := i + 1;
    }
  }

  /** Text made only of the characters U+0020..U+007E is shown unchanged. */
  lemma {:induction false} PrintableTextUnchanged(text: string)
    requires forall k :: 0 <= k < |text| ==> ' ' <= text[k] <= '~'
    ensures EncodedText(text, false) == text
    decreases |text|
  {
    if text != [] {
      var init := text[..|text| - 1];
      var last := text[|text| - 1];
      PrintableTextUnchanged(init);
      assert text == init + [last];
      Utf8EncodeAppend(init, [last]);
      assert Utf8Encode([last]) == [last as int];
      GlyphsAppend(Utf8Encode(init), [last as int]);
      assert Glyphs([last as int]) == [last] by {
        assert [last as int][..0] == [];
      }
    }
  }

  /** Without any `_hh` escape, hex mode gives the same text as non-hex mode. */
  lemma NoEscapeSameAsPlain(text: string)
    requires forall p :: 0 <= p < |text| ==> !HexEscapeAt(text, p)
    ensures EncodedText(text, true) == EncodedText(text, false)
  {
    assert text[0..] == text;
  }

  /** No table entry is a line feed, so encoded text never holds one. */
  lemma NoLineFeedInGlyph(b: byte)
    ensures '\n' !in Glyph(b)
  {
    if b >= 128 {
      ExtendedGlyphNotLineFeed(b);
    }
  }

  lemma Row128NoLineFeed()
    ensures '\n' !in Extended128()
  {
  }

  lemma Row144NoLineFeed()
    ensures '\n' !in Extended144()
  {
  }

  lemma Row160NoLineFeed()
    ensures '\n' !in Extended160()
  {
  }

  lemma Row176NoLineFeed()
    ensures '\n' !in Extended176()
  {
  }

  lemma Row192NoLineFeed()
    ensures '\n' !in Extended192()
  {
  }

  lemma Row208NoLineFeed()
    ensures '\n' !in Extended208()
  {
  }

  lemma Row224NoLineFeed()
    ensures '\n' !in Extended224()
  {
  }

  lemma Row240NoLineFeed()
    ensures '\n' !in Extended240()
  {
  }

  lemma ExtendedGlyphNotLineFeed(b: byte)
    requires b >= 128
    ensures ExtendedGlyph(b) != '\n'
  {
    if b < 144 {
      Row128NoLineFeed();
    } else if b < 160 {
      Row144NoLineFeed();
    } else if b < 176 {
      Row160NoLineFeed();
    } else if b < 192 {
      Row176NoLineFeed();
    } else if b < 208 {
      Row192NoLineFeed();
    } else if b < 224 {
      Row208NoLineFeed();
    } else if b < 240 {
      Row224NoLineFeed();
    } else {
      Row240NoLineFeed();
    }
  }


  lemma {:induction false} NoLineFeedInGlyphs(bs: seq<byte>)
    ensures '\n' !in Glyphs(bs)
  {
    if bs != [] {
      NoLineFeedInGlyphs(bs[..|bs| - 1]);
      NoLineFeedInGlyph(bs[|bs| - 1]);
    }
  }

  lemma {:induction false} NoLineFeedInHexMode(s: string, from: nat, acc: string)
    requires from <= |s|
    requires '\n' !in acc
    ensures '\n' !in HexModeFrom(s, from, acc)
    decreases |s| - from
  {
    var p := NextHexEscape(s, from);
    var bytes := Utf8Encode(s[from..p]);
    NoLineFeedInGlyphs(bytes);
    HexModeUnfold(s, from, acc);
    if p < |s| {
      var b := EscapedByte(s, p);
      NoLineFeedInGlyph(b);
      NoLineFeedInHexMode(s, p + 3, acc + Glyphs(bytes) + Glyph(b));
    }
  }

  /** One turn of the escape loop, either case. */
  lemma HexModeUnfold(s: string, from: nat, acc: string)
    requires from <= |s|
    ensures var p := NextHexEscape(s, from);
      var g := Glyphs(Utf8Encode(s[from..p]));
      HexModeFrom(s, from, acc) ==
        if p == |s| then acc + g else HexModeFrom(s, p + 3, acc + g + Glyph(EscapedByte(s, p)))
  {
    assert s[from..|s|] == s[from..];
  }

}
