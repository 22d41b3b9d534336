/** The ECMAScript built-ins the label core leans on, stated in Dafny's terms
    (ECMA-262): `String.prototype.trim`, `String.prototype.split` with a
    one-character separator, `parseInt(s, 10)`, `parseFloat`, the case-folded
    comparisons made with `String.prototype.toUpperCase`, and
    `String.prototype.replace` with a one-character search string.
    Strings are sequences of Unicode scalar values. */
module JsText {
  import opened Wrappers

  /** A JavaScript number produced by `parseInt`: an integer, or NaN (`None`). */
  type Num = Option<int>

  /** NaN-propagating addition of two such numbers. */
  function AddNum(a: Num, b: Num): (r: Num)
    ensures r.Some? <==> a.Some? && b.Some?
    ensures r.Some? ==> r.value == a.value + b.value
  {
    if a.Some? && b.Some? then Some(a.value + b.value) else None
  }

  /** WhiteSpace or LineTerminator (sections 12.2 and 12.3 of ECMA-262): the
      code points that trim, parseInt, parseFloat and the class `\s` skip. */
  predicate IsWhitespace(c: char) {
    || c == '\t' || c == '\n' || c == '\U{000B}' || c == '\U{000C}' || c == '\r'
    || c == ' ' || c == '\U{00A0}' || c == '\U{1680}' || ('\U{2000}' <= c <= '\U{200A}')
    || c == '\U{2028}' || c == '\U{2029}' || c == '\U{202F}' || c == '\U{205F}'
    || c == '\U{3000}' || c == '\U{FEFF}'
  }

  predicate IsDigit(c: char) { '0' <= c <= '9' }

  predicate AllDigits(d: string) { forall k :: 0 <= k < |d| ==> IsDigit(d[k]) }

  /** `s` with its leading whitespace removed. */
  function TrimStart(s: string): (r: string)
    ensures |r| <= |s| && r == s[|s| - |r|..]
    ensures forall k :: 0 <= k < |s| - |r| ==> IsWhitespace(s[k])
    ensures r == [] || !IsWhitespace(r[0])
  {
    if |s| > 0 && IsWhitespace(s[0]) then TrimStart(s[1..]) else s
  }

  /** `s` with its trailing whitespace removed. */
  function TrimEnd(s: string): (r: string)
    ensures |r| <= |s| && r == s[..|r|]
    ensures forall k :: |r| <= k < |s| ==> IsWhitespace(s[k])
    ensures r == [] || !IsWhitespace(r[|r| - 1])
  {
    if |s| > 0 && IsWhitespace(s[|s| - 1]) then TrimEnd(s[..|s| - 1]) else s
  }

  /** Number of whitespace code points that start `s`. */
  function LeadingWhitespace(s: string): (n: nat)
    ensures n <= |s| && TrimStart(s) == s[n..]
    ensures forall k :: 0 <= k < n ==> IsWhitespace(s[k])
  {
    |s| - |TrimStart(s)|
  }

  /** `String.prototype.trim`: the slice of `s` left once whitespace is removed
      from both ends. */
  function Trim(s: string): (r: string)
    ensures r == [] || (!IsWhitespace(r[0]) && !IsWhitespace(r[|r| - 1]))
    ensures LeadingWhitespace(s) + |r| <= |s|
    ensures r == s[LeadingWhitespace(s)..LeadingWhitespace(s) + |r|]
    ensures forall k :: LeadingWhitespace(s) + |r| <= k < |s| ==> IsWhitespace(s[k])
  {
    TrimEnd(TrimStart(s))
  }

  /** Trimming text that neither starts nor ends with whitespace changes nothing. */
  lemma TrimUnchanged(s: string)
    requires s == [] || (!IsWhitespace(s[0]) && !IsWhitespace(s[|s| - 1]))
    ensures Trim(s) == s
  {
  }

  /** `s.split(sep)` for a one-character separator: the pieces between
      separators, always at least one. */
  function Split(s: string, sep: char): (parts: seq<string>)
    ensures |parts| >= 1
    ensures forall k :: 0 <= k < |parts| ==> sep !in parts[k]
  {
    if s == [] then [[]]
    else
      var rest := Split(s[1..], sep);
      if s[0] == sep then [[]] + rest
      else [[s[0]] + rest[0]] + rest[1..]
  }

  /** Text without the separator splits into itself alone. */
  lemma {:induction false} SplitWithoutSeparator(s: string, sep: char)
    ensures sep !in s ==> Split(s, sep) == [s]
  {
    if s != [] && sep !in s {
      SplitWithoutSeparator(s[1..], sep);
      assert [s[0]] + s[1..] == s;
    }
  }

  /** Text holding the separator splits into at least two pieces. */
  lemma {:induction false} SplitAtSeparator(s: string, sep: char)
    requires sep in s
    ensures |Split(s, sep)| >= 2
  {
    if s[0] != sep {
      assert sep in s[1..];
      SplitAtSeparator(s[1..], sep);
    }
  }

  lemma AppendAssociates(a: string, b: string, c: string)
    ensures (a + b) + c == a + (b + c)
  {
  }

  /** `parts.join(sep)`: the inverse of `Split`. */
  function Join(parts: seq<string>, sep: char): string
    requires |parts| >= 1
  {
    if |parts| == 1 then parts[0] else parts[0] + [sep] + Join(parts[1..], sep)
  }

  lemma {:induction false} JoinSplit(s: string, sep: char)
    ensures Join(Split(s, sep), sep) == s
  {
    if s != [] {
      JoinSplit(s[1..], sep);
      var rest := Split(s[1..], sep);
      if s[0] != sep {
        if |rest| > 1 {
          calc {
            Join(Split(s, sep), sep);
            ([s[0]] + rest[0]) + [sep] + Join(rest[1..], sep);
            [s[0]] + (rest[0] + [sep] + Join(rest[1..], sep));
            [s[0]] + Join(rest, sep);
          }
        }
      }
    }
  }

  /** Splitting text without a separator in front of the rest glues it to the
      first piece of the rest. */
  lemma {:induction false} SplitPrefix(a: string, t: string, sep: char)
    requires sep !in a
    ensures Split(a + t, sep) == [a + Split(t, sep)[0]] + Split(t, sep)[1..]
  {
    if a != [] {
      SplitPrefix(a[1..], t, sep);
      assert a + t == [a[0]] + (a[1..] + t);
      SplitCons(a[0], a[1..] + t, sep);
      assert [a[0]] + a[1..] == a;
      AppendAssociates([a[0]], a[1..], Split(t, sep)[0]);
    } else {
      var st := Split(t, sep);
      assert a + t == t && a + st[0] == st[0];
      assert [st[0]] + st[1..] == st;
    }
  }

  /** A character other than the separator joins the first piece. */
  lemma SplitCons(c: char, s: string, sep: char)
    requires c != sep
    ensures Split([c] + s, sep) == [[c] + Split(s, sep)[0]] + Split(s, sep)[1..]
  {
    assert ([c] + s)[1..] == s;
  }

  /** Two texts without the separator, joined by it, split back into the two. */
  lemma SplitTwo(a: string, b: string, sep: char)
    requires sep !in a && sep !in b
    ensures Split(a + [sep] + b, sep) == [a, b]
  {
    var tail := [sep] + b;
    assert a + [sep] + b == a + tail;
    SplitPrefix(a, tail, sep);
    assert tail[1..] == b;
    SplitWithoutSeparator(b, sep);
    assert Split(tail, sep) == [[], b];
    assert a + [] == a;
  }

  /** The piece after the last separator is the last piece. */
  lemma {:induction false} SplitLast(s: string, t: string, sep: char)
    requires sep !in t
    ensures |Split(s + [sep] + t, sep)| >= 2
    ensures Split(s + [sep] + t, sep)[|Split(s + [sep] + t, sep)| - 1] == t
  {
    if s == [] {
      SplitPrefix(t, [], sep);
      assert t + [] == t;
      assert [sep] + t == s + [sep] + t;
      assert ([sep] + t)[1..] == t;
    } else {
      SplitLast(s[1..], t, sep);
      assert (s + [sep] + t)[1..] == s[1..] + [sep] + t;
    }
  }

  lemma {:induction false} SplitJoin(parts: seq<string>, sep: char)
    requires |parts| >= 1
    requires forall k :: 0 <= k < |parts| ==> sep !in parts[k]
    ensures Split(Join(parts, sep), sep) == parts
  {
    if |parts| == 1 {
      SplitPrefix(parts[0], [], sep);
      assert parts[0] + [] == parts[0];
      assert Split([], sep) == [[]];
      assert parts == [parts[0]];
    } else {
      var rest := Join(parts[1..], sep);
      SplitJoin(parts[1..], sep);
      SplitPrefix(parts[0], [sep] + rest, sep);
      assert parts[0] + [sep] + rest == parts[0] + ([sep] + rest);
      assert ([sep] + rest)[0] == sep && ([sep] + rest)[1..] == rest;
      assert Split([sep] + rest, sep) == [[]] + Split(rest, sep);
      assert parts[0] + [] == parts[0];
      assert parts == [parts[0]] + parts[1..];
    }
  }

  function DigitValue(c: char): nat
    requires IsDigit(c)
  {
    c as int - '0' as int
  }

  function DigitChar(d: nat): (c: char)
    requires d < 10
    ensures IsDigit(c) && DigitValue(c) == d
  {
    ('0' as int + d) as char
  }

  /** Length of the run of decimal digits that starts `s`. */
  function DigitRun(s: string): (n: nat)
    ensures n <= |s|
    ensures forall k :: 0 <= k < n ==> IsDigit(s[k])
    ensures n == |s| || !IsDigit(s[n])
  {
    if |s| > 0 && IsDigit(s[0]) then 1 + DigitRun(s[1..]) else 0
  }

  /** The value of a string of decimal digits, most significant first. */
  function DecimalValue(d: string): nat
    requires AllDigits(d)
  {
    if d == [] then 0 else 10 * DecimalValue(d[..|d| - 1]) + DigitValue(d[|d| - 1])
  }

  /** The text after an optional leading sign. */
  function Unsigned(t: string): string {
    if |t| > 0 && (t[0] == '-' || t[0] == '+') then t[1..] else t
  }

  /** `parseInt(s, 10)` (section 19.2.5 of ECMA-262): skip leading whitespace,
      read an optional sign, then the longest run of decimal digits; NaN when
      that run is empty. (The value is not rounded to a binary64 number.) */
  function ParseInt(s: string): (r: Num)
    ensures (forall k :: 0 <= k < |s| ==> !IsDigit(s[k])) ==> r.None?
  {
    var t := TrimStart(s);
    var u := Unsigned(t);
    var n := DigitRun(u);
    if n == 0 then None
    else
      var v: int := DecimalValue(u[..n]);
      assert u[0] == s[|s| - |u|];
      Some(if |t| > 0 && t[0] == '-' then -v else v)
  }

  /** A digit of base 16, in either case. */
  predicate IsRadix16Digit(c: char) {
    IsDigit(c) || 'a' <= c <= 'f' || 'A' <= c <= 'F'
  }

  function Radix16Value(c: char): (v: nat)
    requires IsRadix16Digit(c)
    ensures v < 16
  {
    if IsDigit(c) then DigitValue(c)
    else if 'a' <= c <= 'f' then c as int - 'a' as int + 10
    else c as int - 'A' as int + 10
  }

  /** Length of the run of base-16 digits that starts `s`. */
  function Radix16Run(s: string): (n: nat)
    ensures n <= |s|
    ensures forall k :: 0 <= k < n ==> IsRadix16Digit(s[k])
    ensures n == |s| || !IsRadix16Digit(s[n])
  {
    if |s| > 0 && IsRadix16Digit(s[0]) then 1 + Radix16Run(s[1..]) else 0
  }

  /** The value of a string of base-16 digits, most significant first. */
  function HexadecimalValue(d: string): nat
    requires forall k :: 0 <= k < |d| ==> IsRadix16Digit(d[k])
  {
    if d == [] then 0 else 16 * HexadecimalValue(d[..|d| - 1]) + Radix16Value(d[|d| - 1])
  }

  /** The `0x` or `0X` that makes `parseInt` without a radix read base 16. */
  predicate HexPrefixed(u: string) {
    |u| >= 2 && u[0] == '0' && (u[1] == 'x' || u[1] == 'X')
  }

  /** `parseInt(s)` with no radix (section 19.2.5 of ECMA-262, radix
      undefined): as `parseInt(s, 10)`, except that `0x` or `0X` after the
      sign switches to base 16, and NaN when no base-16 digit follows. */
  function ParseIntNoRadix(s: string): (r: Num)
    ensures !HexPrefixed(Unsigned(TrimStart(s))) ==> r == ParseInt(s)
    ensures HexPrefixed(Unsigned(TrimStart(s))) && Radix16Run(Unsigned(TrimStart(s))[2..]) == 0 ==> r.None?
  {
    var t := TrimStart(s);
    var u := Unsigned(t);
    if HexPrefixed(u) then
      var h := u[2..];
      var n := Radix16Run(h);
      if n == 0 then None
      else
        var v: int := HexadecimalValue(h[..n]);
        Some(if t[0] == '-' then -v else v)
    else ParseInt(s)
  }

  /** `parseInt("0x1A")` is 26: the prefix switches to base 16. */
  lemma ParseIntNoRadixHex()
    ensures ParseIntNoRadix("0x1A") == Some(26)
  {
    var s := "0x1A";
    assert s[2..] == "1A";
    HexDigitsOneA();
    HexPrefixedAll(s);
  }

  /** `0x` followed by nothing but base-16 digits reads as their value. */
  lemma HexPrefixedAll(s: string)
    requires |s| > 2 && s[0] == '0' && s[1] == 'x' && Radix16Run(s[2..]) == |s| - 2
    ensures ParseIntNoRadix(s) == Some(HexadecimalValue(s[2..]))
  {
    assert TrimStart(s) == s by { assert !IsWhitespace(s[0]); }
    assert Unsigned(s) == s;
    assert s[2..][..|s| - 2] == s[2..];
  }

  lemma HexDigitsOneA()
    ensures Radix16Run("1A") == 2 && HexadecimalValue("1A") == 26
  {
    var h := "1A";
    assert h[1..] == "A" && h[1..][1..] == "";
    assert h[..1] == "1" && h[..1][..0] == "";
  }

  /** Decimal text of a natural number, as `Number.prototype.toString` gives it. */
  function NatToString(n: nat): (d: string)
    ensures |d| >= 1 && AllDigits(d)
  {
    if n < 10 then [DigitChar(n)] else NatToString(n / 10) + [DigitChar(n % 10)]
  }

  /** Decimal text of an integer, with a leading `-` when negative. */
  function IntToString(i: int): string {
    if i < 0 then "-" + NatToString(-i) else NatToString(i)
  }

  lemma {:induction false} DecimalValueOfNatToString(n: nat)
    ensures DecimalValue(NatToString(n)) == n
  {
    if n >= 10 {
      DecimalValueOfNatToString(n / 10);
      var d := NatToString(n);
      assert d[..|d| - 1] == NatToString(n / 10);
    }
  }

  /** Digit text is left alone by `TrimStart`, `Unsigned` and `DigitRun`. */
  lemma DigitTextScan(d: string)
    requires |d| >= 1 && AllDigits(d)
    ensures TrimStart(d) == d && Unsigned(d) == d && DigitRun(d) == |d| && d[..|d|] == d
  {
    assert !IsWhitespace(d[0]);
    DigitRunAll(d);
  }

  lemma {:induction false} DigitRunAll(d: string)
    requires AllDigits(d)
    ensures DigitRun(d) == |d|
  {
    if d != [] {
      DigitRunAll(d[1..]);
    }
  }

  /** The text `-` followed by digits is read as the negated digits. */
  lemma NegativeTextScan(d: string)
    requires |d| >= 1 && AllDigits(d)
    ensures TrimStart("-" + d) == "-" + d && Unsigned("-" + d) == d
  {
    var s := "-" + d;
    assert s[0] == '-' && !IsWhitespace(s[0]);
    assert s[1..] == d;
  }

  /** `parseInt` reads back every integer it is shown in decimal. */
  lemma ParseIntRoundTrip(i: int)
    ensures ParseInt(IntToString(i)) == Some(i)
  {
    if i < 0 {
      var n: nat := -i;
      assert IntToString(i) == "-" + NatToString(n);
      ParseIntOfDigits(n);
    } else {
      assert IntToString(i) == NatToString(i);
      ParseIntOfDigits(i);
    }
  }

  lemma ParseIntOfDigits(n: nat)
    ensures ParseInt(NatToString(n)) == Some(n)
    ensures ParseInt("-" + NatToString(n)) == Some(-(n as int))
  {
    var d := NatToString(n);
    DecimalValueOfNatToString(n);
    DigitTextScan(d);
    NegativeTextScan(d);
  }

  /** A JavaScript number produced by `parseFloat`. */
  datatype JsFloat = NaN | Infinity(negative: bool) | Finite(value: real)

  function Pow10(e: nat): (p: nat)
    ensures p >= 1
  {
    if e == 0 then 1 else 10 * Pow10(e - 1)
  }

  /** The exponent of a StrDecimalLiteral's ExponentPart at the start of `e`
      (`e`/`E`, an optional sign, one or more digits); 0 when there is none. */
  function ExponentValue(e: string): int {
    if |e| < 2 || (e[0] != 'e' && e[0] != 'E') then 0
    else
      var u := Unsigned(e[1..]);
      var n := DigitRun(u);
      if n == 0 then 0
      else if e[1] == '-' then -(DecimalValue(u[..n]) as int)
      else DecimalValue(u[..n])
  }

  /** `m` times ten to the power `e`. */
  function Scale10(m: real, e: int): (r: real)
    ensures m >= 0.0 ==> r >= 0.0
  {
    if e >= 0 then m * Pow10(e) as real else m / Pow10(-e) as real
  }

  /** The value of the longest StrUnsignedDecimalLiteral other than
      `Infinity` that starts `u` — digits, an optional `.` and fraction
      digits (at least one digit in all), an optional exponent — or `None`. */
  function UnsignedDecimalValue(u: string): (r: Option<real>)
    ensures r.Some? ==> r.value >= 0.0
    ensures u == [] || (!IsDigit(u[0]) && u[0] != '.') ==> r == None
  {
    var n1 := DigitRun(u);
    var rest := u[n1..];
    assert n1 == 0 ==> rest == u;
    var hasDot := |rest| > 0 && rest[0] == '.';
    var fracDigits := if hasDot then rest[1..][..DigitRun(rest[1..])] else [];
    if n1 == 0 && fracDigits == [] then None
    else
      var fraction := Quotient(DecimalValue(fracDigits), Pow10(|fracDigits|));
      var after := if hasDot then rest[1 + |fracDigits|..] else rest;
      Some(Scale10(DecimalValue(u[..n1]) as real + fraction, ExponentValue(after)))
  }

  /** `a / b` over the reals, for a positive `b`. */
  function Quotient(a: nat, b: nat): (q: real)
    requires b >= 1
    ensures q >= 0.0
  {
    a as real / b as real
  }

  predicate StartsWithInfinity(u: string) {
    |u| >= 8 && u[..8] == "Infinity"
  }

  /** `parseFloat(s)` (section 19.2.4 of ECMA-262): the longest prefix of the
      trimmed text that is a StrDecimalLiteral — an optional sign, then
      `Infinity` or a decimal literal. The value is the exact decimal one,
      not rounded to a binary64 number. */
  function ParseFloat(s: string): (r: JsFloat)
    ensures var u := Unsigned(TrimStart(s));
      (u == [] || (!IsDigit(u[0]) && u[0] != '.' && u[0] != 'I')) ==> r == NaN
    ensures r.Finite? && r.value < 0.0 ==> |TrimStart(s)| > 0 && TrimStart(s)[0] == '-'
  {
    var t := TrimStart(s);
    var u := Unsigned(t);
    var negative := |t| > 0 && t[0] == '-';
    if StartsWithInfinity(u) then Infinity(negative)
    else
      match UnsignedDecimalValue(u)
      case None => NaN
      case Some(v) => Finite(if negative then -v else v)
  }

  lemma DigitTextDecimalValue(d: string)
    requires |d| >= 1 && AllDigits(d)
    ensures UnsignedDecimalValue(d) == Some(DecimalValue(d) as real)
  {
    DigitTextScan(d);
    assert d[|d|..] == [];
    assert ExponentValue([]) == 0;
  }

  /** Digit text read by `parseFloat`, with or without a leading `-`. */
  lemma ParseFloatOfDigits(n: nat)
    ensures ParseFloat(NatToString(n)) == Finite(n as real)
    ensures ParseFloat("-" + NatToString(n)) == Finite(-(n as real))
  {
    var d := NatToString(n);
    DecimalValueOfNatToString(n);
    DigitTextScan(d);
    DigitTextDecimalValue(d);
    assert !StartsWithInfinity(d) by {
      assert d[0] != 'I';
      if |d| >= 8 { assert d[..8][0] == d[0]; }
    }
    NegativeTextScan(d);
  }

  /** The upper-case form of `c` as far as comparisons with ASCII letters can
      tell: `a`-`z`, and the two non-ASCII letters whose upper case is an ASCII
      letter (U+0131 and U+017F). */
  function UpperChar(c: char): char {
    if 'a' <= c <= 'z' then (c as int - 32) as char
    else if c == '\U{0131}' then 'I'
    else if c == '\U{017F}' then 'S'
    else c
  }

  /** `s.toUpperCase() === [letter]` for an upper-case ASCII letter: no other
      code point and no longer text upper-cases to a single ASCII letter. */
  predicate UpperIs(s: string, letter: char)
    requires 'A' <= letter <= 'Z'
  {
    |s| == 1 && UpperChar(s[0]) == letter
  }

  /** Index of the first `c` in `s`, or `|s|` when there is none. */
  function IndexOfChar(s: string, c: char): (i: nat)
    ensures i <= |s| && c !in s[..i]
    ensures i < |s| ==> s[i] == c
  {
    if s == [] then 0
    else if s[0] == c then 0
    else
      var i := 1 + IndexOfChar(s[1..], c);
      assert s[..i] == [s[0]] + s[1..][..i - 1];
      i
  }

  /** `s.replace(c, rep)` with a one-character search string: only the first
      occurrence is replaced. */
  function ReplaceFirst(s: string, c: char, rep: string): (r: string)
    ensures c !in s ==> r == s
    ensures c in s ==> exists i :: 0 <= i < |s| && s[i] == c && c !in s[..i] && r == s[..i] + rep + s[i + 1..]
  {
    var i := IndexOfChar(s, c);
    if i == |s| then
      s
    else
      s[..i] + rep + s[i + 1..]
  }
}
