/** The `zpl` template tag (packages/sdk/src/core/tag.ts): it joins the
    template, normalises its whitespace, truncates it to the configured
    maximum, and recognises one of three shapes, in this order:
      `label Name(key: type, ...) {body}`,
      `label [Name] {body}`,
      anything else, which is parsed as plain ZPL.
    The two patterns are written out as explicit matchers. */
module Tag {
  import opened Wrappers
  import opened JsText
  import opened Types
  import opened Config
  import opened Parser

  /** `values[i] ?? ""`: a missing or nullish value counts as empty. */
  function ValueAt(values: seq<Option<string>>, i: nat): string {
    if i < |values| && values[i].Some? then values[i].value else ""
  }

  /** `strings.reduce((result, str, i) => result + str + (values[i] ?? ""), "")`. */
  function Interleave(strings: seq<string>, values: seq<Option<string>>): (r: string)
    ensures |strings| == 1 ==> r == strings[0] + ValueAt(values, 0)
  {
    if strings == [] then ""
    else Interleave(strings[..|strings| - 1], values) + strings[|strings| - 1] + ValueAt(values, |strings| - 1)
  }

  /** `replace(/\n/g, " ")`. */
  function NewlinesToSpaces(s: string): (r: string)
    ensures |r| == |s| && '\n' !in r
    ensures forall k :: 0 <= k < |s| ==> r[k] == (if s[k] == '\n' then ' ' else s[k])
  {
    seq(|s|, k requires 0 <= k < |s| => if s[k] == '\n' then ' ' else s[k])
  }

  /** Whitespace at `k` and at `k + 1`. */
  predicate DoubleSpaceAt(s: string, k: int) {
    0 <= k < |s| - 1 && IsWhitespace(s[k]) && IsWhitespace(s[k + 1])
  }

  /** No whitespace but plain spaces, and never two in a row. */
  predicate SingleSpaced(s: string) {
    && (forall k :: 0 <= k < |s| && IsWhitespace(s[k]) ==> s[k] == ' ')
    && (forall k :: 0 <= k < |s| ==> !DoubleSpaceAt(s, k))
  }

  /** Neither starts nor ends with whitespace. */
  predicate Trimmed(s: string) {
    s == [] || (!IsWhitespace(s[0]) && !IsWhitespace(s[|s| - 1]))
  }

  /** A character put in front of single-spaced text keeps it so, unless
      both it and the text's first character are whitespace. */
  lemma ConsSingleSpaced(c: char, t: string)
    requires SingleSpaced(t) && (IsWhitespace(c) ==> c == ' ')
    requires t == [] || !IsWhitespace(c) || !IsWhitespace(t[0])
    ensures SingleSpaced([c] + t)
  {
    var s := [c] + t;
    forall k | 0 <= k < |s| ensures !DoubleSpaceAt(s, k) {
      if k > 0 {
        assert !DoubleSpaceAt(t, k - 1);
      }
    }
  }

  /** A word: non-empty text without whitespace. */
  predicate IsWord(w: string) {
    w != [] && forall k :: 0 <= k < |w| ==> !IsWhitespace(w[k])
  }

  /** The maximal runs of non-whitespace characters of `s`, in order. */
  function Words(s: string): (w: seq<string>)
    ensures forall k :: 0 <= k < |w| ==> IsWord(w[k])
    ensures s != [] && !IsWhitespace(s[0]) ==> |w| > 0
    decreases |s|
  {
    if s == [] then []
    else if IsWhitespace(s[0]) then Words(s[1..])
    else
      var rest := Words(s[1..]);
      if |s| == 1 || IsWhitespace(s[1]) then [[s[0]]] + rest
      else [[s[0]] + rest[0]] + rest[1..]
  }

  /** The words joined by single spaces: `words.join(" ")`. */
  function Unwords(w: seq<string>): string {
    if w == [] then "" else if |w| == 1 then w[0] else w[0] + " " + Unwords(w[1..])
  }

  /** Leading whitespace does not change the words. */
  lemma {:induction false} WordsSkipWhitespace(s: string, n: nat)
    requires n <= |s| && forall k :: 0 <= k < n ==> IsWhitespace(s[k])
    ensures Words(s[n..]) == Words(s)
  {
    if n > 0 {
      WordsSkipWhitespace(s[1..], n - 1);
      assert s[1..][n - 1..] == s[n..];
    }
  }

  /** Trailing whitespace does not change the words. */
  lemma {:induction false} WordsDropTrailing(s: string, m: nat)
    requires m <= |s| && forall k :: m <= k < |s| ==> IsWhitespace(s[k])
    ensures Words(s[..m]) == Words(s)
    decreases |s|
  {
    if m == 0 {
      WordsSkipWhitespace(s, |s|);
      assert s[|s|..] == [] && s[..0] == [];
    } else {
      WordsDropTrailing(s[1..], m - 1);
      assert s[..m][1..] == s[1..][..m - 1];
      assert s[..m][0] == s[0];
      if m > 1 {
        assert s[..m][1] == s[1];
      }
    }
  }

  function Last(s: string): char
    requires s != []
  {
    s[|s| - 1]
  }

  lemma LastOfCons(c: char, t: string)
    ensures Last([c] + t) == if t == [] then c else Last(t)
  {
  }

  lemma LastOfSuffix(s: string, n: nat)
    requires n < |s|
    ensures Last(s[n..]) == Last(s)
  {
  }

  /** A space in front adds no word. */
  lemma WordsConsSpace(t: string)
    ensures Words(" " + t) == Words(t)
  {
    assert (" " + t)[1..] == t;
  }

  /** A non-whitespace character in front of two texts with the same words
      and the same start gives the same words. */
  lemma WordsConsChar(c: char, t: string, u: string)
    requires !IsWhitespace(c) && Words(t) == Words(u)
    requires (t == [] <==> u == []) && (t != [] ==> (IsWhitespace(t[0]) <==> IsWhitespace(u[0])))
    ensures Words([c] + t) == Words([c] + u)
  {
    assert ([c] + t)[1..] == t && ([c] + u)[1..] == u;
  }

  /** `replace(/\s+/g, " ")`: each run of whitespace becomes one space, so
      the words survive in order, single-spaced, and the text starts and ends
      with whitespace exactly when the input does. */
  function CollapseWhitespace(s: string): (r: string)
    ensures SingleSpaced(r)
    ensures r == [] <==> s == []
    ensures r != [] ==> (IsWhitespace(r[0]) <==> IsWhitespace(s[0]))
    ensures Words(r) == Words(s)
    decreases |s|
  {
    if s == [] then []
    else if IsWhitespace(s[0]) then
      var n := LeadingWhitespace(s);
      assert n >= 1 by {
        assert TrimStart(s) == TrimStart(s[1..]);
      }
      var t := CollapseWhitespace(s[n..]);
      ConsSingleSpaced(' ', t);
      WordsSkipWhitespace(s, n);
      WordsConsSpace(t);
      " " + t
    else
      var t := CollapseWhitespace(s[1..]);
      ConsSingleSpaced(s[0], t);
      WordsConsChar(s[0], t, s[1..]);
      assert [s[0]] + s[1..] == s;
      [s[0]] + t
  }

  /** The collapsed text ends with whitespace exactly when the input does. */
  lemma {:induction false} CollapseKeepsEnd(s: string)
    requires s != []
    ensures IsWhitespace(Last(CollapseWhitespace(s))) <==> IsWhitespace(Last(s))
    decreases |s|
  {
    var r := CollapseWhitespace(s);
    if IsWhitespace(s[0]) {
      var n := LeadingWhitespace(s);
      var t := CollapseWhitespace(s[n..]);
      assert r == " " + t;
      LastOfCons(' ', t);
      if t == [] {
        assert s[n..] == [] && IsWhitespace(s[|s| - 1]);
      } else {
        CollapseKeepsEnd(s[n..]);
        LastOfSuffix(s, n);
      }
    } else {
      var t := CollapseWhitespace(s[1..]);
      assert r == [s[0]] + t;
      LastOfCons(s[0], t);
      if t != [] {
        CollapseKeepsEnd(s[1..]);
        LastOfSuffix(s, 1);
      }
    }
  }

  /** A slice of single-spaced text is single-spaced. */
  lemma SingleSpacedSlice(s: string, a: nat, b: nat, t: string)
    requires a <= b <= |s| && SingleSpaced(s) && t == s[a..b]
    ensures SingleSpaced(t)
  {
    assert forall k :: 0 <= k < b - a ==> t[k] == s[a + k];
    forall k | 0 <= k < b - a ensures !DoubleSpaceAt(t, k) {
      assert !DoubleSpaceAt(s, a + k);
    }
  }

  /** Single-spaced text holds no line feed. */
  lemma SingleSpacedNoLineFeed(s: string)
    requires SingleSpaced(s)
    ensures '\n' !in s
  {
    if '\n' in s {
      var k :| 0 <= k < |s| && s[k] == '\n';
      assert IsWhitespace(s[k]);
    }
  }

  /** Turning line feeds into spaces keeps the words. */
  lemma {:induction false} WordsNewlinesToSpaces(s: string)
    ensures Words(NewlinesToSpaces(s)) == Words(s)
    decreases |s|
  {
    if s != [] {
      var m := NewlinesToSpaces(s);
      WordsNewlinesToSpaces(s[1..]);
      assert m[1..] == NewlinesToSpaces(s[1..]);
      if |s| > 1 {
        assert m[1] == NewlinesToSpaces(s[1..])[0];
      }
    }
  }

  /** Trimming keeps the words. */
  lemma WordsTrim(c: string)
    ensures Words(Trim(c)) == Words(c)
  {
    var a := LeadingWhitespace(c);
    var r := Trim(c);
    WordsSkipWhitespace(c, a);
    WordsDropTrailing(c[a..], |r|);
    assert c[a..][..|r|] == r;
  }

  /** The whole normalisation: line feeds to spaces, whitespace runs to one
      space, then trimmed. The words of the input survive in order, joined by
      single spaces. */
  function Normalise(s: string): (r: string)
    ensures SingleSpaced(r) && '\n' !in r
    ensures Trimmed(r)
    ensures Words(r) == Words(s)
  {
    var c := CollapseWhitespace(NewlinesToSpaces(s));
    TrimSingleSpaced(c);
    WordsNewlinesToSpaces(s);
    WordsTrim(c);
    Trim(c)
  }

  /** Trimmed single-spaced text stays single-spaced and holds no line feed. */
  lemma TrimSingleSpaced(c: string)
    requires SingleSpaced(c)
    ensures SingleSpaced(Trim(c)) && '\n' !in Trim(c)
  {
    var a := LeadingWhitespace(c);
    var r := Trim(c);
    SingleSpacedSlice(c, a, a + |r|, r);
    SingleSpacedNoLineFeed(r);
  }

  /** Trimmed single-spaced text is its words joined by single spaces. */
  lemma {:induction false} SingleSpacedIsUnwords(r: string)
    requires SingleSpaced(r) && Trimmed(r)
    ensures r == Unwords(Words(r))
    decreases |r|
  {
    if |r| > 1 {
      if IsWhitespace(r[1]) {
        assert !DoubleSpaceAt(r, 1);
        assert r[2..|r|] == r[2..];
        SingleSpacedSlice(r, 2, |r|, r[2..]);
        SingleSpacedIsUnwords(r[2..]);
        UnwordsSpaceStep(r);
      } else {
        assert r[1..|r|] == r[1..];
        SingleSpacedSlice(r, 1, |r|, r[1..]);
        SingleSpacedIsUnwords(r[1..]);
        UnwordsCharStep(r);
      }
    }
  }

  /** A word, one space and more words are joined back as they were. */
  lemma UnwordsSpaceStep(r: string)
    requires |r| > 2 && !IsWhitespace(r[0]) && r[1] == ' ' && !IsWhitespace(r[2])
    requires r[2..] == Unwords(Words(r[2..]))
    ensures r == Unwords(Words(r))
  {
    var rest := r[2..];
    assert Words(r[1..]) == Words(rest) by {
      assert r[1..][1..] == rest;
    }
    assert Words(r) == [[r[0]]] + Words(rest);
    assert r == [r[0]] + " " + rest;
  }

  /** A character in front of a word joins that word. */
  lemma UnwordsCharStep(r: string)
    requires |r| > 1 && !IsWhitespace(r[0]) && !IsWhitespace(r[1])
    requires r[1..] == Unwords(Words(r[1..]))
    ensures r == Unwords(Words(r))
  {
    var w := Words(r[1..]);
    assert Words(r) == [[r[0]] + w[0]] + w[1..];
    UnwordsCons(r[0], w);
    assert r == [r[0]] + r[1..];
  }

  /** What follows the first word once the words are joined. */
  function UnwordsAfter(rest: seq<string>): string {
    if rest == [] then "" else " " + Unwords(rest)
  }

  lemma UnwordsFront(w: seq<string>)
    requires |w| > 0
    ensures Unwords(w) == w[0] + UnwordsAfter(w[1..])
  {
  }

  lemma UnwordsCons(c: char, w: seq<string>)
    requires |w| > 0
    ensures Unwords([[c] + w[0]] + w[1..]) == [c] + Unwords(w)
  {
    var v := [[c] + w[0]] + w[1..];
    var after := UnwordsAfter(w[1..]);
    assert v[0] == [c] + w[0] && v[1..] == w[1..];
    UnwordsFront(v);
    UnwordsFront(w);
    AppendAssociates([c], w[0], after);
  }


  /** The tag's whitespace normalisation of any text is the text's words
      joined by single spaces. */
  lemma NormaliseIsUnwords(s: string)
    ensures Normalise(s) == Unwords(Words(s))
  {
    var r := Normalise(s);
    SingleSpacedIsUnwords(r);
    assert Words(r) == Words(s);
  }

  /** The UTF-16 code units a character takes: two outside the Basic
      Multilingual Plane, one inside it. */
  function CodeUnits(c: char): nat {
    if c as int > 0xFFFF then 2 else 1
  }

  /** `s.length`: the UTF-16 code units of `s`. */
  function Utf16Length(s: string): (n: nat)
    ensures |s| <= n <= 2 * |s|
  {
    if s == [] then 0 else CodeUnits(s[0]) + Utf16Length(s[1..])
  }

  /** How many characters from the front of `s` fit in `budget` code units. */
  function FittingPrefix(s: string, budget: int): (n: nat)
    ensures n <= |s|
    ensures budget <= 0 ==> n == 0
    ensures n == 0 || Utf16Length(s[..n]) <= budget
    ensures n < |s| ==> Utf16Length(s[..n]) + CodeUnits(s[n]) > budget
    ensures Utf16Length(s) <= budget ==> n == |s|
    decreases |s|
  {
    if s == [] || CodeUnits(s[0]) > budget then 0
    else
      var k := FittingPrefix(s[1..], budget - CodeUnits(s[0]));
      assert s[..k + 1][1..] == s[1..][..k];
      assert k < |s| - 1 ==> s[k + 1] == s[1..][k];
      1 + k
  }

  /** `input.substring(0, max)`, which counts UTF-16 code units: the longest
      prefix whose code units fit in `max`. NaN and negative lengths count
      as 0, and a length beyond the end as the end. It never fails. */
  function Truncate(input: string, max: Num): (r: string)
    ensures r <= input
    ensures max.None? || max.value <= 0 ==> r == ""
    ensures max.Some? && max.value > 0 ==> Utf16Length(r) <= max.value
    ensures max.Some? && Utf16Length(input) <= max.value ==> r == input
    ensures max.Some? && |r| < |input| ==> Utf16Length(r) + CodeUnits(input[|r|]) > max.value
  {
    if max.None? then "" else input[..FittingPrefix(input, max.value)]
  }

  /** A truncated single-spaced text stays single-spaced. */
  lemma TruncateSingleSpaced(n: string, maxLength: Num)
    requires SingleSpaced(n)
    ensures SingleSpaced(Truncate(n, maxLength)) && '\n' !in Truncate(n, maxLength)
  {
    var r := Truncate(n, maxLength);
    assert n[0..|r|] == r;
    SingleSpacedSlice(n, 0, |r|, r);
    SingleSpacedNoLineFeed(r);
  }

  /** The text the patterns are tried on. */
  function TagInput(strings: seq<string>, values: seq<Option<string>>, maxLength: Num): (r: string)
    ensures SingleSpaced(r) && '\n' !in r
    ensures maxLength.Some? && maxLength.value > 0 ==> |r| <= maxLength.value
    ensures r <= Unwords(Words(Interleave(strings, values)))
    ensures maxLength.Some? && maxLength.value > 0 ==> Utf16Length(r) <= maxLength.value
    ensures maxLength.Some? && maxLength.value >= Utf16Length(Unwords(Words(Interleave(strings, values)))) ==>
              r == Unwords(Words(Interleave(strings, values)))
  {
    var n := Normalise(Interleave(strings, values));
    TruncateSingleSpaced(n, maxLength);
    NormaliseIsUnwords(Interleave(strings, values));
    Truncate(n, maxLength)
  }

  /** `[a-zA-Z0-9\-_]`. */
  predicate IsNameChar(c: char) {
    'a' <= c <= 'z' || 'A' <= c <= 'Z' || '0' <= c <= '9' || c == '-' || c == '_'
  }

  /** The characters `.` does not match. */
  predicate IsLineTerminator(c: char) {
    c == '\n' || c == '\r' || c == '\U{2028}' || c == '\U{2029}'
  }

  predicate NoLineTerminator(s: string) {
    forall k :: 0 <= k < |s| ==> !IsLineTerminator(s[k])
  }

  /** End of the run of name characters starting at `i`. */
  function NameEnd(s: string, i: nat): (j: nat)
    requires i <= |s|
    ensures i <= j <= |s| && (j == |s| || !IsNameChar(s[j]))
    ensures forall k :: i <= k < j ==> IsNameChar(s[k])
    decreases |s| - i
  {
    if i == |s| || !IsNameChar(s[i]) then i else NameEnd(s, i + 1)
  }

  /** End of the run of whitespace starting at `i`. */
  function SpaceEnd(s: string, i: nat): (j: nat)
    requires i <= |s|
    ensures i <= j <= |s| && (j == |s| || !IsWhitespace(s[j]))
    ensures forall k :: i <= k < j ==> IsWhitespace(s[k])
    decreases |s| - i
  {
    if i == |s| || !IsWhitespace(s[i]) then i else SpaceEnd(s, i + 1)
  }

  /** `^label\s+` followed by a name run: where the name starts and ends. */
  predicate LabelKeyword(s: string) {
    |s| > 5 && s[..5] == "label" && IsWhitespace(s[5])
  }

  /** A body `{...}` closing the text: `\{(?<zpl>.*)}$` with the brace at `m`. */
  predicate BodyAt(s: string, m: nat) {
    m + 1 < |s| && s[m] == '{' && s[|s| - 1] == '}' && NoLineTerminator(s[m + 1..|s| - 1])
  }

  /** The closing parenthesis of the full form can be at `k`: the
      parameters `s[j + 1..k]` hold no line terminator, and `\s*` then a
      body follow. */
  predicate CloseParenAt(s: string, j: nat, k: nat) {
    j < k < |s| && s[k] == ')' && NoLineTerminator(s[j + 1..k]) && BodyAt(s, SpaceEnd(s, k + 1))
  }

  /** The greedy `(?<params>.*)`: the last place below `hi` where the rest of
      the pattern matches. */
  function LastCloseParen(s: string, j: nat, hi: nat): (k: Option<nat>)
    requires hi <= |s|
    ensures k.Some? ==> j < k.value < hi && CloseParenAt(s, j, k.value)
    ensures k.Some? ==> forall q :: k.value < q < hi ==> !CloseParenAt(s, j, q)
    ensures k.None? ==> forall q :: j < q < hi ==> !CloseParenAt(s, j, q)
    decreases hi
  {
    if hi <= j + 1 then None
    else if CloseParenAt(s, j, hi - 1) then Some(hi - 1)
    else LastCloseParen(s, j, hi - 1)
  }

  /** `fullPattern`: name, parameter text and body, when it matches. */
  function MatchFull(s: string): (r: Option<(string, string, string)>)
    ensures r.Some? ==> LabelKeyword(s) && s[|s| - 1] == '}'
    ensures r.Some? ==> |r.value.0| > 0 && forall k :: 0 <= k < |r.value.0| ==> IsNameChar(r.value.0[k])
  {
    if !LabelKeyword(s) then None
    else
      var i := SpaceEnd(s, 5);
      var j := NameEnd(s, i);
      if j == i || j == |s| || s[j] != '(' then None
      else match LastCloseParen(s, j, |s|)
        case None => None
        case Some(k) =>
          var m := SpaceEnd(s, k + 1);
          Some((s[i..j], s[j + 1..k], s[m + 1..|s| - 1]))
  }

  /** `shortPattern`: the optional name and the body, when it matches. */
  function MatchShort(s: string): (r: Option<(Option<string>, string)>)
    ensures r.Some? ==> LabelKeyword(s) && s[|s| - 1] == '}'
    ensures r.Some? && r.value.0.Some? ==> |r.value.0.value| > 0
  {
    if !LabelKeyword(s) then None
    else
      var i := SpaceEnd(s, 5);
      var j := NameEnd(s, i);
      var m := SpaceEnd(s, j);
      if BodyAt(s, m) then Some((if j > i then Some(s[i..j]) else None, s[m + 1..|s| - 1])) else None
  }

  /** The shape the tag recognises. */
  datatype Shape =
    | FullForm(name: string, params: string, body: string)
    | ShortForm(givenName: Option<string>, body: string)
    | PlainForm

  /** The shapes are tried in order: full, then short, then plain. */
  function ShapeOf(s: string): (sh: Shape)
    ensures sh.FullForm? <==> MatchFull(s).Some?
    ensures sh.ShortForm? <==> MatchFull(s).None? && MatchShort(s).Some?
    ensures sh.PlainForm? <==> MatchFull(s).None? && MatchShort(s).None?
    ensures !LabelKeyword(s) ==> sh.PlainForm?
  {
    match MatchFull(s)
    case Some((name, params, body)) => FullForm(name, params, body)
    case None =>
      match MatchShort(s)
      case Some((name, body)) => ShortForm(name, body)
      case None => PlainForm
  }

  /** `value.trim()` on the missing half of a segment without `:` throws a
      TypeError; the segment is recorded. */
  datatype TagError = MissingType(segment: string)

  /** `["string", "number", "boolean"].includes(t) ? t : "string"`. */
  function TypeNamed(t: string): (vt: VariableType)
    ensures t == "number" <==> vt == NumberType
    ensures t == "boolean" <==> vt == BooleanType
  {
    if t == "number" then NumberType else if t == "boolean" then BooleanType else StringType
  }

  /** A segment that throws: non-empty, with no `:`. */
  predicate LacksType(segment: string) {
    segment != "" && ':' !in segment
  }

  /** A segment that declares a variable: non-empty, with a `:`. */
  predicate Typed(segment: string) {
    segment != "" && ':' in segment
  }

  /** The key a segment declares: the text before its first `:`, trimmed. */
  function SegmentKey(segment: string): string {
    Trim(Split(segment, ':')[0])
  }

  /** The variable a typed segment declares: named by its key, with the type
      the text between its first and second `:` names, and an empty value. */
  function SegmentVariable(segment: string): Variable
    requires ':' in segment
  {
    SplitAtSeparator(segment, ':');
    Variable(SegmentKey(segment), TypeNamed(Trim(Split(segment, ':')[1])), "")
  }

  /** One step of the parameter `reduce`: a typed segment sets its key to its
      variable, keeping every other entry; an empty one changes nothing. */
  function DeclareOne(m: VariableMap, segment: string): (r: Result<VariableMap, TagError>)
    ensures r.Failure? <==> LacksType(segment)
    ensures r.Failure? ==> r.error == MissingType(segment)
    ensures r.Success? ==> |r.value| <= |m| + 1
    ensures segment == "" ==> r == Success(m)
    ensures Typed(segment) ==> r.Success? && (SegmentKey(segment), SegmentVariable(segment)) in r.value
    ensures r.Success? ==> KeepsOthers(m, r.value, SegmentKey(segment)) && AddsOnly(m, r.value, segment)
  {
    if segment == "" then Success(m)
    else if ':' !in segment then Failure(MissingType(segment))
    else
      var key := SegmentKey(segment);
      var v := SegmentVariable(segment);
      var r := MapSet(m, key, v);
      MapSetThenGet(m, key, v);
      MapSetKeeps(m, key, v);
      Success(r)
  }

  /** Every entry of `m` under a key other than `key` is still in `r`. */
  predicate KeepsOthers(m: VariableMap, r: VariableMap, key: string) {
    forall e :: e in m && e.0 != key ==> e in r
  }

  /** `r` holds only entries of `m` and the variable `segment` declares. */
  predicate AddsOnly(m: VariableMap, r: VariableMap, segment: string) {
    forall e :: e in r ==> e in m || (Typed(segment) && e == (SegmentKey(segment), SegmentVariable(segment)))
  }

  /** `set` keeps every entry under another key and adds only the new one. */
  lemma MapSetKeeps(m: VariableMap, key: string, v: Variable)
    ensures forall e :: e in m && e.0 != key ==> e in MapSet(m, key, v)
    ensures forall e :: e in MapSet(m, key, v) ==> e in m || e == (key, v)
  {
    var r := MapSet(m, key, v);
    forall e | e in m && e.0 != key ensures e in r {
      var k :| 0 <= k < |m| && m[k] == e;
      assert r[k] == e;
    }
    forall e | e in r ensures e in m || e == (key, v) {
      var k :| 0 <= k < |r| && r[k] == e;
      if k < |m| && m[k].0 != key {
        assert r[k] == m[k];
      }
    }
  }

  /** The parameter `reduce` over the segments, in order; the first
      segment that throws ends it. */
  function Declare(segments: seq<string>): (r: Result<VariableMap, TagError>)
    ensures r.Success? ==> |r.value| <= |segments|
    ensures r.Failure? ==> r.error.segment in segments && LacksType(r.error.segment)
  {
    if segments == [] then Success([])
    else
      var before := Declare(segments[..|segments| - 1]);
      assert before.Failure? ==> before.error.segment in segments by {
        if before.Failure? {
          var k :| 0 <= k < |segments| - 1 && segments[..|segments| - 1][k] == before.error.segment;
          assert segments[k] == before.error.segment;
        }
      }
      if before.Failure? then before else DeclareOne(before.value, segments[|segments| - 1])
  }

  /** Some segment of `segments` lacks its type. */
  predicate SomeLacksType(segments: seq<string>) {
    exists k :: 0 <= k < |segments| && LacksType(segments[k])
  }

  lemma SomeLacksTypeSnoc(segments: seq<string>, i: nat)
    requires i < |segments|
    ensures SomeLacksType(segments[..i + 1]) <==> SomeLacksType(segments[..i]) || LacksType(segments[i])
  {
    var front, next := segments[..i], segments[..i + 1];
    if SomeLacksType(front) {
      var k :| 0 <= k < |front| && LacksType(front[k]);
      assert next[k] == front[k];
    }
    if LacksType(segments[i]) {
      assert next[i] == segments[i];
    }
    if SomeLacksType(next) {
      var k :| 0 <= k < |next| && LacksType(next[k]);
      if k < i {
        assert front[k] == next[k];
      }
    }
  }

  /** The `reduce` over one more segment. */
  lemma DeclareSnoc(segments: seq<string>, i: nat)
    requires i < |segments|
    ensures Declare(segments[..i + 1]) ==
      if Declare(segments[..i]).Failure? then Declare(segments[..i])
      else DeclareOne(Declare(segments[..i]).value, segments[i])
  {
    assert segments[..i + 1][..i] == segments[..i];
  }

  /** The declarations fail exactly when some segment lacks its type. */
  lemma {:induction false} DeclareFails(segments: seq<string>)
    ensures Declare(segments).Failure? <==> exists k :: 0 <= k < |segments| && LacksType(segments[k])
  {
    DeclarePrefixFails(segments, |segments|);
    assert segments[..|segments|] == segments;
  }

  lemma {:induction false} DeclarePrefixFails(segments: seq<string>, i: nat)
    requires i <= |segments|
    ensures Declare(segments[..i]).Failure? <==> SomeLacksType(segments[..i])
  {
    if i > 0 {
      var j := i - 1;
      DeclarePrefixFails(segments, j);
      DeclareSnoc(segments, j);
      SomeLacksTypeSnoc(segments, j);
      var before := Declare(segments[..j]);
      if before.Success? {
        assert Declare(segments[..i]) == DeclareOne(before.value, segments[j]);
        assert Declare(segments[..i]).Failure? <==> LacksType(segments[j]);
      }
    }
  }

  /** Every declared variable is named by its key, holds an empty value,
      and no key is declared twice. */
  predicate Declared(m: VariableMap) {
    DistinctKeys(m) && forall k :: 0 <= k < |m| ==> m[k].1.name == m[k].0 && m[k].1.value == ""
  }

  lemma {:induction false} DeclareWellFormed(segments: seq<string>)
    ensures Declare(segments).Success? ==> Declared(Declare(segments).value)
  {
    if segments != [] {
      DeclareWellFormed(segments[..|segments| - 1]);
      var before := Declare(segments[..|segments| - 1]);
      if before.Success? {
        DeclareOneWellFormed(before.value, segments[|segments| - 1]);
      }
    }
  }

  lemma DeclareOneWellFormed(m: VariableMap, segment: string)
    requires Declared(m)
    ensures DeclareOne(m, segment).Success? ==> Declared(DeclareOne(m, segment).value)
  {
    if Typed(segment) {
      MapSetDeclared(m, SegmentKey(segment), SegmentVariable(segment));
    }
  }

  lemma MapSetDeclared(m: VariableMap, name: string, v: Variable)
    requires Declared(m) && v.name == name && v.value == ""
    ensures Declared(MapSet(m, name, v))
  {
    var r := MapSet(m, name, v);
    MapSetDistinct(m, name, v);
    forall k | 0 <= k < |r|
      ensures r[k].1.name == r[k].0 && r[k].1.value == ""
    {
      if k < |m| && m[k].0 != name {
        assert r[k] == m[k];
      } else {
        assert r[k] == (name, v);
      }
    }
  }

  /** Segment `i` declares a key that no later segment declares again. */
  predicate LastDeclaring(segments: seq<string>, i: nat)
    requires i < |segments|
  {
    Typed(segments[i]) &&
    forall j :: i < j < |segments| && Typed(segments[j]) ==> SegmentKey(segments[j]) != SegmentKey(segments[i])
  }

  /** What the `reduce` declares: each key's variable from the last segment
      that declares it, and no key that no segment declares. */
  lemma DeclareContents(segments: seq<string>)
    requires Declare(segments).Success?
    ensures forall i :: 0 <= i < |segments| && LastDeclaring(segments, i) ==>
      (SegmentKey(segments[i]), SegmentVariable(segments[i])) in Declare(segments).value
    ensures forall e :: e in Declare(segments).value ==>
      exists i :: 0 <= i < |segments| && Typed(segments[i]) && SegmentKey(segments[i]) == e.0
  {
    forall i | 0 <= i < |segments| && LastDeclaring(segments, i)
      ensures (SegmentKey(segments[i]), SegmentVariable(segments[i])) in Declare(segments).value
    {
      DeclareKeepsLast(segments, i);
    }
    DeclareOnlyDeclared(segments);
  }

  /** The `reduce` over one more segment, when it succeeds. */
  lemma DeclareLast(segments: seq<string>)
    requires segments != [] && Declare(segments).Success?
    ensures Declare(segments[..|segments| - 1]).Success?
    ensures Declare(segments) == DeclareOne(Declare(segments[..|segments| - 1]).value, segments[|segments| - 1])
  {
  }

  /** The last segment to declare a key sets it to its variable. */
  lemma {:induction false} DeclareKeepsLast(segments: seq<string>, i: nat)
    requires i < |segments| && LastDeclaring(segments, i) && Declare(segments).Success?
    ensures (SegmentKey(segments[i]), SegmentVariable(segments[i])) in Declare(segments).value
    decreases |segments|
  {
    var n := |segments| - 1;
    DeclareLast(segments);
    var m := Declare(segments[..n]).value;
    if i < n {
      LastDeclaringFront(segments, i);
      DeclareKeepsLast(segments[..n], i);
      assert segments[..n][i] == segments[i];
      KeptByLater(m, segments[n], segments[i]);
    }
  }

  /** Some typed segment declares `key`. */
  predicate DeclaresKey(segments: seq<string>, key: string) {
    exists i :: 0 <= i < |segments| && Typed(segments[i]) && SegmentKey(segments[i]) == key
  }

  lemma DeclaresKeyFront(segments: seq<string>, key: string)
    requires segments != [] && DeclaresKey(segments[..|segments| - 1], key)
    ensures DeclaresKey(segments, key)
  {
    var front := segments[..|segments| - 1];
    var i :| 0 <= i < |front| && Typed(front[i]) && SegmentKey(front[i]) == key;
    assert segments[i] == front[i];
  }

  lemma DeclaresKeyLast(segments: seq<string>)
    requires segments != [] && Typed(segments[|segments| - 1])
    ensures DeclaresKey(segments, SegmentKey(segments[|segments| - 1]))
  {
  }

  /** Every declared key is the key of some typed segment. */
  lemma {:induction false} DeclareOnlyDeclared(segments: seq<string>)
    requires Declare(segments).Success?
    ensures forall e :: e in Declare(segments).value ==> DeclaresKey(segments, e.0)
  {
    if segments != [] {
      var n := |segments| - 1;
      var front, last := segments[..n], segments[n];
      DeclareLast(segments);
      DeclareOnlyDeclared(front);
      var m := Declare(front).value;
      var r := Declare(segments).value;
      assert AddsOnly(m, r, last);
      forall e | e in r
        ensures DeclaresKey(segments, e.0)
      {
        if e in m {
          DeclaresKeyFront(segments, e.0);
        } else {
          DeclaresKeyLast(segments);
        }
      }
    }
  }

  /** A segment that declares a key no later segment declares again does so
      in the segments before the last too. */
  lemma LastDeclaringFront(segments: seq<string>, i: nat)
    requires i < |segments| - 1 && LastDeclaring(segments, i)
    ensures LastDeclaring(segments[..|segments| - 1], i)
  {
    var front := segments[..|segments| - 1];
    forall j | i < j < |front| && Typed(front[j])
      ensures SegmentKey(front[j]) != SegmentKey(front[i])
    {
      assert front[j] == segments[j];
    }
  }

  /** A declaration survives a later segment that does not redeclare its key. */
  lemma KeptByLater(m: VariableMap, last: string, segment: string)
    requires Typed(segment) && (SegmentKey(segment), SegmentVariable(segment)) in m
    requires DeclareOne(m, last).Success?
    requires Typed(last) ==> SegmentKey(last) != SegmentKey(segment)
    ensures (SegmentKey(segment), SegmentVariable(segment)) in DeclareOne(m, last).value
  {
    if last != "" {
      assert KeepsOthers(m, DeclareOne(m, last).value, SegmentKey(last));
    }
  }

  /** `label Name(message: string)` declares one string variable named
      `message`, with an empty value. */
  lemma MessageDeclared()
    ensures Declare(Split("message: string", ',')) ==
      Success([("message", Variable("message", StringType, ""))])
  {
    var seg := "message: string";
    MessageOneSegment();
    DeclareSingle(seg);
    MessageVariable();
    DeclareOneFirst(seg);
  }

  /** A full-form tag whose parameters are `message: string` sets up exactly
      that variable. */
  lemma MessageTag(input: string)
    requires ShapeOf(input).FullForm? && ShapeOf(input).params == "message: string"
    ensures TagSpec(input) ==
      Success(TagOutcome(ShapeOf(input).body, ShapeOf(input).name, [("message", Variable("message", StringType, ""))]))
  {
    MessageDeclared();
  }

  lemma MessageOneSegment()
    ensures Split("message: string", ',') == ["message: string"]
  {
    SplitWithoutSeparator("message: string", ',');
  }

  lemma MessageVariable()
    ensures Typed("message: string")
    ensures SegmentKey("message: string") == "message"
    ensures SegmentVariable("message: string") == Variable("message", StringType, "")
  {
    MessageTyped();
    MessageSegment();
    StringTypeNamed();
    SegmentParts("message: string", "message", " string");
  }

  lemma MessageTyped()
    ensures Typed("message: string")
  {
    assert "message: string"[7] == ':';
  }

  /** A typed segment's key and variable, from its first two pieces. */
  lemma SegmentParts(segment: string, key: string, typeText: string)
    requires ':' in segment
    requires |Split(segment, ':')| >= 2 && Split(segment, ':')[0] == key && Split(segment, ':')[1] == typeText
    ensures SegmentKey(segment) == Trim(key)
    ensures SegmentVariable(segment) == Variable(Trim(key), TypeNamed(Trim(typeText)), "")
  {
  }

  /** `string` names the string type. */
  lemma StringTypeNamed()
    ensures TypeNamed("string") == StringType
  {
    assert "string"[0] != "number"[0];
    assert |"string"| != |"boolean"|;
  }

  /** The `reduce` over one segment is one step from the empty map. */
  lemma DeclareSingle(segment: string)
    ensures Declare([segment]) == DeclareOne([], segment)
  {
    assert [segment][..0] == [];
  }

  /** A typed segment declares its variable in the empty map. */
  lemma DeclareOneFirst(segment: string)
    requires Typed(segment)
    ensures DeclareOne([], segment) == Success([(SegmentKey(segment), SegmentVariable(segment))])
  {
    var empty: VariableMap := [];
    assert Keys(empty) == [];
  }

  lemma MessageSegment()
    ensures Split("message: string", ':') == ["message", " string"]
    ensures Trim("message") == "message" && Trim(" string") == "string"
  {
    MessageSplit();
    TrimUnchanged("message");
    SpaceStringTrim();
  }

  lemma MessageSplit()
    ensures Split("message: string", ':') == ["message", " string"]
  {
    assert "message: string" == "message" + [':'] + " string";
    assert ':' !in "message" && ':' !in " string";
    SplitTwo("message", " string", ':');
  }

  lemma SpaceStringTrim()
    ensures Trim(" string") == "string"
  {
    TrimLeadingSpace(" string");
    assert " string"[1..] == "string";
    StringTrim();
  }

  lemma StringTrim()
    ensures Trim("string") == "string"
  {
    TrimUnchanged("string");
  }

  /** Leading whitespace does not survive a trim. */
  lemma TrimLeadingSpace(s: string)
    requires s != [] && IsWhitespace(s[0])
    ensures Trim(s) == Trim(s[1..])
  {
  }

  /** `Name()` declares nothing. */
  lemma EmptyParamsDeclareNothing()
    ensures Declare(Split("", ',')) == Success([])
  {
    assert Split("", ',') == [""];
    assert [""][..0] == [];
  }

  /** A trailing comma followed by a space leaves the segment " ", which
      throws. */
  lemma TrailingCommaThrows(params: string)
    ensures Declare(Split(params + ", ", ',')).Failure?
  {
    var segments := Split(params + ", ", ',');
    SplitLast(params, " ", ',');
    assert params + ", " == params + [','] + " ";
    assert LacksType(segments[|segments| - 1]);
    DeclareFails(segments);
  }

  /** The label name, parser input and variables the tag sets up. */
  datatype TagOutcome = TagOutcome(source: string, name: string, variables: VariableMap)

  /** What `zpl` does with its (normalised, truncated) input. */
  function TagSpec(input: string): (r: Result<TagOutcome, TagError>)
    ensures ShapeOf(input).PlainForm? ==> r == Success(TagOutcome(input, "Label", []))
    ensures ShapeOf(input).ShortForm? ==>
      r == Success(TagOutcome(ShapeOf(input).body, ShapeOf(input).givenName.GetOr("Label"), []))
    ensures ShapeOf(input).FullForm? ==>
      (r.Failure? <==> Declare(Split(ShapeOf(input).params, ',')).Failure?) &&
      (r.Success? ==> r.value.name == ShapeOf(input).name && r.value.source == ShapeOf(input).body &&
                      r.value.variables == Declare(Split(ShapeOf(input).params, ',')).value)
  {
    match ShapeOf(input)
    case FullForm(name, params, body) =>
      var variables :- Declare(Split(params, ','));
      Success(TagOutcome(body, name, variables))
    case ShortForm(name, body) => Success(TagOutcome(body, name.GetOr("Label"), []))
    case PlainForm => Success(TagOutcome(input, "Label", []))
  }

  /** The declarations of a successful full form are well formed. */
  lemma TagVariablesDeclared(input: string)
    requires TagSpec(input).Success?
    ensures Declared(TagSpec(input).value.variables)
  {
    if ShapeOf(input).FullForm? {
      DeclareWellFormed(Split(ShapeOf(input).params, ','));
    }
  }

  /** The parameter `reduce` as the loop it is: the map is filled in place,
      segment by segment. */
  method DeclareVariables(params: string) returns (r: Result<VariableMap, TagError>)
    ensures r == Declare(Split(params, ','))
  {
    var segments := Split(params, ',');
    var m: VariableMap := [];
    var i := 0;
    while i < |segments|
      invariant 0 <= i <= |segments|
      invariant Declare(segments[..i]) == Success(m)
    {
      DeclareSnoc(segments, i);
      var p := segments[i];
      if p != "" {
        var halves := Split(p, ':');
        SplitWithoutSeparator(p, ':');
        if ':' in p {
          SplitAtSeparator(p, ':');
        }
        if |halves| < 2 {
          assert LacksType(p);
          DeclaredFailureSticks(segments, i + 1);
          assert segments[..|segments|] == segments;
          return Failure(MissingType(p));
        }
        var name := Trim(halves[0]);
        m := MapSet(m, name, Variable(name, TypeNamed(Trim(halves[1])), ""));
      }
      i := i + 1;
    }
    assert segments[..i] == segments;
    return Success(m);
  }

  /** Once the `reduce` has thrown, later segments change nothing. */
  lemma {:induction false} DeclaredFailureSticks(segments: seq<string>, i: nat)
    requires 1 <= i <= |segments| && Declare(segments[..i]).Failure?
    ensures Declare(segments) == Declare(segments[..i])
    decreases |segments| - i
  {
    if i < |segments| {
      assert segments[..i + 1][..i] == segments[..i];
      DeclaredFailureSticks(segments, i + 1);
    } else {
      assert segments[..i] == segments;
    }
  }

  /** `new ZPLParser(source)`, then the name and variables assigned. */
  method NamedParser(source: string, name: string, variables: VariableMap) returns (parser: ZplParser)
    ensures fresh(parser) && fresh(parser.zplLabel)
    ensures parser.zplInput == NormaliseInput(source) && parser.State() == InitialState
    ensures parser.name == name && parser.variables == variables
  {
    parser := new ZplParser(source);
    ghost var st := parser.State();
    parser.name := name;
    parser.variables := variables;
    assert parser.State() == st;
  }

  /** `zpl`: a new parser over the recognised body (or the whole input),
      named and given its variables as the shape says. */
  method Zpl(strings: seq<string>, values: seq<Option<string>>, config: ZplJsConfig)
    returns (r: Result<ZplParser, TagError>)
    ensures var spec := TagSpec(TagInput(strings, values, config.zplMaxLengthValue));
      (r.Failure? <==> spec.Failure?) &&
      (r.Failure? ==> r.error == spec.error) &&
      (r.Success? ==> fresh(r.value) && fresh(r.value.zplLabel) &&
                      r.value.zplInput == NormaliseInput(spec.value.source) &&
                      r.value.name == spec.value.name && r.value.variables == spec.value.variables &&
                      r.value.State() == InitialState)
  {
    var input := Normalise(Interleave(strings, values));
    var maxLength := config.ZplMaxLength();
    input := Truncate(input, maxLength);
    assert input == TagInput(strings, values, config.zplMaxLengthValue);
    match ShapeOf(input)
    case FullForm(name, params, body) =>
      var variables := DeclareVariables(params);
      if variables.Failure? {
        return Failure(variables.error);
      }
      var parser := NamedParser(body, name, variables.value);
      return Success(parser);
    case ShortForm(name, body) =>
      var parser := NamedParser(body, name.GetOr("Label"), []);
      return Success(parser);
    case PlainForm =>
      var parser := NamedParser(input, "Label", []);
      return Success(parser);
  }
}
