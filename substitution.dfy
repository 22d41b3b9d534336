/** Template output of `ZPLParser.produce` (packages/sdk/src/core/parser.ts):
    each variable's name is replaced by its value wherever it sits inside a
    field's data, which is what the global pattern
    `(?<=\^FD[a-zA-Z0-9]*)NAME(?=[a-zA-Z0-9]*\^FS)` matches for an
    alphanumeric NAME. The scan is written out: leftmost first, matches do
    not overlap, and both look-arounds read the string before replacement. */
module Substitution {
  import opened Wrappers
  import opened Types

  predicate IsAlnum(c: char) { 'a' <= c <= 'z' || 'A' <= c <= 'Z' || '0' <= c <= '9' }

  predicate AllAlnum(s: string) { forall k :: 0 <= k < |s| ==> IsAlnum(s[k]) }

  /** A variable the pattern treats literally: a non-empty alphanumeric name,
      and a value without `$` (which `replace` would read as a pattern). */
  predicate PlainVariable(v: Variable) {
    |v.name| > 0 && AllAlnum(v.name) && '$' !in v.value
  }

  /** Where the alphanumeric run that ends at `p` begins. */
  function RunStart(s: string, p: nat): (q: nat)
    requires p <= |s|
    ensures q <= p && AllAlnum(s[q..p]) && (q == 0 || !IsAlnum(s[q - 1]))
    decreases p
  {
    if p == 0 || !IsAlnum(s[p - 1]) then p
    else
      var q := RunStart(s, p - 1);
      assert s[q..p] == s[q..p - 1] + [s[p - 1]];
      q
  }

  /** Where the alphanumeric run that begins at `e` ends. */
  function RunEnd(s: string, e: nat): (r: nat)
    requires e <= |s|
    ensures e <= r <= |s| && AllAlnum(s[e..r]) && (r == |s| || !IsAlnum(s[r]))
    decreases |s| - e
  {
    if e == |s| || !IsAlnum(s[e]) then e
    else
      var r := RunEnd(s, e + 1);
      assert s[e..r] == [s[e]] + s[e + 1..r];
      r
  }

  /** The look-behind `(?<=\^FD[a-zA-Z0-9]*)` holds at `p`: the alphanumeric
      run ending at `p` starts with `FD` right after a `^`. */
  predicate FdBefore(s: string, p: nat)
    requires p <= |s|
  {
    var q := RunStart(s, p);
    1 <= q && q + 2 <= p && s[q - 1] == '^' && s[q] == 'F' && s[q + 1] == 'D'
  }

  /** The look-ahead `(?=[a-zA-Z0-9]*\^FS)` holds at `e`: the alphanumeric
      run starting at `e` is followed by `^FS`. */
  predicate FsAfter(s: string, e: nat)
    requires e <= |s|
  {
    var r := RunEnd(s, e);
    r + 3 <= |s| && s[r..r + 3] == "^FS"
  }

  /** `^FD` ends at `k` and only alphanumerics follow it up to `p`. */
  predicate FdThenAlnum(s: string, k: nat, p: nat) {
    3 <= k <= p <= |s| && s[k - 3..k] == "^FD" && AllAlnum(s[k..p])
  }

  /** Only alphanumerics from `e` up to `r`, where `^FS` begins. */
  predicate AlnumThenFs(s: string, e: nat, r: nat) {
    e <= r && r + 3 <= |s| && AllAlnum(s[e..r]) && s[r..r + 3] == "^FS"
  }

  /** The look-behind as the pattern states it. */
  lemma FdBeforeMeaning(s: string, p: nat)
    requires p <= |s|
    ensures FdBefore(s, p) <==> exists k :: FdThenAlnum(s, k, p)
  {
    if FdBefore(s, p) {
      FdThenAlnumAtRun(s, p);
    }
    if k: nat :| FdThenAlnum(s, k, p) {
      FdBeforeAt(s, k, p);
    }
  }

  /** When the look-behind holds, `^FD` ends two characters into the run. */
  lemma FdThenAlnumAtRun(s: string, p: nat)
    requires p <= |s| && FdBefore(s, p)
    ensures FdThenAlnum(s, RunStart(s, p) + 2, p)
  {
    var q := RunStart(s, p);
    assert s[q + 2..p] == s[q..p][2..];
    assert s[q - 1..q + 2] == "^FD" by {
      assert s[q - 1..q + 2][0] == s[q - 1] && s[q - 1..q + 2][1] == s[q] && s[q - 1..q + 2][2] == s[q + 1];
    }
  }

  /** `^FD` ending at `k` and alphanumerics from `k` to `p`: the run back
      from `p` starts at the `F`. */
  lemma FdBeforeAt(s: string, k: nat, p: nat)
    requires FdThenAlnum(s, k, p)
    ensures FdBefore(s, p)
  {
    var w := s[k - 3..k];
    assert s[k - 3] == w[0] && s[k - 2] == w[1] && s[k - 1] == w[2];
    forall i | k - 2 <= i < p
      ensures IsAlnum(s[i])
    {
      if i >= k {
        assert s[i] == s[k..p][i - k];
      }
    }
    RunStartAt(s, p, k - 2);
  }

  /** The run back from `p` starts at `t` when `s[t..p]` is alphanumeric and
      `s[t - 1]` is not. */
  lemma {:induction false} RunStartAt(s: string, p: nat, t: nat)
    requires t <= p <= |s|
    requires forall i :: t <= i < p ==> IsAlnum(s[i])
    requires t == 0 || !IsAlnum(s[t - 1])
    ensures RunStart(s, p) == t
    decreases p
  {
    if p > t {
      RunStartAt(s, p - 1, t);
    }
  }

  /** The run forward from `e` ends at `t` when `s[e..t]` is alphanumeric and
      `s[t]` is not. */
  lemma {:induction false} RunEndAt(s: string, e: nat, t: nat)
    requires e <= t <= |s|
    requires forall i :: e <= i < t ==> IsAlnum(s[i])
    requires t == |s| || !IsAlnum(s[t])
    ensures RunEnd(s, e) == t
    decreases t - e
  {
    if e < t {
      RunEndAt(s, e + 1, t);
    }
  }

  /** The look-ahead as the pattern states it. */
  lemma FsAfterMeaning(s: string, e: nat)
    requires e <= |s|
    ensures FsAfter(s, e) <==> exists r :: AlnumThenFs(s, e, r)
  {
    if FsAfter(s, e) {
      assert AlnumThenFs(s, e, RunEnd(s, e));
    }
    if r: nat :| AlnumThenFs(s, e, r) {
      FsAfterAt(s, e, r);
    }
  }

  /** Alphanumerics from `e` and `^FS` at `r`: the run forward from `e` ends
      at `r`. */
  lemma FsAfterAt(s: string, e: nat, r: nat)
    requires AlnumThenFs(s, e, r)
    ensures FsAfter(s, e)
  {
    assert s[r] == s[r..r + 3][0];
    forall i | e <= i < r
      ensures IsAlnum(s[i])
    {
      assert s[i] == s[e..r][i - e];
    }
    RunEndAt(s, e, r);
  }

  /** `name` occurs in `s` at `p`. */
  predicate OccursAt(s: string, name: string, p: nat) {
    p + |name| <= |s| && s[p..p + |name|] == name
  }

  /** The pattern matches `name` at `p`. */
  predicate MatchAt(s: string, name: string, p: nat)
    requires p <= |s|
  {
    OccursAt(s, name, p) && FdBefore(s, p) && FsAfter(s, p + |name|)
  }

  /** The global replacement from `p` on: at each position the match is
      tried; after a match the scan resumes behind it. */
  function ReplaceFrom(s: string, name: string, value: string, p: nat): (r: string)
    requires |name| > 0 && p <= |s|
    ensures value == name ==> r == s[p..]
    decreases |s| - p
  {
    if p == |s| then ""
    else if MatchAt(s, name, p) then
      OccursSplits(s, name, p);
      value + ReplaceFrom(s, name, value, p + |name|)
    else
      assert s[p..] == [s[p]] + s[p + 1..];
      [s[p]] + ReplaceFrom(s, name, value, p + 1)
  }

  /** Where `name` occurs at `p`, the text from `p` is `name` and then the rest. */
  lemma OccursSplits(s: string, name: string, p: nat)
    requires OccursAt(s, name, p)
    ensures s[p..] == name + s[p + |name|..]
  {
    assert s[p..] == s[p..p + |name|] + s[p + |name|..];
  }

  /** `workingString.replace(regex, variable.value)`. */
  function ReplaceVariable(s: string, v: Variable): (r: string)
    requires PlainVariable(v)
  {
    ReplaceFrom(s, v.name, v.value, 0)
  }

  /** Where the pattern matches nowhere, the text is unchanged. */
  lemma {:induction false} NoMatchUnchanged(s: string, name: string, value: string, p: nat)
    requires |name| > 0 && p <= |s|
    requires forall q :: p <= q <= |s| ==> !MatchAt(s, name, q)
    ensures ReplaceFrom(s, name, value, p) == s[p..]
    decreases |s| - p
  {
    if p < |s| {
      NoMatchUnchanged(s, name, value, p + 1);
      assert s[p..] == [s[p]] + s[p + 1..];
    }
  }

  /** A name that occurs in no field data leaves the text unchanged; in
      particular a name that does not occur at all. */
  lemma AbsentNameUnchanged(s: string, v: Variable)
    requires PlainVariable(v)
    requires forall q :: 0 <= q <= |s| ==> !OccursAt(s, v.name, q)
    ensures ReplaceVariable(s, v) == s
  {
    NoMatchUnchanged(s, v.name, v.value, 0);
  }

  /** A field whose whole data is the name: `^FD` name `^FS` becomes
      `^FD` value `^FS`. */
  lemma WholeFieldReplaced(v: Variable)
    requires PlainVariable(v)
    ensures ReplaceVariable("^FD" + v.name + "^FS", v) == "^FD" + v.value + "^FS"
  {
    var s := "^FD" + v.name + "^FS";
    FieldMatch(s, v.name);
    FieldTail(s, v.name, v.value);
    HeadNoMatch(s, v.name);
    FieldHead(s, v.name, v.value);
    assert "^FD" + (v.value + "^FS") == "^FD" + v.value + "^FS";
  }

  /** The pattern matches the name right after `^FD`. */
  lemma FieldMatch(s: string, n: string)
    requires |n| > 0 && AllAlnum(n) && s == "^FD" + n + "^FS"
    ensures MatchAt(s, n, 3)
  {
    var e := 3 + |n|;
    assert s[3..e] == n && s[e..e + 3] == "^FS";
    assert RunStart(s, 1) == 1;
    assert RunStart(s, 3) == 1;
    assert RunEnd(s, e) == e;
  }

  /** Behind the name, `^FS` is copied: no match can start inside it. */
  lemma FieldTail(s: string, n: string, value: string)
    requires |n| > 0 && AllAlnum(n) && s == "^FD" + n + "^FS"
    ensures ReplaceFrom(s, n, value, 3 + |n|) == "^FS"
  {
    var e := 3 + |n|;
    assert s[e] == '^' && s[e + 1] == 'F' && s[e + 2] == 'S';
    assert IsAlnum(n[0]);
    assert !OccursAt(s, n, e);
    assert RunStart(s, e + 1) == e + 1;
    assert RunStart(s, e + 2) == e + 1;
    assert ReplaceFrom(s, n, value, e + 2) == "S";
  }

  /** Before the name, `^FD` is copied and the name is matched. */
  lemma FieldHead(s: string, n: string, value: string)
    requires |n| > 0 && 3 + |n| <= |s| && s[0] == '^' && s[1] == 'F' && s[2] == 'D'
    requires !MatchAt(s, n, 0) && !MatchAt(s, n, 1) && !MatchAt(s, n, 2) && MatchAt(s, n, 3)
    requires ReplaceFrom(s, n, value, 3 + |n|) == "^FS"
    ensures ReplaceFrom(s, n, value, 0) == "^FD" + (value + "^FS")
  {
    var rest := value + "^FS";
    assert ReplaceFrom(s, n, value, 3) == rest;
    assert ReplaceFrom(s, n, value, 2) == [s[2]] + rest;
    assert ReplaceFrom(s, n, value, 1) == [s[1]] + ([s[2]] + rest);
    assert ReplaceFrom(s, n, value, 0) == [s[0]] + ([s[1]] + ([s[2]] + rest));
    ThreeCons(s[0], s[1], s[2], rest);
  }

  lemma ThreeCons(x: char, y: char, z: char, rest: string)
    ensures [x] + ([y] + ([z] + rest)) == [x, y, z] + rest
  {
  }

  /** No match starts inside the leading `^FD`. */
  lemma HeadNoMatch(s: string, n: string)
    requires |n| > 0 && AllAlnum(n) && s == "^FD" + n + "^FS"
    ensures s[0] == '^' && s[1] == 'F' && s[2] == 'D'
    ensures !MatchAt(s, n, 0) && !MatchAt(s, n, 1) && !MatchAt(s, n, 2)
  {
    assert s[0] == '^' && s[1] == 'F' && s[2] == 'D';
    assert IsAlnum(n[0]);
    assert !OccursAt(s, n, 0);
    assert RunStart(s, 1) == 1;
    assert RunStart(s, 2) == 1;
  }

  /** The variables applied in map order, each to the previous result. */
  function SubstituteAll(variables: VariableMap, s: string): (r: string)
    requires forall k :: 0 <= k < |variables| ==> PlainVariable(variables[k].1)
    ensures (forall k :: 0 <= k < |variables| ==> variables[k].1.value == variables[k].1.name) ==> r == s
  {
    if variables == [] then s
    else ReplaceVariable(SubstituteAll(variables[..|variables| - 1], s), variables[|variables| - 1].1)
  }

  /** `produce()` as a value: the label text with the variables filled in
      when the last parse was valid, the error otherwise. */
  function Produced(isValid: bool, zplInput: string, variables: VariableMap): (r: Result<string, string>)
    requires isValid ==> forall k :: 0 <= k < |variables| ==> PlainVariable(variables[k].1)
    ensures !isValid <==> r == Failure("Label is not valid")
    ensures isValid && variables == [] ==> r == Success("^XA" + zplInput + "^XZ")
  {
    if isValid then Success(SubstituteAll(variables, "^XA" + zplInput + "^XZ"))
    else Failure("Label is not valid")
  }
}
