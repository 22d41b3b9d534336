/** The command scanner of `ZPLParser.parse` (packages/sdk/src/core/parser.ts):
    the global match `([~^][A-Z][A-Z0-9@])([^~^]*?)(?=[~^]|$)` over the label
    body, written out as an explicit leftmost, non-overlapping scan. */
module Tokenizer {
  import opened JsText

  /** A command and its (raw or cleaned) parameter string. */
  datatype Token = Token(command: string, params: string)

  predicate IsPrefixChar(c: char) { c == '^' || c == '~' }

  predicate IsUpperLetter(c: char) { 'A' <= c <= 'Z' }

  predicate IsCommandTail(c: char) { IsUpperLetter(c) || IsDigit(c) || c == '@' }

  /** A three-character command starts at `i`. */
  predicate CommandAt(s: string, i: nat) {
    i + 3 <= |s| && IsPrefixChar(s[i]) && IsUpperLetter(s[i + 1]) && IsCommandTail(s[i + 2])
  }

  /** Where the lazy parameter group stops: the first `^` or `~` at or after
      `i`, or the end of the text. */
  function ParamsEnd(s: string, i: nat): (j: nat)
    requires i <= |s|
    ensures i <= j <= |s|
    ensures j < |s| ==> IsPrefixChar(s[j])
    ensures forall k :: i <= k < j ==> !IsPrefixChar(s[k])
    decreases |s| - i
  {
    if i == |s| || IsPrefixChar(s[i]) then i else ParamsEnd(s, i + 1)
  }

  /** The leftmost command at or after `from`, or `|s|` when there is none. */
  function NextCommand(s: string, from: nat): (i: nat)
    requires from <= |s|
    ensures from <= i <= |s|
    ensures i < |s| ==> CommandAt(s, i)
    ensures forall k :: from <= k < i ==> !CommandAt(s, k)
    decreases |s| - from
  {
    if from == |s| then |s|
    else if CommandAt(s, from) then from
    else NextCommand(s, from + 1)
  }

  /** The successive matches from `from` on, as (command, raw params). */
  function Matches(s: string, from: nat): seq<Token>
    requires from <= |s|
    decreases |s| - from
  {
    var i := NextCommand(s, from);
    if i == |s| then []
    else
      var j := ParamsEnd(s, i + 3);
      [Token(s[i..i + 3], s[i + 3..j])] + Matches(s, j)
  }

  /** A well-formed match: a three-character command and a parameter run
      holding no `^` or `~`. */
  predicate WellFormed(t: Token) {
    |t.command| == 3 && CommandAt(t.command, 0) && forall c :: c in t.params ==> !IsPrefixChar(c)
  }

  /** Every match is a command of the pattern with caret-free parameters. */
  lemma {:induction false} MatchesWellFormed(s: string, from: nat)
    requires from <= |s|
    ensures forall t :: t in Matches(s, from) ==> WellFormed(t)
    decreases |s| - from
  {
    var i := NextCommand(s, from);
    if i < |s| {
      var j := ParamsEnd(s, i + 3);
      assert forall c :: c in s[i + 3..j] ==> !IsPrefixChar(c);
      assert s[i..i + 3][0] == s[i] && s[i..i + 3][1] == s[i + 1] && s[i..i + 3][2] == s[i + 2];
      MatchesWellFormed(s, j);
    }
  }

  /** The adjustment of `parse` for `^A`: a font command `^Af` other than
      `^A@` becomes `^A` with `f` prepended to its parameters; then the
      parameters are trimmed. */
  function CleanToken(raw: Token): (t: Token)
    ensures IsFontCommand(raw.command) ==> t == Token("^A", Trim([raw.command[2]] + raw.params))
    ensures !IsFontCommand(raw.command) ==> t == Token(raw.command, Trim(raw.params))
  {
    if IsFontCommand(raw.command) then Token("^A", Trim([raw.command[2]] + raw.params))
    else Token(raw.command, Trim(raw.params))
  }

  /** `command.startsWith("^A") && !command.endsWith("@")` for a matched
      three-character command. */
  predicate IsFontCommand(command: string) {
    |command| == 3 && command[..2] == "^A" && command[2] != '@'
  }

  /** Text holding no `^` and no `~`. */
  predicate CaretFree(p: string) {
    forall c :: c in p ==> !IsPrefixChar(c)
  }

  /** Cleaning a well-formed match keeps its parameters caret-free. */
  lemma CleanTokenCaretFree(raw: Token)
    requires WellFormed(raw)
    ensures CaretFree(CleanToken(raw).params)
  {
    var src := if IsFontCommand(raw.command) then [raw.command[2]] + raw.params else raw.params;
    assert CaretFree(src) by {
      assert !IsPrefixChar(raw.command[2]);
    }
    TrimKeepsCaretFree(src);
  }

  lemma TrimKeepsCaretFree(src: string)
    requires CaretFree(src)
    ensures CaretFree(Trim(src))
  {
    var r := Trim(src);
    var a := LeadingWhitespace(src);
    forall c | c in r ensures !IsPrefixChar(c) {
      var k :| 0 <= k < |r| && r[k] == c;
      assert r[k] == src[a + k];
    }
  }

  /** The tokens `parse` dispatches, in order: one per match, and no
      parameter string holds a `^` or a `~`. */
  function Tokenize(body: string): (ts: seq<Token>)
    ensures |ts| == |Matches(body, 0)|
    ensures forall k :: 0 <= k < |ts| ==> ts[k] == CleanToken(Matches(body, 0)[k])
    ensures forall k :: 0 <= k < |ts| ==> CaretFree(ts[k].params)
  {
    var raw := Matches(body, 0);
    MatchesWellFormed(body, 0);
    forall k | 0 <= k < |raw| ensures CaretFree(CleanToken(raw[k]).params) {
      assert raw[k] in raw;
      CleanTokenCaretFree(raw[k]);
    }
    seq(|raw|, k requires 0 <= k < |raw| => CleanToken(raw[k]))
  }

  /** Characters where no command starts are skipped without a trace. */
  lemma {:induction false} SkipNonCommands(s: string, from: nat, k: nat)
    requires from <= k <= |s|
    requires forall q :: from <= q < k ==> !CommandAt(s, q)
    ensures Matches(s, from) == Matches(s, k)
    decreases k - from
  {
    if from < k {
      SkipOne(s, from);
      SkipNonCommands(s, from + 1, k);
    }
  }

  lemma SkipOne(s: string, from: nat)
    requires from < |s| && !CommandAt(s, from)
    ensures Matches(s, from) == Matches(s, from + 1)
  {
    assert NextCommand(s, from) == NextCommand(s, from + 1);
  }

  /** A body with no command in it yields no token, whatever else it holds
      (lower-case `^fo`, stray text, a lone `^`). */
  lemma NoCommandNoTokens(s: string)
    requires forall q :: 0 <= q < |s| ==> !CommandAt(s, q)
    ensures Tokenize(s) == []
  {
    SkipNonCommands(s, 0, |s|);
  }

  /** One step of the scan: the command at `i` with the parameters from `e`
      up to `j`, then the rest from `j`. */
  lemma MatchesStep(s: string, from: nat, i: nat, e: nat, j: nat)
    requires from <= i < |s| && NextCommand(s, from) == i
    requires e == i + 3 && e <= j <= |s| && ParamsEnd(s, e) == j
    ensures Matches(s, from) == [Token(s[i..e], s[e..j])] + Matches(s, j)
  {
  }

  /** One command followed by a caret-free parameter run: the first match is
      that command with exactly that run, and scanning resumes where the run
      ends, at the next `^`/`~` or the end. */
  lemma OneCommand(s: string, command: string, params: string, rest: string)
    requires s == command + params + rest
    requires |command| == 3 && CommandAt(command, 0)
    requires forall c :: c in params ==> !IsPrefixChar(c)
    requires rest == [] || IsPrefixChar(rest[0])
    ensures Matches(s, 0) == [Token(command, params)] + Matches(rest, 0)
  {
    assert CommandAt(s, 0) by {
      assert s[0] == command[0] && s[1] == command[1] && s[2] == command[2];
    }
    assert NextCommand(s, 0) == 0;
    assert forall k :: 3 <= k < 3 + |params| ==> s[k] == params[k - 3];
    ParamsEndAt(s, 3, 3 + |params|);
    assert s[0..3] == command;
    assert s[3..3 + |params|] == params;
    MatchesStep(s, 0, 0, 3, 3 + |params|);
    SuffixAfter(s, command + params, rest);
    MatchesDrop(s, rest, 3 + |params|, 0, 3 + |params|);
  }

  lemma SuffixAfter(s: string, front: string, back: string)
    requires s == front + back
    ensures back == s[|front|..]
  {
  }

  lemma {:induction false} ParamsEndAt(s: string, i: nat, j: nat)
    requires i <= j <= |s|
    requires forall k :: i <= k < j ==> !IsPrefixChar(s[k])
    requires j == |s| || IsPrefixChar(s[j])
    ensures ParamsEnd(s, i) == j
    decreases j - i
  {
    if i < j {
      ParamsEndAt(s, i + 1, j);
    }
  }
  lemma {:induction false} NextCommandDrop(s: string, t: string, p: nat, k: nat, q: nat)
    requires p <= |s| && t == s[p..] && k <= |t| && q == p + k
    ensures NextCommand(s, q) == p + NextCommand(t, k)
    decreases |t| - k
  {
    if k < |t| {
      assert CommandAt(s, q) == CommandAt(t, k) by {
        if q + 3 <= |s| {
          assert s[q] == t[k] && s[q + 1] == t[k + 1] && s[q + 2] == t[k + 2];
        }
      }
      NextCommandDrop(s, t, p, k + 1, q + 1);
    }
  }

  lemma {:induction false} ParamsEndDrop(s: string, t: string, p: nat, k: nat, q: nat)
    requires p <= |s| && t == s[p..] && k <= |t| && q == p + k
    ensures ParamsEnd(s, q) == p + ParamsEnd(t, k)
    decreases |t| - k
  {
    if k < |t| {
      assert s[q] == t[k];
      ParamsEndDrop(s, t, p, k + 1, q + 1);
    }
  }

  /** Scanning `s` from `q` is scanning its suffix `t` from the matching position. */
  lemma {:induction false} MatchesDrop(s: string, t: string, p: nat, k: nat, q: nat)
    requires p <= |s| && t == s[p..] && k <= |t| && q == p + k
    ensures Matches(s, q) == Matches(t, k)
    decreases |t| - k
  {
    if NextCommand(t, k) < |t| {
      var token, j, jp := MatchesDropStep(s, t, p, k, q);
      MatchesDrop(s, t, p, j, jp);
    } else {
      NextCommandDrop(s, t, p, k, q);
    }
  }

  lemma MatchesDropStep(s: string, t: string, p: nat, k: nat, q: nat) returns (token: Token, j: nat, jp: nat)
    requires p <= |s| && t == s[p..] && k <= |t| && q == p + k
    requires NextCommand(t, k) < |t|
    ensures k < j <= |t| && jp == p + j
    ensures Matches(s, q) == [token] + Matches(s, jp)
    ensures Matches(t, k) == [token] + Matches(t, j)
  {
    var i := NextCommand(t, k);
    var ip := NextCommand(s, q);
    NextCommandDrop(s, t, p, k, q);
    var e, ep := i + 3, ip + 3;
    j := ParamsEnd(t, e);
    jp := ParamsEnd(s, ep);
    ParamsEndDrop(s, t, p, e, ep);
    token := Token(t[i..e], t[e..j]);
    MatchesStep(s, q, ip, ep, jp);
    MatchesStep(t, k, i, e, j);
    SliceDrop(s, t, p, i, e, ip, ep);
    SliceDrop(s, t, p, e, j, ep, jp);
  }

  lemma SliceDrop(s: string, t: string, p: nat, i: nat, j: nat, ip: nat, jp: nat)
    requires p <= |s| && t == s[p..] && i <= j <= |t| && ip == p + i && jp == p + j
    ensures s[ip..jp] == t[i..j]
  {
  }
}
