// The reference semantics of the character cursor of
// src/declaration_parser/parser.rs, as functions from a cursor position to
// the position (and result) each scanning routine leaves behind. The
// `Parser` class in parser.dfy is proved to move exactly as these say.

module Scan {
  import opened Text
  import opened Wrappers

  /** A cursor position: the parser's `index`, `line` and `out_of_space`. */
  datatype Cur = Cur(index: nat, line: nat, oos: bool)

  /**
   * `get_curr` is defined: either the end flag is set (it gives '\0') or
   * `index` is inside the text. A position past the end without the flag
   * makes `get_curr` index out of range.
   */
  predicate Parked(s: string, c: Cur) {
    c.oos || c.index < |s|
  }

  /** `get_curr`. */
  function CurrOf(s: string, c: Cur): char
    requires Parked(s, c)
  {
    if c.oos then '\0' else s[c.index]
  }

  /** `check_for_end`: sets the flag once `index` is at or past the end. */
  function ForEnd(s: string, c: Cur): (r: Cur)
    ensures r.index == c.index && r.line == c.line
    ensures r.oos <==> c.oos || c.index >= |s|
    ensures Parked(s, r)
  {
    Cur(c.index, c.line, c.oos || c.index >= |s|)
  }

  /** `increment`: one step forward, then `check_for_end`. */
  function Inc(s: string, c: Cur): (r: Cur)
    ensures r.index == c.index + 1 && r.line == c.line
    ensures r.oos <==> c.oos || c.index + 1 >= |s|
    ensures Parked(s, r)
  {
    ForEnd(s, Cur(c.index + 1, c.line, c.oos))
  }

  /**
   * The text from position `i` on. Past the end it is empty; the source's
   * `&content[index..]` panics there instead (see `CheckAheadAsWritten`).
   */
  function Rest(s: string, i: nat): (r: string)
    ensures i <= |s| ==> r == s[i..]
    ensures i >= |s| ==> r == []
  {
    if i <= |s| then s[i..] else []
  }

  /** `check_ahead`, total: nothing is ahead past the end of the text. */
  predicate Ahead(s: string, i: nat, check: string) {
    StartsWith(Rest(s, i), check)
  }

  /**
   * `check_ahead` as written: `None` stands for the panic of slicing the
   * content at an index past its end.
   */
  function CheckAheadAsWritten(s: string, i: nat, check: string): (r: Option<bool>)
    ensures r.None? <==> i > |s|
    ensures r.Some? ==> r.value == Ahead(s, i, check)
  {
    if i > |s| then None else Some(StartsWith(s[i..], check))
  }

  /** Past the end of the text nothing non-empty is ahead. */
  lemma NothingAheadPastEnd(s: string, i: nat, check: string)
    requires i >= |s| && |check| > 0
    ensures !Ahead(s, i, check)
  {
  }

  /** A non-empty text ahead lies inside the remaining text. */
  lemma AheadFits(s: string, i: nat, check: string)
    requires Ahead(s, i, check) && |check| > 0
    ensures i + |check| <= |s|
    ensures s[i..i + |check|] == check
  {
  }

  // ----- character classes -----

  /** `is_space`: the four characters the cursor treats as whitespace. */
  predicate IsSpaceChar(ch: char) {
    ch == '\n' || ch == ' ' || ch == '\t' || ch == '\r'
  }

  /** `curr_is_valid_var_char`. */
  predicate IsVarChar(ch: char, first: bool) {
    IsAsciiAlpha(ch) || ch == '_' || (!first && IsDigit(ch))
  }

  /** `curr_is_valid_op_char`. */
  predicate IsOpChar(ch: char) {
    ch in {'!', '%', '^', '&', '*', '[', ']', '+', '-', '<', '>', '?', '/'}
  }

  /** `curr_is_hex_numeric`: a decimal digit or a lower-case 'a'..'f'. */
  predicate IsHexChar(ch: char) {
    ('a' <= ch <= 'f') || IsDigit(ch)
  }

  /** The character test used after the first character of a name. */
  predicate IsVarTail(ch: char) {
    IsVarChar(ch, false)
  }

  /** The test "is not `target`", as a function value for `Span`. */
  function NotChar(target: char): char -> bool {
    ch => ch != target
  }

  // ----- runs of characters -----

  /**
   * The end of the run of characters satisfying `p` that starts at `i`:
   * the first position at or after `i` that is the end of the text or
   * holds a character `p` rejects.
   */
  function Span(s: string, i: nat, p: char -> bool): (j: nat)
    requires i <= |s|
    ensures i <= j <= |s|
    ensures j < |s| ==> !p(s[j])
    decreases |s| - i
  {
    if i == |s| || !p(s[i]) then i else Span(s, i + 1, p)
  }

  /** Every character of the run satisfies `p`. */
  lemma {:induction false} SpanAll(s: string, i: nat, p: char -> bool)
    requires i <= |s|
    ensures forall k :: i <= k < Span(s, i, p) ==> p(s[k])
    decreases |s| - i
  {
    if i < |s| && p(s[i]) {
      SpanAll(s, i + 1, p);
    }
  }

  /** Any position that ends a run of `p` from `i` is `Span(s, i, p)`. */
  lemma {:induction false} SpanUnique(s: string, i: nat, j: nat, p: char -> bool)
    requires i <= j <= |s|
    requires forall k :: i <= k < j ==> p(s[k])
    requires j == |s| || !p(s[j])
    ensures Span(s, i, p) == j
    decreases j - i
  {
    if i < j {
      SpanUnique(s, i + 1, j, p);
    }
  }

  // ----- parse_until -----

  /**
   * `parse_until(ch)`: the flag says whether the cursor was NOT already on
   * `ch`. From inside the text it stops on the next `ch` or at the end.
   */
  function UntilChar(s: string, c: Cur, ch: char): (r: (Cur, bool))
    ensures r.0.line == c.line && r.0.index >= c.index
    ensures Parked(s, r.0)
    ensures !r.1 <==> c.index < |s| && CurrOf(s, c) == ch
    ensures !r.1 ==> r.0 == c
    ensures c.oos ==> r.0.oos
    ensures r.1 && c.index < |s| ==> r.0.index <= |s|
  {
    if c.index >= |s| then (ForEnd(s, c), true)
    else if CurrOf(s, c) == ch then (c, false)
    else
      var k := if c.oos then |s| else Span(s, c.index + 1, NotChar(ch));
      (Cur(k, c.line, c.oos || k >= |s|), true)
  }

  /**
   * Started on a character other than `ch`, `parse_until` stops on the
   * first later `ch`; every character it passes over differs from `ch`.
   */
  lemma UntilCharFindsNext(s: string, c: Cur, ch: char)
    requires !c.oos && c.index < |s| && s[c.index] != ch
    ensures var r := UntilChar(s, c, ch).0;
      c.index < r.index <= |s| &&
      (r.index < |s| ==> s[r.index] == ch && !r.oos) &&
      (r.index == |s| ==> r.oos) &&
      forall k :: c.index < k < r.index ==> s[k] != ch
  {
    SpanAll(s, c.index + 1, NotChar(ch));
  }

  /**
   * From inside the text `parse_until` succeeds, without setting the end
   * flag, exactly when `ch` occurs at or after the cursor; it then stops on
   * the first such `ch`.
   */
  lemma UntilCharFound(s: string, c: Cur, ch: char)
    requires !c.oos && c.index < |s|
    ensures var r := UntilChar(s, c, ch).0;
      (!r.oos <==> ch in s[c.index..]) &&
      (!r.oos ==> c.index <= r.index < |s| && s[r.index] == ch && ch !in s[c.index..r.index])
  {
    var r := UntilChar(s, c, ch).0;
    if s[c.index] == ch {
      assert s[c.index..][0] == ch;
      assert s[c.index..r.index] == [];
    } else {
      UntilCharFindsNext(s, c, ch);
      if r.oos {
        assert r.index == |s|;
        forall k | c.index <= k < |s|
          ensures s[k] != ch
        {
        }
        assert forall k :: 0 <= k < |s[c.index..]| ==> s[c.index..][k] != ch;
      } else {
        assert s[c.index..][r.index - c.index] == ch;
        assert forall k :: 0 <= k < |s[c.index..r.index]| ==> s[c.index..r.index][k] == s[c.index + k];
      }
    }
  }

  // ----- comments -----

  /** The text ahead opens a `//` or a block comment. */
  predicate CommentAhead(s: string, i: nat) {
    Ahead(s, i, "//") || Ahead(s, i, "/*")
  }

  /** A `//` comment: up to its newline, past it, and one line further. */
  function LineComment(s: string, c: Cur): (r: Cur)
    requires Ahead(s, c.index, "//")
    ensures c.index < r.index <= |s| + 1
    ensures r.line == c.line + 1
    ensures Parked(s, r)
  {
    var u := UntilChar(s, c, '\n').0;
    var n := Inc(s, u);
    Cur(n.index, n.line + 1, n.oos)
  }

  /**
   * The loop of a block comment: to the next '*', one step, and stop when
   * that step reaches the end or a '/'.
   */
  function BlockLoop(s: string, c: Cur): (r: Cur)
    requires c.index < |s|
    ensures c.index < r.index <= |s| + 1
    ensures r.line == c.line
    ensures Parked(s, r)
    ensures r.index < |s| ==> !r.oos ==> s[r.index] == '/'
    decreases |s| - c.index
  {
    var u := UntilChar(s, c, '*').0;
    var n := Inc(s, u);
    if n.index >= |s| || CurrOf(s, n) == '/' then n
    else BlockLoop(s, n)
  }

  /** A block comment (opened by slash-star): the loop, then one step past the closing '/'. Newlines inside do not count. */
  function BlockComment(s: string, c: Cur): (r: Cur)
    requires Ahead(s, c.index, "/*")
    ensures c.index < r.index <= |s| + 2
    ensures r.line == c.line
    ensures Parked(s, r)
  {
    Inc(s, BlockLoop(s, c))
  }

  /** `check_and_parse_comments`: skips one comment when one is ahead. */
  function Comments(s: string, c: Cur): (r: (Cur, bool))
    ensures r.1 <==> CommentAhead(s, c.index)
    ensures !r.1 ==> r.0 == c
    ensures r.1 ==> c.index < r.0.index <= |s| + 2 && Parked(s, r.0) && r.0.line >= c.line
  {
    if Ahead(s, c.index, "//") then (LineComment(s, c), true)
    else if Ahead(s, c.index, "/*") then (BlockComment(s, c), true)
    else (c, false)
  }

  // ----- parse_whitespace -----

  /** The cursor is on one of the whitespace characters. */
  predicate OnSpace(s: string, c: Cur)
    requires Parked(s, c)
  {
    IsSpaceChar(CurrOf(s, c))
  }

  /** The body loop of `parse_whitespace`: whitespace runs and comments, in any order. */
  function WsLoop(s: string, c: Cur): (r: Cur)
    requires Parked(s, c) && c.index <= |s| + 2
    ensures c.index <= r.index && c.line <= r.line && Parked(s, r)
    decreases |s| + 3 - c.index
  {
    if OnSpace(s, c) then
      var l := if CurrOf(s, c) == '\n' then c.line + 1 else c.line;
      var n := Inc(s, Cur(c.index, l, c.oos));
      if n.index >= |s| then n else WsLoop(s, n)
    else
      var (n, found) := Comments(s, c);
      if !found then c else WsLoop(s, n)
  }

  /** Once the end flag is set past the text, the body loop has nothing left to skip. */
  lemma WsLoopAtEnd(s: string, c: Cur)
    requires c.oos && |s| <= c.index <= |s| + 2
    ensures WsLoop(s, c) == c
  {
    assert Rest(s, c.index) == [];
    assert !Comments(s, c).1;
  }

  /** A whitespace character is one step of the body loop, newlines counted. */
  lemma WsLoopSpace(s: string, c: Cur)
    requires Parked(s, c) && c.index <= |s| + 2 && OnSpace(s, c)
    ensures var l := if CurrOf(s, c) == '\n' then c.line + 1 else c.line;
      var n := Inc(s, Cur(c.index, l, c.oos));
      n.index <= |s| && WsLoop(s, c) == WsLoop(s, n)
  {
    assert !c.oos && c.index < |s|;
    var l := if s[c.index] == '\n' then c.line + 1 else c.line;
    var n := Inc(s, Cur(c.index, l, false));
    if n.index >= |s| {
      WsLoopAtEnd(s, n);
      assert WsLoop(s, c) == n;
    } else {
      assert WsLoop(s, c) == WsLoop(s, n);
    }
  }

  /**
   * `parse_whitespace`: false, and nothing but the end flag changes, when
   * the cursor is at the end or on neither whitespace nor a comment;
   * otherwise everything blank is skipped.
   */
  function Whitespace(s: string, c: Cur): (r: (Cur, bool))
    ensures Parked(s, r.0) && r.0.index >= c.index && r.0.line >= c.line
    ensures !r.1 <==> c.index >= |s| || (!OnSpace(s, c) && !CommentAhead(s, c.index))
    ensures !r.1 ==> r.0 == ForEnd(s, c)
    ensures r.1 ==> r.0.index > c.index
  {
    if c.index >= |s| then (ForEnd(s, c), false)
    else if OnSpace(s, c) then (WsLoop(s, c), true)
    else
      var (n, found) := Comments(s, c);
      if !found then (c, false) else (WsLoop(s, n), true)
  }

  /** Where `parse_whitespace` stops there is neither whitespace nor a comment, unless the text is used up. */
  lemma {:induction false} WsLoopStopsAtContent(s: string, c: Cur)
    requires Parked(s, c) && c.index <= |s| + 2
    ensures var r := WsLoop(s, c);
      r.oos || (r.index < |s| && !IsSpaceChar(s[r.index]) && !CommentAhead(s, r.index))
    decreases |s| + 3 - c.index
  {
    if OnSpace(s, c) {
      var l := if CurrOf(s, c) == '\n' then c.line + 1 else c.line;
      var n := Inc(s, Cur(c.index, l, c.oos));
      if n.index < |s| {
        assert WsLoop(s, c) == WsLoop(s, n);
        WsLoopStopsAtContent(s, n);
      } else {
        assert WsLoop(s, c) == n;
      }
    } else if CommentAhead(s, c.index) {
      var n := Comments(s, c).0;
      assert WsLoop(s, c) == WsLoop(s, n);
      WsLoopStopsAtContent(s, n);
    } else {
      assert WsLoop(s, c) == c;
    }
  }

  /** The same, for the whole of `parse_whitespace` when it skipped something. */
  lemma WhitespaceStopsAtContent(s: string, c: Cur)
    requires Whitespace(s, c).1
    ensures var r := Whitespace(s, c).0;
      r.oos || (r.index < |s| && !IsSpaceChar(s[r.index]) && !CommentAhead(s, r.index))
  {
    if OnSpace(s, c) {
      WsLoopStopsAtContent(s, c);
    } else {
      var (n, _) := Comments(s, c);
      WsLoopStopsAtContent(s, n);
    }
  }

  /** The number of newline characters in `t`. */
  function Newlines(t: string): (n: nat)
    ensures n <= |t|
  {
    if |t| == 0 then 0 else (if t[0] == '\n' then 1 else 0) + Newlines(t[1..])
  }

  /**
   * Plain whitespace: when the first non-whitespace character does not open
   * a comment, `parse_whitespace` stops on it (or at the end), and `line`
   * grows by exactly the number of newlines skipped.
   */
  lemma {:induction false} WsLoopCountsNewlines(s: string, c: Cur)
    requires !c.oos && c.index < |s|
    requires !CommentAhead(s, Span(s, c.index, IsSpaceChar))
    ensures var j := Span(s, c.index, IsSpaceChar);
      WsLoop(s, c) == Cur(j, c.line + Newlines(s[c.index..j]), j >= |s|)
    decreases |s| - c.index
  {
    var j := Span(s, c.index, IsSpaceChar);
    if IsSpaceChar(s[c.index]) {
      var l := if s[c.index] == '\n' then c.line + 1 else c.line;
      var n := Inc(s, Cur(c.index, l, false));
      assert s[c.index..j][1..] == s[c.index + 1..j];
      assert Span(s, c.index + 1, IsSpaceChar) == j;
      if n.index < |s| {
        WsLoopCountsNewlines(s, n);
      } else {
        assert j == |s|;
      }
    } else {
      assert j == c.index;
    }
  }

  /**
   * The discrepancy: a `//` comment that runs to the end of the text leaves
   * `index` one past the end, so the `check_ahead` that the whitespace loop
   * makes next slices the content out of range. "//" is the smallest text
   * that shows it.
   */
  lemma TrailingLineCommentOverruns(s: string, c: Cur)
    requires Ahead(s, c.index, "//") && !c.oos
    requires forall k :: c.index <= k < |s| ==> s[k] != '\n'
    ensures LineComment(s, c).index == |s| + 1
    ensures CheckAheadAsWritten(s, LineComment(s, c).index, "//").None?
  {
    UntilCharFindsNext(s, c, '\n');
  }

  lemma TrailingLineCommentWitness()
    ensures var c := LineComment("//", Cur(0, 0, false));
      c.index == 3 && !OnSpace("//", c) && CheckAheadAsWritten("//", c.index, "//").None?
  {
    TrailingLineCommentOverruns("//", Cur(0, 0, false));
  }

  /** With the total `Ahead`, the same text is whitespace that ends the scan at the end flag. */
  lemma TrailingLineCommentCorrected()
    ensures Whitespace("//", Cur(0, 0, false)) == (Cur(3, 1, true), true)
  {
    TrailingLineCommentOverruns("//", Cur(0, 0, false));
    var n := LineComment("//", Cur(0, 0, false));
    assert !CommentAhead("//", n.index);
  }

  /** Without a '/' after the opening, the block loop runs to the end of the text. */
  lemma {:induction false} BlockLoopRunsOut(s: string, c: Cur)
    requires !c.oos && c.index < |s|
    requires forall k :: c.index < k < |s| ==> s[k] != '/'
    ensures BlockLoop(s, c).index >= |s|
    decreases |s| - c.index
  {
    var u := UntilChar(s, c, '*').0;
    var n := Inc(s, u);
    assert n.index < |s| ==> !n.oos && s[n.index] != '/';
    if n.index < |s| {
      BlockLoopRunsOut(s, n);
    }
  }

  /**
   * The same discrepancy for a block comment that is never closed: the
   * loop stops at the end flag and the final `increment` moves the index
   * past the end, so the next `check_ahead` slices out of range. The
   * two-character text of a bare comment opening shows it.
   */
  lemma TrailingBlockCommentOverruns(s: string, c: Cur)
    requires Ahead(s, c.index, "/*") && !c.oos
    requires forall k :: c.index < k < |s| ==> s[k] != '/'
    ensures BlockComment(s, c).index > |s|
    ensures CheckAheadAsWritten(s, BlockComment(s, c).index, "//").None?
  {
    BlockLoopRunsOut(s, c);
  }

  lemma TrailingBlockCommentWitness()
    ensures var c := BlockComment("/*", Cur(0, 0, false));
      c.index == 3 && !OnSpace("/*", c) && CheckAheadAsWritten("/*", c.index, "//").None?
    ensures var c := BlockComment("/**", Cur(0, 0, false));
      c.index == 4 && !OnSpace("/**", c) && CheckAheadAsWritten("/**", c.index, "//").None?
  {
    TrailingBlockCommentOverruns("/*", Cur(0, 0, false));
    TrailingBlockCommentOverruns("/**", Cur(0, 0, false));
  }

  /** With the total `Ahead`, an unclosed block comment is whitespace that ends the scan at the end flag. */
  lemma TrailingBlockCommentCorrected()
    ensures Whitespace("/*", Cur(0, 0, false)) == (Cur(3, 0, true), true)
  {
    TrailingBlockCommentOverruns("/*", Cur(0, 0, false));
    var n := BlockComment("/*", Cur(0, 0, false));
    assert !CommentAhead("/*", n.index);
  }

  /**
   * An unclosed string literal does not reach the slicing: the step after
   * it finds the end flag in `parse_whitespace`'s first test, and the loop
   * of `parse_until_at_expr` ends without a target.
   */
  lemma UnclosedStringEndsLoop(s: string, c: Cur, t1: char, t2: char, b: int, p: int)
    requires Parked(s, c) && !c.oos
    requires StringLit(s, c).0.index >= |s|
    ensures ExprStep(s, c).1
    ensures ExprLoop(s, c, t1, t2, b, p).1.None?
  {
  }

  // ----- names -----

  /**
   * `parse_ascii_char_name`: a letter or '_' followed by letters, digits
   * and '_'; nothing is read when the cursor is on anything else.
   */
  function AsciiName(s: string, c: Cur): (r: (Cur, string))
    ensures r.0.line == c.line && r.0.index == c.index + |r.1|
    ensures Parked(s, r.0) && (c.oos ==> r.0.oos)
    ensures r.1 == [] ==> r.0 == ForEnd(s, c)
  {
    if c.index >= |s| then (ForEnd(s, c), "")
    else if !IsVarChar(CurrOf(s, c), true) then (c, "")
    else
      var j := Span(s, c.index + 1, IsVarTail);
      (Cur(j, c.line, j >= |s|), s[c.index..j])
  }

  /** A keyword that starts with a letter or '_', found at the cursor, is read as a nonempty name. */
  lemma KeywordIsRead(s: string, c: Cur, word: string)
    requires !c.oos && c.index < |s| && |word| > 0 && IsVarChar(word[0], true)
    requires StartsWith(Rest(s, c.index), word)
    ensures AsciiName(s, c).1 != [] && AsciiName(s, c).0.index > c.index
  {
    assert Rest(s, c.index)[..|word|][0] == s[c.index];
  }

  /**
   * The name read is the longest identifier at the cursor: empty exactly
   * when the first character cannot start a name, and ended by the end of
   * the text or a character that cannot continue one.
   */
  lemma AsciiNameIsLongestIdentifier(s: string, c: Cur)
    requires !c.oos && c.index < |s|
    ensures var (r, name) := AsciiName(s, c);
      (name == [] <==> !IsVarChar(s[c.index], true)) &&
      name == s[c.index..r.index] &&
      (name != [] ==> IsVarChar(name[0], true) && (forall k :: 0 < k < |name| ==> IsVarChar(name[k], false))) &&
      (name != [] ==> (r.index == |s| || !IsVarChar(s[r.index], false))) &&
      (r.oos <==> r.index >= |s|)
  {
    if IsVarChar(s[c.index], true) {
      SpanAll(s, c.index + 1, IsVarTail);
    }
  }

  /** The run of operator characters at the cursor. */
  function OpRun(s: string, c: Cur): (r: (Cur, string))
    requires Parked(s, c)
    ensures r.0.line == c.line && r.0.index == c.index + |r.1|
    ensures Parked(s, r.0)
    ensures r.1 == [] ==> r.0 == c
  {
    if !IsOpChar(CurrOf(s, c)) then (c, "")
    else
      var j := Span(s, c.index, IsOpChar);
      (Cur(j, c.line, j >= |s|), s[c.index..j])
  }

  /**
   * `parse_ascii_op_name`: "()" when the cursor is on "()" (it stays on the
   * ')'), else the run of operator characters, after a leading '(' if any.
   */
  function OpName(s: string, c: Cur): (r: (Cur, string))
    ensures r.0.line == c.line && r.0.index >= c.index && Parked(s, r.0)
  {
    if c.index >= |s| then (ForEnd(s, c), "")
    else if CurrOf(s, c) == '(' then
      var n := Inc(s, c);
      if n.index >= |s| then (n, "")
      else if CurrOf(s, n) == ')' then (n, "()")
      else OpRun(s, n)
    else OpRun(s, c)
  }

  /** Away from '(' the operator name is the longest run of operator characters. */
  lemma OpNameIsLongestRun(s: string, c: Cur)
    requires !c.oos && c.index < |s| && s[c.index] != '('
    ensures var (r, name) := OpName(s, c);
      name == s[c.index..r.index] &&
      (forall k :: c.index <= k < r.index ==> IsOpChar(s[k])) &&
      (r.index == |s| || !IsOpChar(s[r.index]))
  {
    if IsOpChar(s[c.index]) {
      SpanAll(s, c.index, IsOpChar);
    }
  }

  // ----- string literals -----

  /** The digit test of `next_x_chars_are_numeric` (false) or `_hex` (true). */
  predicate DigitOk(ch: char, hex: bool) {
    if hex then IsHexChar(ch) else IsDigit(ch)
  }

  /** `next_x_chars_are_numeric`/`_hex`: the next `x` characters pass the test; the cursor ends on the last one read. */
  function NextX(s: string, c: Cur, x: nat, hex: bool): (r: (Cur, bool))
    requires c.index < |s|
    ensures r.0.line == c.line && c.index <= r.0.index <= c.index + x
    ensures Parked(s, r.0)
    ensures r.1 ==> r.0.index == c.index + x && r.0.index < |s| && r.0.oos == c.oos
    ensures r.1 && !c.oos ==> forall k :: c.index < k <= c.index + x ==> DigitOk(s[k], hex)
    decreases x
  {
    if x == 0 then (c, true)
    else
      var n := Inc(s, c);
      if n.index >= |s| || !DigitOk(CurrOf(s, n), hex) then (n, false)
      else NextX(s, n, x - 1, hex)
  }

  /** The characters that complete a simple escape sequence. */
  predicate SimpleEscape(ch: char) {
    ch in {'\'', '"', '?', '\\', 'a', 'b', 'f', 'n', 'r', 't', 'v', '0'}
  }

  /**
   * `parse_escape_char`, on a backslash: a digit needs two more digits,
   * 'x' a digit then a hex digit, 'u' four and 'U' eight hex digits; the
   * simple escapes stand alone. The cursor ends on the last character of
   * the escape.
   */
  function Escape(s: string, c: Cur): (r: (Cur, bool))
    requires Parked(s, c)
    ensures r.0.line == c.line && r.0.index >= c.index && Parked(s, r.0)
    ensures r.1 ==> c.index < r.0.index < |s| && !r.0.oos && s[c.index] == '\\'
  {
    if CurrOf(s, c) != '\\' then (c, false)
    else
      var n := Inc(s, c);
      if n.index >= |s| then (n, false)
      else
        var ch := CurrOf(s, n);
        if IsDigit(ch) then NextX(s, n, 2, false)
        else if SimpleEscape(ch) then (n, true)
        else if ch == 'x' then
          var (a, ok) := NextX(s, n, 1, false);
          if !ok then (a, false) else NextX(s, a, 1, true)
        else if ch == 'u' then NextX(s, n, 4, true)
        else if ch == 'U' then NextX(s, n, 8, true)
        else (n, false)
  }

  /**
   * `parse_string_prefix`: '"', "u\"", "u8\"", "L\"", "U\"", or 'R'
   * followed by '"' or by any one character and '('. The flag `raw` is
   * set by 'R'. On success the cursor is on the quote (or the '(').
   */
  function StringPrefix(s: string, c: Cur): (r: (Cur, bool, bool))
    requires Parked(s, c)
    ensures r.0.line == c.line && r.0.index >= c.index && Parked(s, r.0)
    ensures r.1 ==> r.0.index < |s| && !r.0.oos && !c.oos
    ensures r.1 ==> (s[r.0.index] == '"' || (r.2 && s[r.0.index] == '('))
    ensures r.1 ==> (r.2 <==> s[c.index] == 'R')
  {
    var ch := CurrOf(s, c);
    if ch == '"' then (c, true, false)
    else if ch == 'u' then
      var n := Inc(s, c);
      if n.index >= |s| then (n, false, false)
      else if CurrOf(s, n) == '8' then
        var m := Inc(s, n);
        if m.index >= |s| || CurrOf(s, m) != '"' then (m, false, false) else (m, true, false)
      else if CurrOf(s, n) == '"' then (n, true, false)
      else (n, false, false)
    else if ch == 'L' || ch == 'U' then
      var n := Inc(s, c);
      if n.index >= |s| || CurrOf(s, n) != '"' then (n, false, false) else (n, true, false)
    else if ch == 'R' then
      var n := Inc(s, c);
      if n.index >= |s| || CurrOf(s, n) != '"' then
        var m := Inc(s, n);
        if m.index >= |s| || CurrOf(s, m) != '(' then (m, false, true) else (m, true, true)
      else (n, true, true)
    else (c, false, false)
  }

  /**
   * The body loop of `parse_string`: step by step to the closing quote (for
   * a raw literal, a ')' directly followed by '"'), passing escapes whole.
   */
  function StringBody(s: string, c: Cur, raw: bool): (r: (Cur, bool))
    requires c.index < |s|
    ensures r.0.line == c.line && r.0.index > c.index && Parked(s, r.0)
    ensures r.1 ==> r.0.index < |s| && !r.0.oos && s[r.0.index] == '"'
    ensures !r.1 ==> r.0.index <= |s| + 1
    decreases |s| - c.index
  {
    var n := Inc(s, c);
    if n.index >= |s| then (n, false)
    else
      var ch := CurrOf(s, n);
      if ch == '"' && !raw then (n, true)
      else if ch == '\\' then
        var (e, ok) := Escape(s, n);
        if !ok then (e, false) else StringBody(s, e, raw)
      else if ch == ')' && raw then
        var m := Inc(s, n);
        if m.index >= |s| then (m, false)
        else if CurrOf(s, m) == '"' then (m, true)
        else StringBody(s, n, raw)
      else StringBody(s, n, raw)
  }

  /** `parse_string`: a prefix, then the body; the cursor ends on the closing quote. */
  function StringLit(s: string, c: Cur): (r: (Cur, bool))
    ensures r.0.line == c.line && r.0.index >= c.index && Parked(s, r.0)
    ensures r.1 ==> c.index < r.0.index < |s| && !r.0.oos && s[r.0.index] == '"'
    ensures r.1 ==> !c.oos && s[c.index] in {'"', 'u', 'L', 'U', 'R'}
  {
    if c.index >= |s| then (ForEnd(s, c), false)
    else
      var (p, ok, raw) := StringPrefix(s, c);
      if !ok then (p, false) else StringBody(s, p, raw)
  }

  /**
   * A plain literal whose characters before the next quote hold no
   * backslash ends on that quote; without a closing quote it fails at the
   * end of the text.
   */
  lemma {:induction false} PlainBodyEndsAtQuote(s: string, c: Cur, j: nat)
    requires !c.oos && c.index < j <= |s|
    requires j == Span(s, c.index + 1, NotChar('"'))
    requires forall k :: c.index < k < j ==> s[k] != '\\'
    ensures StringBody(s, c, false) == if j < |s| then (Cur(j, c.line, false), true) else (Cur(|s|, c.line, true), false)
    decreases |s| - c.index
  {
    var n := Inc(s, c);
    if n.index < |s| && s[n.index] != '"' {
      assert Span(s, n.index + 1, NotChar('"')) == j;
      PlainBodyEndsAtQuote(s, n, j);
    }
  }

  lemma PlainStringEndsAtQuote(s: string, c: Cur)
    requires !c.oos && c.index < |s| && s[c.index] == '"'
    requires forall k :: c.index < k < Span(s, c.index + 1, NotChar('"')) ==> s[k] != '\\'
    ensures var j := Span(s, c.index + 1, NotChar('"'));
      StringLit(s, c) == if j < |s| then (Cur(j, c.line, false), true) else (Cur(|s|, c.line, true), false)
  {
    PlainBodyEndsAtQuote(s, c, Span(s, c.index + 1, NotChar('"')));
  }

  // ----- parse_until_at_expr -----

  /**
   * One pass of the loop of `parse_until_at_expr`: past a whole string
   * literal, over blank text, or over one character. The flag says that the
   * step ran out of text and the loop breaks.
   */
  function ExprStep(s: string, c: Cur): (r: (Cur, bool))
    ensures r.0.index > c.index && r.0.line >= c.line && Parked(s, r.0)
    ensures !r.1 && !r.0.oos ==> r.0.index < |s|
  {
    var (p, ok) := StringLit(s, c);
    if ok then
      var n := Inc(s, p);
      (n, n.index >= |s|)
    else
      var (w, moved) := Whitespace(s, p);
      if moved then (w, false)
      else
        var n := Inc(s, w);
        (n, n.index >= |s|)
  }

  /** The character `ch` is the target `t` at brace depth `b` and parenthesis depth `p`. */
  predicate Hit(ch: char, t: char, b: int, p: int) {
    ch == t && (t != '}' || b < 0) && (t != ')' || p < 0)
  }

  /** The depths after landing on `ch`. */
  function Braces(ch: char, b: int): int {
    if ch == '{' then b + 1 else if ch == '}' then b - 1 else b
  }

  function Parens(ch: char, p: int): int {
    if ch == '(' then p + 1 else if ch == ')' then p - 1 else p
  }

  /**
   * The loop of `parse_until_at_expr` from depths `b` and `p`; the result
   * holds the target reached, if any, and the depths there.
   */
  function ExprLoop(s: string, c: Cur, t1: char, t2: char, b: int, p: int): (r: (Cur, Option<char>, int, int))
    requires Parked(s, c)
    ensures r.0.index >= c.index && Parked(s, r.0)
    ensures r.1.Some? ==> r.1.value == CurrOf(s, r.0)
    ensures r.1.Some? ==> r.2 <= 0 && r.3 <= 0 && (Hit(r.1.value, t1, r.2, r.3) || Hit(r.1.value, t2, r.2, r.3))
    ensures r.1.None? ==> r.0.oos
    decreases if c.oos then 0 else 1, |s| - c.index
  {
    if c.oos then (c, None, b, p)
    else
      var (n, stop) := ExprStep(s, c);
      if stop then (n, None, b, p)
      else
        var ch := CurrOf(s, n);
        var b' := Braces(ch, b);
        var p' := Parens(ch, p);
        if b' <= 0 && p' <= 0 && (Hit(ch, t1, b', p') || Hit(ch, t2, b', p')) then (n, Some(ch), b', p')
        else ExprLoop(s, n, t1, t2, b', p')
  }

  /**
   * `parse_until_at_expr(t1, t2)`: the flag is false when the cursor is
   * already on a target; otherwise the loop runs from depth zero.
   */
  function UntilAtExpr(s: string, c: Cur, t1: char, t2: char): (r: (Cur, bool, Option<char>))
    ensures r.0.index >= c.index && Parked(s, r.0)
    ensures !r.1 <==> c.index < |s| && (CurrOf(s, c) == t1 || CurrOf(s, c) == t2)
    ensures !r.1 ==> r.0 == c && r.2 == Some(CurrOf(s, c))
    ensures r.2.Some? ==> r.2.value == CurrOf(s, r.0) && (r.2.value == t1 || r.2.value == t2)
    ensures r.1 && r.2.None? ==> r.0.oos
  {
    if c.index >= |s| then (ForEnd(s, c), true, None)
    else if CurrOf(s, c) == t1 || CurrOf(s, c) == t2 then (c, false, Some(CurrOf(s, c)))
    else
      var (r, found, _, _) := ExprLoop(s, c, t1, t2, 0, 0);
      (r, true, found)
  }

  /**
   * A character the loop of `parse_until_at_expr` steps over one at a
   * time: no blank, no comment start, no bracket and nothing that can
   * open a string literal.
   */
  predicate PlainChar(ch: char) {
    !IsSpaceChar(ch) && !(ch in {'"', 'u', 'L', 'U', 'R', '{', '}', '(', ')', '/'})
  }

  /** From a plain character the loop moves exactly one position. */
  lemma PlainStep(s: string, c: Cur)
    requires !c.oos && c.index + 1 < |s| && PlainChar(s[c.index])
    ensures ExprStep(s, c) == (Cur(c.index + 1, c.line, false), false)
  {
    NoStringAt(s, c);
    NoBlankAt(s, c);
  }

  /** No string literal starts on a character that cannot open one. */
  lemma NoStringAt(s: string, c: Cur)
    requires !c.oos && c.index < |s| && !(s[c.index] in {'"', 'u', 'L', 'U', 'R'})
    ensures StringLit(s, c) == (c, false)
  {
    assert StringPrefix(s, c) == (c, false, false);
  }

  /** Nothing blank starts on a character that is neither whitespace nor a slash. */
  lemma NoBlankAt(s: string, c: Cur)
    requires !c.oos && c.index < |s| && !IsSpaceChar(s[c.index]) && s[c.index] != '/'
    ensures Whitespace(s, c) == (c, false)
  {
    assert !OnSpace(s, c);
    assert Rest(s, c.index)[0] == s[c.index];
    assert !CommentAhead(s, c.index);
  }

  /**
   * The scan stops no later than the first target `t1` that only plain
   * characters separate from the cursor: no character of that run is
   * skipped unexamined.
   */
  lemma {:induction false} ExprLoopReachesTarget(s: string, c: Cur, t1: char, t2: char, b: int, p: int, k: nat)
    requires !c.oos && c.index < k < |s| && s[k] == t1 && b <= 0 && p <= 0
    requires !(t1 in {'{', '}', '(', ')'})
    requires forall i :: c.index <= i < k ==> PlainChar(s[i])
    ensures var r := ExprLoop(s, c, t1, t2, b, p); r.1.Some? && r.0.index <= k
    decreases k - c.index
  {
    PlainStep(s, c);
    var n := Cur(c.index + 1, c.line, false);
    var ch := s[n.index];
    assert Braces(ch, b) == b && Parens(ch, p) == p;
    if n.index < k && !(Hit(ch, t1, b, p) || Hit(ch, t2, b, p)) {
      ExprLoopReachesTarget(s, n, t1, t2, b, p, k);
    }
  }

  /**
   * A string literal at the cursor is passed whole: the scan ends beyond
   * its closing quote, so no target inside it stops the scan.
   */
  lemma ExprLoopSkipsString(s: string, c: Cur, t1: char, t2: char, b: int, p: int)
    requires Parked(s, c) && StringLit(s, c).1
    ensures ExprLoop(s, c, t1, t2, b, p).0.index > StringLit(s, c).0.index
  {
    assert !c.oos;
  }

  /** `parse_until_at_expr` finds the first target that only plain characters separate from the cursor, or one before it. */
  lemma UntilAtExprReachesTarget(s: string, c: Cur, t1: char, t2: char, k: nat)
    requires !c.oos && c.index < k < |s| && s[k] == t1
    requires !(t1 in {'{', '}', '(', ')'})
    requires forall i :: c.index <= i < k ==> PlainChar(s[i])
    ensures var r := UntilAtExpr(s, c, t1, t2); r.2.Some? && r.0.index <= k
  {
    if !(CurrOf(s, c) == t1 || CurrOf(s, c) == t2) {
      ExprLoopReachesTarget(s, c, t1, t2, 0, 0, k);
    }
  }
}
