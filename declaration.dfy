// Declaration results and the shared parsing steps every declaration
// parser uses (src/declaration_parser/declaration.rs).

module Declarations {
  import opened Text
  import opened Wrappers
  import opened Scan
  import opened TypeScan
  import opened VariableTypes
  import opened Cursor

  /**
   * `DeclarationResult`: a parsed declaration, or an error with a title,
   * a message and the span [start, end) it points at. The span bounds are
   * integers: `index - 1` at index 0 is -1 here where the source's `usize`
   * arithmetic would underflow.
   */
  datatype DeclResult<T> = Ok(value: T) | Err(title: string, msg: string, start: int, end: int)
  {
    predicate IsOk() { this.Ok? }

    predicate IsError() { !IsOk() }

    /** `unwrap`/`unwrap_and_move`, which panic on an error. */
    function Unwrap(): T
      requires IsOk()
    {
      value
    }

    /** The same outcome with the parsed value passed through `f`; an error is kept as it is. */
    function MapOk<U>(f: T -> U): (r: DeclResult<U>)
      ensures r.Ok? <==> this.Ok?
      ensures r.Err? ==> r == Err(title, msg, start, end)
    {
      match this
      case Ok(v) => Ok(f(v))
      case Err(t, m, a, b) => Err(t, m, a, b)
    }
  }

  /** `out_of_space`: "Unexpected End" over the character before `index`. */
  function OutOfSpace<T>(index: int, eofMsg: string): DeclResult<T> {
    Err("Unexpected End", eofMsg, index - 1, index)
  }

  /** `unexpected_character`: "Unexpected Symbol" over the character at `index`. */
  function UnexpectedCharacter<T>(index: int): DeclResult<T> {
    Err("Unexpected Symbol", "unexpected symbol", index, index + 1)
  }

  /** `is_error` is the negation of `is_ok`, and an error carries a title, a message and a span. */
  lemma ErrorIsNotOk<T>(r: DeclResult<T>)
    ensures r.IsError() <==> r.Err?
    ensures OutOfSpace<T>(7, "m").IsError() && UnexpectedCharacter<T>(7).IsError()
  {
  }

  /** The two spans: the end error covers the character before the cursor, the symbol error the one at it. */
  lemma ErrorSpans<T>(index: int, eofMsg: string)
    ensures var e := OutOfSpace<T>(index, eofMsg);
      e.Err? && e.title == "Unexpected End" && e.msg == eofMsg && e.end - e.start == 1 && e.end == index
    ensures var e := UnexpectedCharacter<T>(index);
      e.Err? && e.title == "Unexpected Symbol" && e.end - e.start == 1 && e.start == index
  {
  }

  /** The error a parsing step reports once the end flag is set, if any. */
  function EndCheck<T>(c: Cur, eofMsg: string): Option<DeclResult<T>> {
    if c.oos then Some(OutOfSpace(c.index, eofMsg)) else None
  }

  /** `increment_parser`: one step; the end error when that sets the end flag. */
  method IncrementParser<T>(p: Parser, eofMsg: string) returns (r: Option<DeclResult<T>>)
    modifies p
    ensures p.State() == Inc(p.chars, old(p.State()))
    ensures r == EndCheck(p.State(), eofMsg)
  {
    var _ := p.Increment();
    if p.outOfSpace {
      return Some(OutOfSpace(p.index, eofMsg));
    }
    return None;
  }

  /** `parse_whitespace` (the trait's): skips blank text; the end error when that reaches the end. */
  method SkipWhitespace<T>(p: Parser, eofMsg: string) returns (r: Option<DeclResult<T>>)
    modifies p
    ensures p.State() == Whitespace(p.chars, old(p.State())).0
    ensures r == EndCheck(p.State(), eofMsg)
  {
    var _ := p.ParseWhitespace();
    if p.outOfSpace {
      return Some(OutOfSpace(p.index, eofMsg));
    }
    return None;
  }

  /** `parse_required_whitespace`: "Expected Space" when nothing blank follows. */
  method RequireWhitespace<T>(p: Parser, eofMsg: string) returns (r: Option<DeclResult<T>>)
    modifies p
    ensures p.State() == Whitespace(p.chars, old(p.State())).0
    ensures !Whitespace(p.chars, old(p.State())).1 ==> r == Some(Err("Expected Space", "whitspace expected here", p.index - 1, p.index))
    ensures Whitespace(p.chars, old(p.State())).1 ==> r == EndCheck(p.State(), eofMsg)
  {
    var skipped := p.ParseWhitespace();
    if !skipped {
      return Some(Err("Expected Space", "whitspace expected here", p.index - 1, p.index));
    }
    if p.outOfSpace {
      return Some(OutOfSpace(p.index, eofMsg));
    }
    return None;
  }

  /**
   * `parse_required_ascii`: an identifier; the given error when there is
   * none, the end error when it runs to the end of the text.
   */
  method RequireAscii<T>(p: Parser, title: string, msg: string, eofMsg: string) returns (name: string, r: Option<DeclResult<T>>)
    modifies p
    ensures (p.State(), name) == AsciiName(p.chars, old(p.State()))
    ensures name == "" ==> r == Some(Err(title, msg, p.index - 1, p.index))
    ensures name != "" ==> r == EndCheck(p.State(), eofMsg)
  {
    name := p.ParseAsciiCharName();
    if name == "" {
      return name, Some(Err(title, msg, p.index - 1, p.index));
    } else if p.outOfSpace {
      return name, Some(OutOfSpace(p.index, eofMsg));
    }
    return name, None;
  }

  /** `parse_ascii`: `parse_required_ascii` with the "Expected Identifier" error. */
  method ParseAscii<T>(p: Parser, eofMsg: string) returns (name: string, r: Option<DeclResult<T>>)
    modifies p
    ensures (p.State(), name) == AsciiName(p.chars, old(p.State()))
    ensures name == "" ==> r == Some(Err("Expected Identifier", "ascii identifier expected here", p.index - 1, p.index))
    ensures name != "" ==> r == EndCheck(p.State(), eofMsg)
  {
    name, r := RequireAscii(p, "Expected Identifier", "ascii identifier expected here", eofMsg);
  }

  /**
   * `parse_required_next_char`: steps over `c` when the cursor is on it;
   * otherwise "Unexpected Symbol" at the cursor, which does not move.
   */
  method RequireNextChar<T>(p: Parser, c: char, errMsg: string, eofMsg: string) returns (next: char, r: Option<DeclResult<T>>)
    requires p.Parked()
    modifies p
    ensures next == CurrOf(p.chars, old(p.State()))
    ensures next == c ==> p.State() == Inc(p.chars, old(p.State()))
    ensures next == c ==> r == (if p.index >= |p.chars| then Some(OutOfSpace(p.index, eofMsg)) else None)
    ensures next != c ==> p.State() == old(p.State()) && r == Some(Err("Unexpected Symbol", errMsg, p.index, p.index + 1))
  {
    next := p.Curr();
    if next == c {
      var atEnd := p.Increment();
      if atEnd {
        return next, Some(OutOfSpace(p.index, eofMsg));
      }
    } else {
      return next, Some(Err("Unexpected Symbol", errMsg, p.index, p.index + 1));
    }
    return next, None;
  }

  /** `declare_parse_until_char!`: to the next `ch`; the end error when there is none. */
  method UntilCharOrFail<T>(p: Parser, ch: char, eofMsg: string) returns (r: Option<DeclResult<T>>)
    modifies p
    ensures p.State() == UntilChar(p.chars, old(p.State()), ch).0
    ensures r == EndCheck(p.State(), eofMsg)
  {
    var _ := p.ParseUntil(ch);
    if p.outOfSpace {
      return Some(OutOfSpace(p.index, eofMsg));
    }
    return None;
  }

  /**
   * `declare_parse_expr_until_next_char!` (`c1 == c2`) and
   * `declare_parse_expr_until_either_char!`: to `c1` or `c2` at depth zero.
   */
  method ExprUntilOrFail<T>(p: Parser, c1: char, c2: char, eofMsg: string) returns (found: Option<char>, r: Option<DeclResult<T>>)
    modifies p
    ensures p.State() == UntilAtExpr(p.chars, old(p.State()), c1, c2).0
    ensures found == UntilAtExpr(p.chars, old(p.State()), c1, c2).2
    ensures r == EndCheck(p.State(), eofMsg)
  {
    var _, f := p.ParseUntilAtExpr(c1, c2);
    found := f;
    if p.outOfSpace {
      return found, Some(OutOfSpace(p.index, eofMsg));
    }
    return found, None;
  }

  /** No error reported yet: the flags a type parse starts from. */
  const NoFlags := Flags(false, None)

  /**
   * The error `declare_parse_type!` reports after a type parse: a
   * specifier conflict first, then an unexpected character, then the end.
   */
  function TypeFailure<T>(f: Flags, c: Cur, eofMsg: string): Option<DeclResult<T>> {
    if f.conflict.Some? then Some(Err("Specifier Error", f.conflict.value, c.index - 1, c.index))
    else if f.unexpected then Some(Err("Unexpected Character", "unexpected character here", c.index - 1, c.index))
    else EndCheck(c, eofMsg)
  }

  /** `declare_parse_type!`. */
  method TypeOrFail<T>(p: Parser, eofMsg: string) returns (t: Type, r: Option<DeclResult<T>>)
    modifies p
    ensures var pt := PType(p.chars, old(p.State()), NoFlags);
      p.State() == pt.cur && t == pt.t && r == TypeFailure(pt.flags, pt.cur, eofMsg)
  {
    var g;
    t, g := p.ParseType(NoFlags);
    r := TypeFailure(g, p.State(), eofMsg);
  }

  /** `declare_parse_type_and_style!`. */
  method TypeAndStyleOrFail<T>(p: Parser, eofMsg: string) returns (style: VarStyle, t: Type, r: Option<DeclResult<T>>)
    modifies p
    ensures var st := PTypeStyle(p.chars, old(p.State()), NoFlags);
      p.State() == st.cur && style == st.style && t == st.t && r == TypeFailure(st.flags, st.cur, eofMsg)
  {
    var optional, g;
    style, t, optional, g := p.ParseTypeAndStyle(NoFlags);
    r := TypeFailure(g, p.State(), eofMsg);
  }

  // ----- keywords at the cursor -----

  /** `word` can be read whole by `parse_ascii_char_name`. */
  predicate IsIdentifier(word: string) {
    |word| > 0 && IsVarChar(word[0], true) && forall k :: 0 < k < |word| ==> IsVarTail(word[k])
  }

  /**
   * A keyword the text starts with at a word boundary is exactly the name
   * `parse_ascii_char_name` reads there; this is what the recognisers
   * promise the parsers they guard.
   */
  lemma KeywordIsName(s: string, c: Cur, word: string)
    requires !c.oos && IsIdentifier(word)
    requires StartsWith(Rest(s, c.index), word)
    requires c.index + |word| == |s| || !IsVarTail(s[c.index + |word|])
    ensures AsciiName(s, c).1 == word && AsciiName(s, c).0.index == c.index + |word|
    ensures AsciiName(s, c).0.oos <==> c.index + |word| == |s|
  {
    var j := c.index + |word|;
    assert s[c.index..j] == word;
    forall k | c.index + 1 <= k < j
      ensures IsVarTail(s[k])
    {
      assert s[k] == word[k - c.index];
    }
    SpanUnique(s, c.index + 1, j, IsVarTail);
  }

  /**
   * A keyword followed by a blank: the name read is the keyword, and
   * `parse_required_whitespace` then finds the blank it needs.
   */
  lemma KeywordThenSpace(s: string, c: Cur, word: string)
    requires !c.oos && IsIdentifier(word)
    requires StartsWith(Rest(s, c.index), word + " ")
    ensures AsciiName(s, c) == (Cur(c.index + |word|, c.line, false), word)
    ensures Whitespace(s, AsciiName(s, c).0).1
  {
    assert Rest(s, c.index)[|word|] == ' ';
    assert Rest(s, c.index)[..|word|] == (word + " ")[..|word|] == word;
    KeywordIsName(s, c, word);
  }

  // ----- a keyword, blank text and a path up to ';' -----

  /**
   * The shape `import` and `assume` share: `keyword`, required blank text,
   * and the path up to the next ';', which stays unread. The result is the
   * cursor after the parse and the path or the error.
   */
  function KeywordPath(s: string, c: Cur, keyword: string, kwMsg: string, eofMsg: string): (r: (Cur, DeclResult<string>))
    ensures Parked(s, r.0) && r.0.index >= c.index
    ensures AsciiName(s, c).1 != "" ==> r.0.index > c.index
  {
    var (a, kw) := AsciiName(s, c);
    if kw == "" then (a, Err("Expected Identifier", "ascii identifier expected here", a.index - 1, a.index))
    else if a.oos then (a, OutOfSpace(a.index, eofMsg))
    else if kw != keyword then (a, Err("Unexpected Keyword", kwMsg, a.index - |kw|, a.index))
    else PathAfter(s, a, eofMsg)
  }

  /** Required blank text, then the path up to the next ';'. */
  function PathAfter(s: string, a: Cur, eofMsg: string): (r: (Cur, DeclResult<string>))
    ensures Parked(s, r.0) && r.0.index >= a.index
  {
    var (w, skipped) := Whitespace(s, a);
    if !skipped then (w, Err("Expected Space", "whitspace expected here", w.index - 1, w.index))
    else if w.oos then (w, OutOfSpace(w.index, eofMsg))
    else PathFrom(s, w, eofMsg)
  }

  /** The text from `w` up to the next ';', which stays unread; the end error when there is none. */
  function PathFrom(s: string, w: Cur, eofMsg: string): (r: (Cur, DeclResult<string>))
    ensures Parked(s, r.0) && r.0.index >= w.index
  {
    var u := UntilChar(s, w, ';').0;
    if u.oos then (u, OutOfSpace(u.index, eofMsg))
    else (u, Ok(s[w.index..u.index]))
  }

  /** The path part of `import` and `assume`: blank text, then everything up to the next ';'. */
  method ParsePath(p: Parser, eofMsg: string) returns (r: DeclResult<string>)
    modifies p
    ensures (p.State(), r) == PathAfter(p.chars, old(p.State()), eofMsg)
  {
    var e := RequireWhitespace<string>(p, eofMsg);
    if e.Some? {
      return e.value;
    }
    r := ParsePathFrom(p, eofMsg);
  }

  /** Everything up to the next ';'. */
  method ParsePathFrom(p: Parser, eofMsg: string) returns (r: DeclResult<string>)
    modifies p
    ensures (p.State(), r) == PathFrom(p.chars, old(p.State()), eofMsg)
  {
    var start := p.index;
    var e := UntilCharOrFail<string>(p, ';', eofMsg);
    if e.Some? {
      return e.value;
    }
    return Ok(p.chars[start..p.index]);
  }

  /**
   * The parse succeeds exactly when the word read is `keyword`, blank text
   * follows it, and a ';' comes later; the path is then everything between
   * the blank text and the first ';', and the cursor stops on that ';'.
   */
  lemma KeywordPathMeaning(s: string, c: Cur, keyword: string, kwMsg: string, eofMsg: string)
    ensures var (a, kw) := AsciiName(s, c);
      var (w, skipped) := Whitespace(s, a);
      var (u, r) := KeywordPath(s, c, keyword, kwMsg, eofMsg);
      (r.Ok? <==> kw == keyword && kw != "" && !a.oos && skipped && !w.oos && ';' in s[w.index..]) &&
      (r.Ok? ==> u.index < |s| && s[u.index] == ';' && r.value == s[w.index..u.index] && ';' !in r.value)
  {
    var (a, kw) := AsciiName(s, c);
    var (w, skipped) := Whitespace(s, a);
    if kw == keyword && kw != "" && !a.oos && skipped && !w.oos {
      UntilCharFound(s, w, ';');
    }
  }

  /**
   * Text starting with the keyword and a blank gets past both; the path is
   * then read exactly when a ';' follows, and it is the text up to the first one.
   */
  lemma KeywordPathRecognised(s: string, c: Cur, keyword: string, kwMsg: string, eofMsg: string)
    requires !c.oos && IsIdentifier(keyword)
    requires StartsWith(Rest(s, c.index), keyword + " ")
    ensures var w := Whitespace(s, Cur(c.index + |keyword|, c.line, false)).0;
      var (u, r) := KeywordPath(s, c, keyword, kwMsg, eofMsg);
      (r.Ok? <==> !w.oos && ';' in s[w.index..]) &&
      (r.Ok? ==> w.index <= u.index < |s| && r.value == s[w.index..u.index] && s[u.index] == ';' && ';' !in r.value)
  {
    KeywordThenSpace(s, c, keyword);
    KeywordPathMeaning(s, c, keyword, kwMsg, eofMsg);
  }

  /** A wrong keyword is reported over the word read, which is consumed. */
  lemma KeywordPathWrongKeyword(s: string, c: Cur, keyword: string, kwMsg: string, eofMsg: string)
    requires AsciiName(s, c).1 != "" && !AsciiName(s, c).0.oos && AsciiName(s, c).1 != keyword
    ensures KeywordPath(s, c, keyword, kwMsg, eofMsg) == (AsciiName(s, c).0, Err("Unexpected Keyword", kwMsg, c.index, c.index + |AsciiName(s, c).1|))
  {
  }

  /**
   * The items a loop read before a step go in front of those the rest of
   * the loop reads; an error passes through unchanged.
   */
  function PrependAll<T>(xs: seq<T>, r: (Cur, DeclResult<seq<T>>)): (Cur, DeclResult<seq<T>>) {
    if r.1.Ok? then (r.0, Ok(xs + r.1.value)) else r
  }

  lemma PrependAllEmpty<T>(r: (Cur, DeclResult<seq<T>>))
    ensures PrependAll([], r) == r
  {
    if r.1.Ok? {
      assert [] + r.1.value == r.1.value;
    }
  }

  lemma PrependAllTwice<T>(xs: seq<T>, x: T, r: (Cur, DeclResult<seq<T>>))
    ensures PrependAll(xs + [x], r) == PrependAll(xs, PrependAll([x], r))
  {
    if r.1.Ok? {
      assert (xs + [x]) + r.1.value == xs + ([x] + r.1.value);
    }
  }
}
