// The `do … while` and `do … until` statements
// (src/scope_parser/dowhile_parser.rs).

module DoWhileParsers {
  import opened Text
  import opened Wrappers
  import opened Scan
  import opened Cursor
  import opened Declarations
  import opened Expressions
  import opened Statements

  /** `WhileType`: loop while the condition holds, or until it does. */
  datatype WhileType = While | Until

  /**
   * A `do` loop: its kind, its condition, its body, the lines it starts and
   * ends on, and how many lines below the end of the body its `while` or
   * `until` stands.
   */
  datatype DoWhileStatement = DoWhileStatement(
    whileType: WhileType, condition: Expression, scope: Scope, line: nat, endLine: nat, whileOffset: nat)

  const DoWhileEof := "unexpected end of do_while statement"

  /** `is_do_while_declaration`: the word "do" at `i`. */
  predicate IsDoWhileDeclaration(s: string, i: nat) {
    StartsWithWord(Rest(s, i), "do")
  }

  /** What `DoWhileParser::new` makes of the text at `c`. */
  function DoWhileSpec(s: string, c: Cur, o: StatementOracles): (r: (Cur, DeclResult<DoWhileStatement>))
    requires ScopesForward(o, s)
    ensures r.1.Ok? ==> AsciiName(s, c).1 == "do" && r.1.value.line == c.line && r.1.value.endLine == r.0.line
  {
    var (a, kw, e) := Word(s, c, DoWhileEof);
    if e.Some? then (a, e.value)
    else if kw != "do" then (a, WrongKeyword("\"do\" keyword expected", a, kw))
    else
      var w := Whitespace(s, a).0;
      if w.oos then (w, OutOfSpace(w.index, DoWhileEof))
      else DoBody(s, w, c.line, o)
  }

  /**
   * The body. A braced body records as its closing line the line of the
   * '}' after it, if one follows blank text; otherwise the closing line
   * stays 0. An unbraced body records the line the scope ends on.
   */
  function DoBody(s: string, w: Cur, line: nat, o: StatementOracles): (r: (Cur, DeclResult<DoWhileStatement>))
    requires Parked(s, w) && ScopesForward(o, s)
    ensures r.1.Ok? ==> r.1.value.line == line && r.1.value.endLine == r.0.line
    ensures r.1.Ok? ==> (CurrOf(s, w) == '{' <==> r.1.value.scope.limit.None?)
  {
    if CurrOf(s, w) == '{' then
      var scope := Scope(None, w.index + 1, w.line);
      var u := o.parseScope(s, w, None);
      var v := Whitespace(s, u).0;
      if v.oos then (v, OutOfSpace(v.index, DoWhileEof))
      else if CurrOf(s, v) == '}' then
        var n := Inc(s, v);
        if n.index >= |s| then (n, OutOfSpace(n.index, DoWhileEof))
        else DoTail(s, n, v.line, scope, line, o)
      else DoTail(s, v, 0, scope, line, o)
    else
      var u := o.parseScope(s, w, Some(1));
      DoTail(s, u, u.line, Scope(Some(1), w.index, w.line), line, o)
  }

  /** The `while` or `until` keyword after the body; the offset is taken once blank text is skipped. */
  function DoTail(s: string, t: Cur, closeLine: nat, scope: Scope, line: nat, o: StatementOracles): (r: (Cur, DeclResult<DoWhileStatement>))
    requires closeLine <= t.line
    ensures r.1.Ok? ==> r.1.value.line == line && r.1.value.endLine == r.0.line && r.1.value.scope == scope
  {
    var x := Whitespace(s, t).0;
    if x.oos then (x, OutOfSpace(x.index, DoWhileEof))
    else DoKeyword(s, x, closeLine, scope, line, o)
  }

  /** The keyword itself; the offset is how far below the body's closing line it stands. */
  function DoKeyword(s: string, x: Cur, closeLine: nat, scope: Scope, line: nat, o: StatementOracles): (r: (Cur, DeclResult<DoWhileStatement>))
    requires closeLine <= x.line
    ensures r.1.Ok? ==> r.1.value.line == line && r.1.value.endLine == r.0.line && r.1.value.scope == scope
  {
    var (a, kw, e) := Word(s, x, DoWhileEof);
    if e.Some? then (a, e.value)
    else if kw != "while" && kw != "until" then (a, WrongKeyword("\"while\" or \"until\" keyword expected", a, kw))
    else DoCondition(s, a, if kw == "until" then Until else While, x.line - closeLine, scope, line, o)
  }

  /** The condition, wanted boolean, and the ';' that ends the statement. */
  function DoCondition(s: string, a: Cur, kind: WhileType, offset: nat, scope: Scope, line: nat, o: StatementOracles): (r: (Cur, DeclResult<DoWhileStatement>))
    ensures r.1.Ok? ==> r.1.value == DoWhileStatement(kind, o.parseExpression(s, Whitespace(s, a).0, Some(o.boolean)).1, scope, line, r.0.line, offset)
  {
    var y := Whitespace(s, a).0;
    if y.oos then (y, OutOfSpace(y.index, DoWhileEof))
    else
      var (z, cond, reason) := o.parseExpression(s, y, Some(o.boolean));
      var f := ConditionFailure<DoWhileStatement>(reason, z);
      if f.Some? then (z, f.value)
      else
        var q := Whitespace(s, z).0;
        if q.oos then (q, OutOfSpace(q.index, DoWhileEof))
        else if CurrOf(s, q) != ';' then (q, Err("Unexpected Symbol", "expected ';' operator", q.index, q.index + 1))
        else
          var n := Inc(s, q);
          if n.index >= |s| then (n, OutOfSpace(n.index, DoWhileEof))
          else (n, Ok(DoWhileStatement(kind, cond, scope, line, n.line, offset)))
  }

  lemma DoTailEnd(s: string, t: Cur, closeLine: nat, scope: Scope, line: nat, o: StatementOracles)
    requires closeLine <= t.line && Whitespace(s, t).0.oos
    ensures DoTail(s, t, closeLine, scope, line, o) == (Whitespace(s, t).0, OutOfSpace(Whitespace(s, t).0.index, DoWhileEof))
  {
  }

  /** `DoWhileParser::new`. */
  method NewDoWhile(p: Parser, o: StatementOracles) returns (r: DeclResult<DoWhileStatement>)
    requires ScopesForward(o, p.chars)
    modifies p
    ensures (p.State(), r) == DoWhileSpec(p.chars, old(p.State()), o)
  {
    var initialLine := p.line;
    var keyword, e := ParseAscii<DoWhileStatement>(p, DoWhileEof);
    if e.Some? {
      return e.value;
    }
    if keyword != "do" {
      return Err("Unexpected Keyword", "\"do\" keyword expected", p.index - |keyword|, p.index);
    }
    e := SkipWhitespace(p, DoWhileEof);
    if e.Some? {
      return e.value;
    }
    r := ParseDoBody(p, initialLine, o);
  }

  method ParseDoBody(p: Parser, line: nat, o: StatementOracles) returns (r: DeclResult<DoWhileStatement>)
    requires p.Parked() && ScopesForward(o, p.chars)
    modifies p
    ensures (p.State(), r) == DoBody(p.chars, old(p.State()), line, o)
  {
    var closeLine := 0;
    var scope;
    if p.Curr() == '{' {
      scope := Scope(None, p.index + 1, p.line);
      p.MoveTo(o.parseScope(p.chars, p.State(), None));
      var e := SkipWhitespace<DoWhileStatement>(p, DoWhileEof);
      if e.Some? {
        return e.value;
      }
      if p.Curr() == '}' {
        closeLine := p.line;
        var next;
        next, e := RequireNextChar(p, '}', "expected '}' operator", DoWhileEof);
        if e.Some? {
          return e.value;
        }
      }
    } else {
      scope := Scope(Some(1), p.index, p.line);
      p.MoveTo(o.parseScope(p.chars, p.State(), Some(1)));
      closeLine := p.line;
    }
    r := ParseDoTail(p, closeLine, scope, line, o);
  }

  method ParseDoTail(p: Parser, closeLine: nat, scope: Scope, line: nat, o: StatementOracles) returns (r: DeclResult<DoWhileStatement>)
    requires closeLine <= p.line
    modifies p
    ensures (p.State(), r) == DoTail(p.chars, old(p.State()), closeLine, scope, line, o)
  {
    ghost var t := p.State();
    var e := SkipWhitespace<DoWhileStatement>(p, DoWhileEof);
    if e.Some? {
      DoTailEnd(p.chars, t, closeLine, scope, line, o);
      return e.value;
    }
    r := ParseDoKeyword(p, closeLine, scope, line, o);
  }

  method ParseDoKeyword(p: Parser, closeLine: nat, scope: Scope, line: nat, o: StatementOracles) returns (r: DeclResult<DoWhileStatement>)
    requires closeLine <= p.line
    modifies p
    ensures (p.State(), r) == DoKeyword(p.chars, old(p.State()), closeLine, scope, line, o)
  {
    var whileLine := p.line - closeLine;
    var kind := While;
    var keyword, e := ParseAscii<DoWhileStatement>(p, DoWhileEof);
    if e.Some? {
      return e.value;
    }
    if keyword != "while" && keyword != "until" {
      return Err("Unexpected Keyword", "\"while\" or \"until\" keyword expected", p.index - |keyword|, p.index);
    }
    if keyword == "until" {
      kind := Until;
    }
    r := ParseDoCondition(p, kind, whileLine, scope, line, o);
  }

  method ParseDoCondition(p: Parser, kind: WhileType, offset: nat, scope: Scope, line: nat, o: StatementOracles) returns (r: DeclResult<DoWhileStatement>)
    modifies p
    ensures (p.State(), r) == DoCondition(p.chars, old(p.State()), kind, offset, scope, line, o)
  {
    var e := SkipWhitespace<DoWhileStatement>(p, DoWhileEof);
    if e.Some? {
      return e.value;
    }
    var cond, reason := ParseExpression(p, o, Some(o.boolean));
    var f := ConditionFailure<DoWhileStatement>(reason, p.State());
    if f.Some? {
      return f.value;
    }
    e := SkipWhitespace(p, DoWhileEof);
    if e.Some? {
      return e.value;
    }
    var next;
    next, e := RequireNextChar(p, ';', "expected ';' operator", DoWhileEof);
    if e.Some? {
      return e.value;
    }
    return Ok(DoWhileStatement(kind, cond, scope, line, p.line, offset));
  }

  /**
   * "while" after the body gives `While` and "until" gives `Until`; any
   * other word there is "Unexpected Keyword" over that word.
   */
  lemma DoTailKeyword(s: string, t: Cur, closeLine: nat, scope: Scope, line: nat, o: StatementOracles)
    requires closeLine <= t.line
    ensures var x := Whitespace(s, t).0;
      var (a, kw) := AsciiName(s, x);
      var (u, r) := DoTail(s, t, closeLine, scope, line, o);
      (r.Ok? ==> !x.oos && (kw == "while" ==> r.value.whileType == While) && (kw == "until" ==> r.value.whileType == Until) &&
                 r.value.whileOffset == x.line - closeLine) &&
      (!x.oos && kw != "" && !a.oos && kw != "while" && kw != "until" ==>
        u == a && r == Err("Unexpected Keyword", "\"while\" or \"until\" keyword expected", x.index, a.index))
  {
  }

  /**
   * For an unbraced body the offset counts the lines between where the
   * scope ended and the `while`; for a braced one, the lines between the
   * closing '}' and the `while`.
   */
  lemma DoWhileOffset(s: string, w: Cur, line: nat, o: StatementOracles)
    requires Parked(s, w) && ScopesForward(o, s)
    ensures var (u, r) := DoBody(s, w, line, o);
      r.Ok? && CurrOf(s, w) != '{' ==>
        var e := o.parseScope(s, w, Some(1));
        r.value.whileOffset == Whitespace(s, e).0.line - e.line
  {
  }

  /** The statement must end with ';'; without one the error points at what stands there instead. */
  lemma DoWhileNeedsSemicolon(s: string, a: Cur, kind: WhileType, offset: nat, scope: Scope, line: nat, o: StatementOracles)
    ensures var (u, r) := DoCondition(s, a, kind, offset, scope, line, o);
      r.Ok? ==> u.index >= 1 && s[u.index - 1] == ';'
  {
  }
}
