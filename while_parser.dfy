// The `while` statement (src/scope_parser/while_parser.rs).

module WhileParsers {
  import opened Text
  import opened Wrappers
  import opened Scan
  import opened Cursor
  import opened Declarations
  import opened Expressions
  import opened Statements

  /** A `while` loop: its condition, its body, and the lines it starts and ends on. */
  datatype WhileStatement = WhileStatement(condition: Expression, scope: Scope, line: nat, endLine: nat)

  const WhileEof := "unexpected end of while statement"

  /** `is_while_declaration`: the text at `i` starts with "while " or "while(". */
  predicate IsWhileDeclaration(s: string, i: nat) {
    StartsWith(Rest(s, i), "while ") || StartsWith(Rest(s, i), "while(")
  }

  /** What `WhileParser::new` makes of the text at `c`. */
  function WhileSpec(s: string, c: Cur, o: StatementOracles): (r: (Cur, DeclResult<WhileStatement>))
    requires ScopesForward(o, s)
    ensures r.1.Ok? ==> AsciiName(s, c).1 == "while" && r.1.value.line == c.line
    ensures r.1.Ok? ==> r.1.value.endLine == r.0.line
  {
    var (a, kw, e) := Word(s, c, WhileEof);
    if e.Some? then (a, e.value)
    else if kw != "while" then (a, WrongKeyword("\"while\" keyword expected", a, kw))
    else
      var w := Whitespace(s, a).0;
      if w.oos then (w, OutOfSpace(w.index, WhileEof))
      else WhileCondition(s, w, c.line, o)
  }

  /** The condition, wanted boolean, then the body. */
  function WhileCondition(s: string, w: Cur, line: nat, o: StatementOracles): (r: (Cur, DeclResult<WhileStatement>))
    requires ScopesForward(o, s)
    ensures r.1.Ok? ==> r.1.value.line == line && r.1.value.endLine == r.0.line
  {
    var (x, cond, reason) := o.parseExpression(s, w, Some(o.boolean));
    var f := ConditionFailure<WhileStatement>(reason, x);
    if f.Some? then (x, f.value)
    else
      var v := Whitespace(s, x).0;
      if v.oos then (v, OutOfSpace(v.index, WhileEof))
      else
        var (u, scope) := Body(s, v, o);
        (u, Ok(WhileStatement(cond, scope, line, u.line)))
  }

  /** `WhileParser::new`. */
  method NewWhile(p: Parser, o: StatementOracles) returns (r: DeclResult<WhileStatement>)
    requires ScopesForward(o, p.chars)
    modifies p
    ensures (p.State(), r) == WhileSpec(p.chars, old(p.State()), o)
  {
    var initialLine := p.line;
    var keyword, e := ParseAscii<WhileStatement>(p, WhileEof);
    if e.Some? {
      return e.value;
    }
    if keyword != "while" {
      return Err("Unexpected Keyword", "\"while\" keyword expected", p.index - |keyword|, p.index);
    }
    e := SkipWhitespace(p, WhileEof);
    if e.Some? {
      return e.value;
    }
    r := ParseWhileCondition(p, initialLine, o);
  }

  method ParseWhileCondition(p: Parser, line: nat, o: StatementOracles) returns (r: DeclResult<WhileStatement>)
    requires ScopesForward(o, p.chars)
    modifies p
    ensures (p.State(), r) == WhileCondition(p.chars, old(p.State()), line, o)
  {
    var cond, reason := ParseExpression(p, o, Some(o.boolean));
    var f := ConditionFailure<WhileStatement>(reason, p.State());
    if f.Some? {
      return f.value;
    }
    var e := SkipWhitespace<WhileStatement>(p, WhileEof);
    if e.Some? {
      return e.value;
    }
    var scope := ParseBody(p, o);
    return Ok(WhileStatement(cond, scope, line, p.line));
  }

  /**
   * The condition's end reason decides: Unknown, EndOfContent and
   * NoValueError fail the statement, over the character before where the
   * condition stopped; any other reason leads on to the body.
   */
  lemma WhileConditionReasons(s: string, w: Cur, line: nat, o: StatementOracles)
    requires ScopesForward(o, s)
    ensures var (x, _, reason) := o.parseExpression(s, w, Some(o.boolean));
      var (u, r) := WhileCondition(s, w, line, o);
      (reason.Unknown? || reason.EndOfContent? || reason.NoValueError? ==>
        u == x && r.Err? && r.start == x.index - 1 && r.end == x.index) &&
      (reason.ReachedChar? || reason.EndOfExpression? ==>
        (r.Ok? <==> !Whitespace(s, x).0.oos))
  {
  }

  /**
   * A successful parse read the keyword "while", asked for a boolean
   * condition, and its body is braced exactly when a '{' follows the
   * condition; a braced body's scope starts just after that brace.
   */
  lemma WhileShape(s: string, c: Cur, o: StatementOracles)
    requires ScopesForward(o, s)
    ensures var (u, r) := WhileSpec(s, c, o);
      r.Ok? ==>
        var a := AsciiName(s, c).0;
        var w := Whitespace(s, a).0;
        var (x, cond, _) := o.parseExpression(s, w, Some(o.boolean));
        var v := Whitespace(s, x).0;
        r.value.condition == cond && !v.oos &&
        (r.value.scope.limit.None? <==> s[v.index] == '{') &&
        (r.value.scope.limit.None? ==> r.value.scope.start == v.index + 1) &&
        r.value.scope.line == v.line
  {
  }

  /** "while" must be followed by a blank or '(' to be recognised; "whilex" and a bare "while" at the end are not. */
  lemma WhileRecognition(s: string, i: nat)
    ensures IsWhileDeclaration("while (x)", 0) && IsWhileDeclaration("while(x)", 0)
    ensures !IsWhileDeclaration("whilex", 0) && !IsWhileDeclaration("while", 0)
    ensures IsWhileDeclaration(s, i) <==> i + 6 <= |s| && s[i..i + 5] == "while" && (s[i + 5] == ' ' || s[i + 5] == '(')
  {
    assert Rest("whilex", 0) == "whilex";
    assert "whilex"[..6][5] == 'x';
    assert Rest("while", 0) == "while";
    if i + 6 <= |s| {
      var r := Rest(s, i);
      assert r[..6] == s[i..i + 6];
      assert r[..6][..5] == s[i..i + 5];
      assert r[..6][5] == s[i + 5];
    }
  }
}
