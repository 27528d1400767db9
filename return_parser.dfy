// The `return` statement (src/scope_parser/return_parser.rs).

module ReturnParsers {
  import opened Text
  import opened Wrappers
  import opened Scan
  import opened Cursor
  import opened Declarations
  import opened VariableTypes
  import opened Expressions
  import opened Statements

  /** A `return`: the value returned, if any, and the line it is on. */
  datatype ReturnStatement = ReturnStatement(value: Option<Expression>, line: nat)

  const ReturnEof := "unexpected end of return statement"

  /** `is_return_declaration`: the word "return" at `i`. */
  predicate IsReturnDeclaration(s: string, i: nat) {
    StartsWithWord(Rest(s, i), "return")
  }

  /** `to_cpp`: a return statement contributes no text of its own. */
  function ReturnToCpp(r: ReturnStatement): (out: string)
    ensures out == ""
  {
    ""
  }

  /** What `ReturnParser::new` makes of the text at `c`, the value wanted being `expected`. */
  function ReturnSpec(s: string, c: Cur, o: StatementOracles, expected: Option<VariableType>): (r: (Cur, DeclResult<ReturnStatement>))
    ensures r.1.Ok? ==> AsciiName(s, c).1 == "return" && r.1.value.line == c.line
  {
    var (a, kw, e) := Word(s, c, ReturnEof);
    if e.Some? then (a, e.value)
    else if kw != "return" then (a, WrongKeyword("\"return\" keyword expected", a, kw))
    else
      var w := Whitespace(s, a).0;
      if w.oos then (w, OutOfSpace(w.index, ReturnEof))
      else if CurrOf(s, w) == ';' then (w, Ok(ReturnStatement(None, c.line)))
      else ReturnValue(s, w, c.line, o, expected)
  }

  /** The returned value and, after the expression's end, the ';' that must follow. */
  function ReturnValue(s: string, w: Cur, line: nat, o: StatementOracles, expected: Option<VariableType>): (r: (Cur, DeclResult<ReturnStatement>))
    ensures r.1.Ok? ==> r.1.value == ReturnStatement(Some(o.parseExpression(s, w, expected).1), line)
  {
    var (x, value, reason) := o.parseExpression(s, w, expected);
    var f := ConditionFailure<ReturnStatement>(reason, x);
    if f.Some? then (x, f.value)
    else if reason.EndOfExpression? then
      var v := Whitespace(s, x).0;
      if v.oos then (v, OutOfSpace(v.index, ReturnEof))
      else if CurrOf(s, v) != ';' then (v, Err("Semicolon Needed", "there should be a ; here", x.index - 1, x.index))
      else (v, Ok(ReturnStatement(Some(value), line)))
    else (x, Ok(ReturnStatement(Some(value), line)))
  }

  /** `ReturnParser::new`. */
  method NewReturn(p: Parser, o: StatementOracles, expected: Option<VariableType>) returns (r: DeclResult<ReturnStatement>)
    modifies p
    ensures (p.State(), r) == ReturnSpec(p.chars, old(p.State()), o, expected)
  {
    var initialLine := p.line;
    var keyword, e := ParseAscii<ReturnStatement>(p, ReturnEof);
    if e.Some? {
      return e.value;
    }
    if keyword != "return" {
      return Err("Unexpected Keyword", "\"return\" keyword expected", p.index - |keyword|, p.index);
    }
    e := SkipWhitespace(p, ReturnEof);
    if e.Some? {
      return e.value;
    }
    if p.Curr() == ';' {
      return Ok(ReturnStatement(None, initialLine));
    }
    r := ParseReturnValue(p, initialLine, o, expected);
  }

  method ParseReturnValue(p: Parser, line: nat, o: StatementOracles, expected: Option<VariableType>) returns (r: DeclResult<ReturnStatement>)
    modifies p
    ensures (p.State(), r) == ReturnValue(p.chars, old(p.State()), line, o, expected)
  {
    var value, reason := ParseExpression(p, o, expected);
    var f := ConditionFailure<ReturnStatement>(reason, p.State());
    if f.Some? {
      return f.value;
    }
    if reason.EndOfExpression? {
      var oldIndex: int := p.index;
      var e := SkipWhitespace<ReturnStatement>(p, ReturnEof);
      if e.Some? {
        return e.value;
      }
      if p.Curr() != ';' {
        return Err("Semicolon Needed", "there should be a ; here", oldIndex - 1, oldIndex);
      }
    }
    return Ok(ReturnStatement(Some(value), line));
  }

  /**
   * The value is absent exactly when ';' follows the keyword and blank text;
   * otherwise the expression is parsed wanting the function's return type.
   */
  lemma ReturnValueAbsentIffSemicolon(s: string, c: Cur, o: StatementOracles, expected: Option<VariableType>)
    ensures var (u, r) := ReturnSpec(s, c, o, expected);
      r.Ok? ==>
        var w := Whitespace(s, AsciiName(s, c).0).0;
        !w.oos &&
        (r.value.value.None? <==> s[w.index] == ';') &&
        (r.value.value.Some? ==> r.value.value.value == o.parseExpression(s, w, expected).1)
  {
  }

  /**
   * An expression that ends of itself must be followed, after blank text,
   * by ';': otherwise "Semicolon Needed" over the character before where
   * the expression stopped.
   */
  lemma SemicolonNeeded(s: string, w: Cur, line: nat, o: StatementOracles, expected: Option<VariableType>)
    requires o.parseExpression(s, w, expected).2.EndOfExpression?
    ensures var x := o.parseExpression(s, w, expected).0;
      var v := Whitespace(s, x).0;
      var (_, r) := ReturnValue(s, w, line, o, expected);
      (r.Ok? <==> !v.oos && s[v.index] == ';') &&
      (!v.oos && s[v.index] != ';' ==> r == Err("Semicolon Needed", "there should be a ; here", x.index - 1, x.index))
  {
  }
}
