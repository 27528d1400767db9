// What the statement parsers of src/scope_parser share: the callees they
// reach outside this model, the failure a condition's end reason means, and
// the body that follows a statement's head.

module Statements {
  import opened Wrappers
  import opened Scan
  import opened Cursor
  import opened Declarations
  import opened VariableTypes
  import opened Expressions

  /**
   * The callees of the statement parsers that are not part of this model:
   * `Parser::parse_expression` (the cursor it leaves, the expression and
   * the end reason, given the type wanted), `ScopeExpression::new` (the
   * cursor it leaves, given the statement limit) and `VariableType::boolean`.
   */
  datatype StatementOracles = StatementOracles(
    parseExpression: (string, Cur, Option<VariableType>) -> (Cur, Expression, EndReason),
    parseScope: (string, Cur, Option<nat>) -> Cur,
    boolean: VariableType)

  /**
   * A scope parse leaves the cursor where `get_curr` is defined and does
   * not go back a line, as the statement parsers assume.
   */
  ghost predicate ScopesForward(o: StatementOracles, s: string) {
    forall c: Cur, limit: Option<nat> ::
      Parked(s, o.parseScope(s, c, limit)) && o.parseScope(s, c, limit).line >= c.line
  }

  /**
   * The scope a statement owns, as far as this model sees it: the statement
   * limit given to `ScopeExpression::new` (none for a braced body, one
   * statement otherwise), the index its text starts at and its first line.
   */
  datatype Scope = Scope(limit: Option<nat>, start: nat, line: nat)

  /**
   * The error an expression's end reason means: Unknown, EndOfContent and
   * NoValueError fail the statement, over the character before the cursor;
   * any other reason lets it go on.
   */
  function ConditionFailure<T>(reason: EndReason, c: Cur): (r: Option<DeclResult<T>>)
    ensures r.Some? <==> reason.Unknown? || reason.EndOfContent? || reason.NoValueError?
    ensures r.Some? ==> r.value.Err? && r.value.start == c.index - 1 && r.value.end == c.index
  {
    match reason
    case Unknown => Some(Err("Unknown Error", "unknown expression parsing error", c.index - 1, c.index))
    case EndOfContent => Some(Err("Unexpected End of Expression", "unexpected end of expression", c.index - 1, c.index))
    case NoValueError => Some(Err("Value Expected", "expression value expected here", c.index - 1, c.index))
    case _ => None
  }

  /**
   * `declare_parse_ascii!`: the word at the cursor; "Expected Identifier"
   * when there is none, the end error when it runs to the end.
   */
  function Word<T>(s: string, c: Cur, eofMsg: string): (r: (Cur, string, Option<DeclResult<T>>))
    ensures (r.0, r.1) == AsciiName(s, c)
    ensures r.2.None? <==> r.1 != "" && !r.0.oos
  {
    var (a, w) := AsciiName(s, c);
    if w == "" then (a, w, Some(Err("Expected Identifier", "ascii identifier expected here", a.index - 1, a.index)))
    else (a, w, EndCheck(a, eofMsg))
  }

  /**
   * `declare_parse_required_whitespace!`: blank text must follow;
   * "Expected Space" when none does, the end error when it runs to the end.
   */
  function RequiredSpace<T>(s: string, a: Cur, eofMsg: string): (r: (Cur, Option<DeclResult<T>>))
    ensures r.0 == Whitespace(s, a).0
    ensures r.1.None? <==> Whitespace(s, a).1 && !r.0.oos
  {
    var (w, skipped) := Whitespace(s, a);
    if !skipped then (w, Some(Err("Expected Space", "whitspace expected here", w.index - 1, w.index)))
    else (w, EndCheck(w, eofMsg))
  }

  /** A keyword that is not the expected one: "Unexpected Keyword" over the word just read. */
  function WrongKeyword<T>(msg: string, a: Cur, word: string): DeclResult<T> {
    Err("Unexpected Keyword", msg, a.index - |word|, a.index)
  }

  /**
   * The body after a statement's head: on '{' a scope with no statement
   * limit starting after the brace, whose closing '}' is stepped over when
   * the scope stops on it; otherwise a scope of one statement starting at
   * the cursor. The result is the cursor after the body and the scope.
   */
  function Body(s: string, w: Cur, o: StatementOracles): (r: (Cur, Scope))
    requires Parked(s, w) && ScopesForward(o, s)
    ensures Parked(s, r.0) && r.0.line >= w.line
    ensures CurrOf(s, w) == '{' <==> r.1.limit.None?
    ensures r.1.limit.None? ==> r.1.start == w.index + 1
    ensures r.1.limit.Some? ==> r.1 == Scope(Some(1), w.index, w.line)
    ensures r.1.line == w.line
  {
    if CurrOf(s, w) == '{' then
      var u := o.parseScope(s, w, None);
      (if CurrOf(s, u) == '}' then Inc(s, u) else u, Scope(None, w.index + 1, w.line))
    else
      (o.parseScope(s, w, Some(1)), Scope(Some(1), w.index, w.line))
  }

  /** The body of a statement, from the parser's cursor. */
  method ParseBody(p: Parser, o: StatementOracles) returns (scope: Scope)
    requires p.Parked() && ScopesForward(o, p.chars)
    modifies p
    ensures (p.State(), scope) == Body(p.chars, old(p.State()), o)
  {
    if p.Curr() == '{' {
      scope := Scope(None, p.index + 1, p.line);
      p.MoveTo(o.parseScope(p.chars, p.State(), None));
      if p.Curr() == '}' {
        var _ := p.Increment();
      }
    } else {
      scope := Scope(Some(1), p.index, p.line);
      p.MoveTo(o.parseScope(p.chars, p.State(), Some(1)));
    }
  }

  /** `parser.parse_expression(…)`: the oracle's expression and reason, the cursor moved where it left it. */
  method ParseExpression(p: Parser, o: StatementOracles, wanted: Option<VariableType>) returns (e: Expression, reason: EndReason)
    modifies p
    ensures (p.State(), e, reason) == o.parseExpression(p.chars, old(p.State()), wanted)
  {
    var (u, x, why) := o.parseExpression(p.chars, p.State(), wanted);
    p.MoveTo(u);
    return x, why;
  }
}
