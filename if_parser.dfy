// The `if`, `unless`, `else if`, `else unless` and `else` statements
// (src/scope_parser/if_parser.rs).

module IfParsers {
  import opened Text
  import opened Wrappers
  import opened Scan
  import opened Cursor
  import opened Declarations
  import opened Expressions
  import opened Statements

  /** `IfType`. */
  datatype IfType = If | Unless | ElseIf | ElseUnless | Else

  /** A branch: its kind, its condition (none for a bare `else`), its body, and the lines it starts and ends on. */
  datatype IfStatement = IfStatement(ifType: IfType, condition: Option<Expression>, scope: Scope, line: nat, endLine: nat)

  const IfEof := "unexpected end of if statement"

  /** `is_if_declaration`: the word "if", "unless" or "else" at `i`. */
  predicate IsIfDeclaration(s: string, i: nat) {
    StartsWithWord(Rest(s, i), "if") || StartsWithWord(Rest(s, i), "unless") || StartsWithWord(Rest(s, i), "else")
  }

  /** What `IfParser::new` makes of the text at `c`. */
  function IfSpec(s: string, c: Cur, o: StatementOracles): (r: (Cur, DeclResult<IfStatement>))
    requires ScopesForward(o, s)
    ensures r.1.Ok? ==> r.1.value.line == c.line && r.1.value.endLine == r.0.line
  {
    var (a, kw, e) := Word(s, c, IfEof);
    if e.Some? then (a, e.value)
    else if kw != "if" && kw != "else" && kw != "unless" then
      (a, WrongKeyword("\"if\", \"else\", or \"unless\" keyword expected", a, kw))
    else
      var w := Whitespace(s, a).0;
      if w.oos then (w, OutOfSpace(w.index, IfEof))
      else if kw == "else" then IfElse(s, w, c.line, o)
      else IfCondition(s, w, if kw == "if" then If else Unless, c.line, o)
  }

  /**
   * After `else`: a following "if" or "unless" makes an `else if` or an
   * `else unless` with a condition; any other word is put back and the
   * branch is a bare `else`.
   */
  function IfElse(s: string, w: Cur, line: nat, o: StatementOracles): (r: (Cur, DeclResult<IfStatement>))
    requires Parked(s, w) && !w.oos && ScopesForward(o, s)
    ensures r.1.Ok? ==> r.1.value.line == line && r.1.value.endLine == r.0.line
  {
    var (b, word) := AsciiName(s, w);
    if word == "if" || word == "unless" then
      var v := Whitespace(s, b).0;
      if v.oos then (v, OutOfSpace(v.index, IfEof))
      else IfCondition(s, v, if word == "if" then ElseIf else ElseUnless, line, o)
    else
      IfBody(s, Cur(w.index, w.line, false), Else, None, line, o)
  }

  /** The condition, wanted boolean, then the body. */
  function IfCondition(s: string, w: Cur, kind: IfType, line: nat, o: StatementOracles): (r: (Cur, DeclResult<IfStatement>))
    requires ScopesForward(o, s)
    ensures r.1.Ok? ==> r.1.value.ifType == kind && r.1.value.condition == Some(o.parseExpression(s, w, Some(o.boolean)).1)
    ensures r.1.Ok? ==> r.1.value.line == line && r.1.value.endLine == r.0.line
  {
    var (x, cond, reason) := o.parseExpression(s, w, Some(o.boolean));
    var f := ConditionFailure<IfStatement>(reason, x);
    if f.Some? then (x, f.value)
    else
      var v := Whitespace(s, x).0;
      if v.oos then (v, OutOfSpace(v.index, IfEof))
      else IfBody(s, v, kind, Some(cond), line, o)
  }

  function IfBody(s: string, v: Cur, kind: IfType, cond: Option<Expression>, line: nat, o: StatementOracles): (r: (Cur, DeclResult<IfStatement>))
    requires Parked(s, v) && ScopesForward(o, s)
    ensures r.1.Ok? && r.1.value.ifType == kind && r.1.value.condition == cond
    ensures r.1.value.line == line && r.1.value.endLine == r.0.line
  {
    var (u, scope) := Body(s, v, o);
    (u, Ok(IfStatement(kind, cond, scope, line, u.line)))
  }

  /** `IfParser::new`. */
  method NewIf(p: Parser, o: StatementOracles) returns (r: DeclResult<IfStatement>)
    requires ScopesForward(o, p.chars)
    modifies p
    ensures (p.State(), r) == IfSpec(p.chars, old(p.State()), o)
  {
    var initialLine := p.line;
    var keyword, e := ParseAscii<IfStatement>(p, IfEof);
    if e.Some? {
      return e.value;
    }
    if keyword != "if" && keyword != "else" && keyword != "unless" {
      return Err("Unexpected Keyword", "\"if\", \"else\", or \"unless\" keyword expected", p.index - |keyword|, p.index);
    }
    var ifType := if keyword == "if" then If else Unless;
    e := SkipWhitespace(p, IfEof);
    if e.Some? {
      return e.value;
    }
    if keyword == "else" {
      r := ParseIfElse(p, initialLine, o);
    } else {
      r := ParseIfCondition(p, ifType, initialLine, o);
    }
  }

  method ParseIfElse(p: Parser, line: nat, o: StatementOracles) returns (r: DeclResult<IfStatement>)
    requires p.Parked() && !p.outOfSpace && ScopesForward(o, p.chars)
    modifies p
    ensures (p.State(), r) == IfElse(p.chars, old(p.State()), line, o)
  {
    var currIndex := p.index;
    var currLine := p.line;
    var word := p.ParseAsciiCharName();
    if word == "if" || word == "unless" {
      var e := SkipWhitespace<IfStatement>(p, IfEof);
      if e.Some? {
        return e.value;
      }
      r := ParseIfCondition(p, if word == "if" then ElseIf else ElseUnless, line, o);
    } else {
      p.Reset(currIndex, currLine);
      var scope := ParseBody(p, o);
      r := Ok(IfStatement(Else, None, scope, line, p.line));
    }
  }

  method ParseIfCondition(p: Parser, kind: IfType, line: nat, o: StatementOracles) returns (r: DeclResult<IfStatement>)
    requires ScopesForward(o, p.chars)
    modifies p
    ensures (p.State(), r) == IfCondition(p.chars, old(p.State()), kind, line, o)
  {
    var cond, reason := ParseExpression(p, o, Some(o.boolean));
    var f := ConditionFailure<IfStatement>(reason, p.State());
    if f.Some? {
      return f.value;
    }
    var e := SkipWhitespace<IfStatement>(p, IfEof);
    if e.Some? {
      return e.value;
    }
    var scope := ParseBody(p, o);
    return Ok(IfStatement(kind, Some(cond), scope, line, p.line));
  }

  /**
   * The kind follows the words read: "if" gives If and "unless" Unless;
   * "else" then "if" gives ElseIf, "else" then "unless" ElseUnless, and
   * "else" then anything else a bare Else. A condition is present exactly
   * when the kind is not Else.
   */
  lemma IfKinds(s: string, c: Cur, o: StatementOracles)
    requires ScopesForward(o, s)
    ensures var (u, r) := IfSpec(s, c, o);
      r.Ok? ==>
        var (a, kw) := AsciiName(s, c);
        var w := Whitespace(s, a).0;
        var second := AsciiName(s, w).1;
        (r.value.condition.None? <==> r.value.ifType == Else) &&
        (kw == "if" ==> r.value.ifType == If) &&
        (kw == "unless" ==> r.value.ifType == Unless) &&
        (kw == "else" && second == "if" ==> r.value.ifType == ElseIf) &&
        (kw == "else" && second == "unless" ==> r.value.ifType == ElseUnless) &&
        (kw == "else" && second != "if" && second != "unless" ==> r.value.ifType == Else) &&
        (kw == "if" || kw == "unless" || kw == "else")
  {
  }

  /**
   * A bare `else` puts back the word it peeked at: its body is parsed from
   * where that word starts, on the same line.
   */
  lemma BareElseRewinds(s: string, w: Cur, line: nat, o: StatementOracles)
    requires Parked(s, w) && !w.oos && ScopesForward(o, s)
    requires AsciiName(s, w).1 != "if" && AsciiName(s, w).1 != "unless"
    ensures IfElse(s, w, line, o) == IfBody(s, w, Else, None, line, o)
  {
  }
}
