// The endless `loop` statement (src/scope_parser/loop_parser.rs).

module LoopParsers {
  import opened Text
  import opened Wrappers
  import opened Scan
  import opened Cursor
  import opened Declarations
  import opened Statements

  /** A `loop`: its body and the lines it starts and ends on. */
  datatype LoopStatement = LoopStatement(scope: Scope, line: nat, endLine: nat)

  const LoopEof := "unexpected end of loop statement"

  /** `is_loop_declaration`: the word "loop" at `i`. */
  predicate IsLoopDeclaration(s: string, i: nat) {
    StartsWithWord(Rest(s, i), "loop")
  }

  /** What `LoopParser::new` makes of the text at `c`. */
  function LoopSpec(s: string, c: Cur, o: StatementOracles): (r: (Cur, DeclResult<LoopStatement>))
    requires ScopesForward(o, s)
    ensures r.1.Ok? ==> AsciiName(s, c).1 == "loop" && r.1.value.line == c.line && r.1.value.endLine == r.0.line
  {
    var (a, kw, e) := Word(s, c, LoopEof);
    if e.Some? then (a, e.value)
    else if kw != "loop" then (a, WrongKeyword("\"loop\" keyword expected", a, kw))
    else
      var w := Whitespace(s, a).0;
      if w.oos then (w, OutOfSpace(w.index, LoopEof))
      else
        var (u, scope) := Body(s, w, o);
        (u, Ok(LoopStatement(scope, c.line, u.line)))
  }

  /** `LoopParser::new`. */
  method NewLoop(p: Parser, o: StatementOracles) returns (r: DeclResult<LoopStatement>)
    requires ScopesForward(o, p.chars)
    modifies p
    ensures (p.State(), r) == LoopSpec(p.chars, old(p.State()), o)
  {
    var initialLine := p.line;
    var keyword, e := ParseAscii<LoopStatement>(p, LoopEof);
    if e.Some? {
      return e.value;
    }
    if keyword != "loop" {
      return Err("Unexpected Keyword", "\"loop\" keyword expected", p.index - |keyword|, p.index);
    }
    e := SkipWhitespace(p, LoopEof);
    if e.Some? {
      return e.value;
    }
    var scope := ParseBody(p, o);
    return Ok(LoopStatement(scope, initialLine, p.line));
  }

  /**
   * Any other word is rejected with "Unexpected Keyword" over exactly that
   * word, and the cursor stays just after it.
   */
  lemma LoopWrongKeyword(s: string, c: Cur, o: StatementOracles)
    requires ScopesForward(o, s)
    requires AsciiName(s, c).1 != "" && AsciiName(s, c).1 != "loop" && !AsciiName(s, c).0.oos
    ensures var (u, r) := LoopSpec(s, c, o);
      u == AsciiName(s, c).0 && r.Err? && r.title == "Unexpected Keyword" &&
      r.start == c.index && r.end == c.index + |AsciiName(s, c).1|
  {
  }

  /**
   * The body is braced exactly when '{' follows the keyword and blank text;
   * a braced scope has no statement limit and an unbraced one is limited to
   * one statement.
   */
  lemma LoopBody(s: string, c: Cur, o: StatementOracles)
    requires ScopesForward(o, s)
    ensures var (u, r) := LoopSpec(s, c, o);
      r.Ok? ==>
        var w := Whitespace(s, AsciiName(s, c).0).0;
        !w.oos && (s[w.index] == '{' <==> r.value.scope.limit.None?) &&
        (s[w.index] != '{' ==> r.value.scope.limit == Some(1))
  {
  }
}
