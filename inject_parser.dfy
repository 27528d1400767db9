// Code injection inside a function body (src/scope_parser/inject_parser.rs).

module InjectStatements {
  import opened Text
  import opened Wrappers
  import opened Scan
  import opened Cursor
  import opened Declarations
  import opened Statements

  /** The injected code is the text between `startIndex` and `endIndex`. */
  datatype InjectStatement = InjectStatement(startIndex: nat, endIndex: nat, line: nat, endLine: nat)

  const InjectEof := "unexpected end of inject statement"

  /** `is_inject_declaration`: the text at `i` starts with "inject", whatever follows. */
  predicate IsInjectStatement(s: string, i: nat) {
    StartsWith(Rest(s, i), "inject")
  }

  /** What `InjectParser::new` makes of the text at `c`. */
  function InjectSpec(s: string, c: Cur): (r: (Cur, DeclResult<InjectStatement>))
    ensures r.1.Ok? ==> AsciiName(s, c).1 == "inject" && r.1.value.line == c.line && r.1.value.endLine == r.0.line
  {
    var (a, kw, e) := Word(s, c, InjectEof);
    if e.Some? then (a, e.value)
    else if kw != "inject" then (a, WrongKeyword("\"inject\" keyword expected", a, kw))
    else InjectBlock(s, a, c.line)
  }

  /** From just after the keyword: the '{' that opens the code, then the code. */
  function InjectBlock(s: string, a: Cur, line: nat): (r: (Cur, DeclResult<InjectStatement>))
    ensures r.1.Ok? ==> r.1.value.line == line && r.1.value.endLine == r.0.line
  {
    var w := Whitespace(s, a).0;
    if w.oos then (w, OutOfSpace(w.index, InjectEof))
    else if CurrOf(s, w) != '{' then (w, Err("Unexpected Symbol", "expected '{' operator", w.index, w.index + 1))
    else
      var n := Inc(s, w);
      if n.index >= |s| then (n, OutOfSpace(n.index, InjectEof))
      else InjectCode(s, n, line)
  }

  /** From just after '{' to the enclosing '}', which is stepped over. */
  function InjectCode(s: string, n: Cur, line: nat): (r: (Cur, DeclResult<InjectStatement>))
    ensures r.1.Ok? ==> r.1.value.line == line && r.1.value.endLine == r.0.line
  {
    var u := UntilAtExpr(s, n, '}', '}').0;
    if u.oos then (u, OutOfSpace(u.index, InjectEof))
    else
      var after := Inc(s, u);
      (after, Ok(InjectStatement(n.index, u.index, line, after.line)))
  }

  /** `InjectParser::new`. */
  method NewInject(p: Parser) returns (r: DeclResult<InjectStatement>)
    modifies p
    ensures (p.State(), r) == InjectSpec(p.chars, old(p.State()))
  {
    var initialLine := p.line;
    var keyword, e := ParseAscii<InjectStatement>(p, InjectEof);
    if e.Some? {
      return e.value;
    }
    if keyword != "inject" {
      return Err("Unexpected Keyword", "\"inject\" keyword expected", p.index - |keyword|, p.index);
    }
    r := ParseInjectBlock(p, initialLine);
  }

  method ParseInjectBlock(p: Parser, line: nat) returns (r: DeclResult<InjectStatement>)
    modifies p
    ensures (p.State(), r) == InjectBlock(p.chars, old(p.State()), line)
  {
    var e := SkipWhitespace(p, InjectEof);
    if e.Some? {
      return e.value;
    }
    var next;
    next, e := RequireNextChar(p, '{', "expected '{' operator", InjectEof);
    if e.Some? {
      return e.value;
    }
    r := ParseInjectCode(p, line);
  }

  method ParseInjectCode(p: Parser, line: nat) returns (r: DeclResult<InjectStatement>)
    modifies p
    ensures (p.State(), r) == InjectCode(p.chars, old(p.State()), line)
  {
    var startIndex := p.index;
    var found, e := ExprUntilOrFail<InjectStatement>(p, '}', '}', InjectEof);
    if e.Some? {
      return e.value;
    }
    var endIndex := p.index;
    var _ := p.Increment();
    return Ok(InjectStatement(startIndex, endIndex, line, p.line));
  }

  /**
   * A successful injection spans the text between a '{' and the '}' that
   * closes it, and the cursor ends just past that '}'.
   */
  lemma InjectSpansBraces(s: string, c: Cur)
    ensures var (u, r) := InjectSpec(s, c);
      r.Ok? ==>
        0 < r.value.startIndex <= r.value.endIndex < |s| &&
        s[r.value.startIndex - 1] == '{' && s[r.value.endIndex] == '}' &&
        u.index == r.value.endIndex + 1
  {
    var (a, kw) := AsciiName(s, c);
    if kw == "inject" && !a.oos {
      BlockSpansBraces(s, a, c.line);
    }
  }

  lemma BlockSpansBraces(s: string, a: Cur, line: nat)
    ensures var (u, r) := InjectBlock(s, a, line);
      r.Ok? ==>
        0 < r.value.startIndex <= r.value.endIndex < |s| &&
        s[r.value.startIndex - 1] == '{' && s[r.value.endIndex] == '}' &&
        u.index == r.value.endIndex + 1
  {
    var w := Whitespace(s, a).0;
    if !w.oos && CurrOf(s, w) == '{' {
      var n := Inc(s, w);
      if n.index < |s| {
        CodeSpansBraces(s, n, line);
      }
    }
  }

  lemma CodeSpansBraces(s: string, n: Cur, line: nat)
    requires !n.oos && n.index < |s|
    ensures var (u, r) := InjectCode(s, n, line);
      r.Ok? ==>
        r.value.startIndex <= r.value.endIndex < |s| &&
        r.value.startIndex == n.index && s[r.value.endIndex] == '}' &&
        u.index == r.value.endIndex + 1
  {
    var x := UntilAtExpr(s, n, '}', '}');
    if !x.0.oos {
      assert x.2.Some?;
    }
  }

  /** Unlike the `inject` of a module, a statement is recognised by the bare prefix: "injected" counts. */
  lemma InjectPrefixOnly(s: string, i: nat, tail: string)
    ensures IsInjectStatement("injected", 0)
    ensures IsInjectStatement("inject" + tail, 0)
    ensures IsInjectStatement(s, i) <==> i + 6 <= |s| && s[i..i + 6] == "inject"
  {
    assert Rest("injected", 0)[..6] == "inject";
    assert Rest("inject" + tail, 0)[..6] == "inject";
    if i + 6 <= |s| {
      assert Rest(s, i)[..6] == s[i..i + 6];
    }
  }
}
