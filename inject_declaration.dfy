// Code injection at module level (src/declaration_parser/inject_declaration.rs).

module InjectDeclarations {
  import opened Text
  import opened Wrappers
  import opened Scan
  import opened Cursor
  import opened Declarations

  /** The injected code is the text between `startIndex` and `endIndex`. */
  datatype InjectDecl = InjectDecl(line: nat, startIndex: nat, endIndex: nat)

  const InjectEof := "unexpected end of function"
  const InjectKeywordMsg := "\"inject\" keyword expected"

  /** `is_inject_declaration`: the word "inject" at `i`. */
  predicate IsInjectDeclaration(s: string, i: nat) {
    StartsWithWord(Rest(s, i), "inject")
  }

  /** What `InjectDeclaration::new` makes of the text at `c`: the keyword, blank text and '{'. */
  function InjectSpec(s: string, c: Cur): (r: (Cur, DeclResult<InjectDecl>))
    ensures Parked(s, r.0) && r.0.index >= c.index
    ensures AsciiName(s, c).1 != "" ==> r.0.index > c.index
  {
    var (a, kw) := AsciiName(s, c);
    if kw == "" then (a, Err("Expected Identifier", "ascii identifier expected here", a.index - 1, a.index))
    else if a.oos then (a, OutOfSpace(a.index, InjectEof))
    else if kw != "inject" then (a, Err("Unexpected Keyword", InjectKeywordMsg, a.index - |kw|, a.index))
    else
      var w := Whitespace(s, a).0;
      if w.oos then (w, OutOfSpace(w.index, InjectEof))
      else if CurrOf(s, w) != '{' then (w, Err("Unexpected Symbol", "expected '{' operator", w.index, w.index + 1))
      else
        var n := Inc(s, w);
        if n.index >= |s| then (n, OutOfSpace(n.index, InjectEof))
        else InjectBody(s, n, c.line)
  }

  /** The body: from just after '{' to the '}' that closes it, which stays unread. */
  function InjectBody(s: string, n: Cur, line: nat): (r: (Cur, DeclResult<InjectDecl>))
    ensures Parked(s, r.0) && r.0.index >= n.index
  {
    var u := UntilAtExpr(s, n, '}', '}').0;
    if u.oos then (u, OutOfSpace(u.index, InjectEof))
    else (u, Ok(InjectDecl(line, n.index, u.index)))
  }

  /** `InjectDeclaration::new`. */
  method NewInject(p: Parser) returns (r: DeclResult<InjectDecl>)
    modifies p
    ensures (p.State(), r) == InjectSpec(p.chars, old(p.State()))
  {
    var initialLine := p.line;
    var keyword, e := ParseAscii<InjectDecl>(p, InjectEof);
    if e.Some? {
      return e.value;
    }
    if keyword != "inject" {
      return Err("Unexpected Keyword", InjectKeywordMsg, p.index - |keyword|, p.index);
    }
    e := SkipWhitespace(p, InjectEof);
    if e.Some? {
      return e.value;
    }
    var next;
    next, e := RequireNextChar(p, '{', "expected '{' operator", InjectEof);
    if e.Some? {
      return e.value;
    }
    r := ParseInjectBody(p, initialLine);
  }

  /** The body of an injection, up to its closing '}'. */
  method ParseInjectBody(p: Parser, line: nat) returns (r: DeclResult<InjectDecl>)
    modifies p
    ensures (p.State(), r) == InjectBody(p.chars, old(p.State()), line)
  {
    var startIndex := p.index;
    var found, e := ExprUntilOrFail<InjectDecl>(p, '}', '}', InjectEof);
    if e.Some? {
      return e.value;
    }
    return Ok(InjectDecl(line, startIndex, p.index));
  }

  /**
   * A successful injection starts just after a '{' and ends on a '}',
   * which the cursor is left on; the code between them is `s[start..end]`.
   */
  lemma InjectSpansBraces(s: string, c: Cur)
    ensures var (u, r) := InjectSpec(s, c);
      r.Ok? ==>
        0 < r.value.startIndex <= r.value.endIndex == u.index < |s| &&
        s[r.value.startIndex - 1] == '{' && s[r.value.endIndex] == '}' && !u.oos &&
        r.value.line == c.line
  {
    var (a, kw) := AsciiName(s, c);
    if kw == "inject" && !a.oos {
      var w := Whitespace(s, a).0;
      if !w.oos && CurrOf(s, w) == '{' {
        var n := Inc(s, w);
        if n.index < |s| {
          var x := UntilAtExpr(s, n, '}', '}');
          assert !n.oos;
          if !x.0.oos {
            assert x.2.Some?;
          }
        }
      }
    }
  }

  /** A recognised injection gets past its keyword. */
  lemma RecognisedInject(s: string, c: Cur)
    requires !c.oos && IsInjectDeclaration(s, c.index)
    ensures AsciiName(s, c).1 == "inject"
  {
    assert IsIdentifier("inject");
    KeywordIsName(s, c, "inject");
  }
}
