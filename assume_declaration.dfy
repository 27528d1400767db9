// Assume statements (src/declaration_parser/assume_declaration.rs).

module AssumeDeclarations {
  import opened Text
  import opened Scan
  import opened Cursor
  import opened Declarations

  /** An `assume` of a header by path, with the line it starts on. */
  datatype AssumeDecl = AssumeDecl(path: string, line: nat)

  const AssumeEof := "unexpected end of assume"
  const AssumeKeywordMsg := "\"assume\" keyword expected"

  /** `to_cpp`: an assume writes nothing where it stands. */
  function AssumeToCpp(d: AssumeDecl): string {
    ""
  }

  /** `is_assume_declaration`: the text at `i` starts with "assume ". */
  predicate IsAssumeDeclaration(s: string, i: nat) {
    StartsWith(Rest(s, i), "assume ")
  }

  /** What `AssumeDeclaration::new` makes of the text at `c`. */
  function AssumeSpec(s: string, c: Cur): (r: (Cur, DeclResult<AssumeDecl>))
    ensures r.1.Ok? ==> r.1.value.line == c.line
    ensures Parked(s, r.0) && r.0.index >= c.index
    ensures AsciiName(s, c).1 != "" ==> r.0.index > c.index
  {
    var (u, res) := KeywordPath(s, c, "assume", AssumeKeywordMsg, AssumeEof);
    (u, if res.Ok? then Ok(AssumeDecl(res.value, c.line)) else Err(res.title, res.msg, res.start, res.end))
  }

  /** `AssumeDeclaration::new`. */
  method NewAssume(p: Parser) returns (r: DeclResult<AssumeDecl>)
    modifies p
    ensures (p.State(), r) == AssumeSpec(p.chars, old(p.State()))
  {
    var initialLine := p.line;
    var keyword, e := ParseAscii<AssumeDecl>(p, AssumeEof);
    if e.Some? {
      return e.value;
    }
    if keyword != "assume" {
      return Err("Unexpected Keyword", AssumeKeywordMsg, p.index - |keyword|, p.index);
    }
    var path := ParsePath(p, AssumeEof);
    if path.Err? {
      return Err(path.title, path.msg, path.start, path.end);
    }
    return Ok(AssumeDecl(path.value, initialLine));
  }

  /**
   * Text the recogniser accepts gets past the keyword and the blank after
   * it; the assume then succeeds exactly when a ';' follows, and its path
   * is the text up to the first one.
   */
  lemma RecognisedAssume(s: string, c: Cur)
    requires !c.oos && IsAssumeDeclaration(s, c.index)
    ensures var w := Whitespace(s, Cur(c.index + 6, c.line, false)).0;
      var (u, r) := AssumeSpec(s, c);
      (r.Ok? <==> !w.oos && ';' in s[w.index..]) &&
      (r.Ok? ==> w.index <= u.index < |s| && r.value.path == s[w.index..u.index] && s[u.index] == ';' && ';' !in r.value.path)
  {
    assert IsIdentifier("assume");
    KeywordPathRecognised(s, c, "assume", AssumeKeywordMsg, AssumeEof);
  }
}
