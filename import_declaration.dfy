// Import statements (src/declaration_parser/import_declaration.rs).

module ImportDeclarations {
  import opened Text
  import opened Scan
  import opened Cursor
  import opened Declarations

  /** An `import` of another module by path, with the line it starts on. */
  datatype ImportDecl = ImportDecl(path: string, line: nat)

  const ImportEof := "unexpected end of import"
  const ImportKeywordMsg := "\"import\" keyword expected"

  /** `to_cpp`: an import writes nothing where it stands. */
  function ImportToCpp(d: ImportDecl): string {
    ""
  }

  /** `is_import_declaration`: the text at `i` starts with "import ". */
  predicate IsImportDeclaration(s: string, i: nat) {
    StartsWith(Rest(s, i), "import ")
  }

  /** What `ImportDeclaration::new` makes of the text at `c`. */
  function ImportSpec(s: string, c: Cur): (r: (Cur, DeclResult<ImportDecl>))
    ensures r.1.Ok? ==> r.1.value.line == c.line
    ensures Parked(s, r.0) && r.0.index >= c.index
    ensures AsciiName(s, c).1 != "" ==> r.0.index > c.index
  {
    var (u, res) := KeywordPath(s, c, "import", ImportKeywordMsg, ImportEof);
    (u, if res.Ok? then Ok(ImportDecl(res.value, c.line)) else Err(res.title, res.msg, res.start, res.end))
  }

  /** `ImportDeclaration::new`. */
  method NewImport(p: Parser) returns (r: DeclResult<ImportDecl>)
    modifies p
    ensures (p.State(), r) == ImportSpec(p.chars, old(p.State()))
  {
    var initialLine := p.line;
    var keyword, e := ParseAscii<ImportDecl>(p, ImportEof);
    if e.Some? {
      return e.value;
    }
    if keyword != "import" {
      return Err("Unexpected Keyword", ImportKeywordMsg, p.index - |keyword|, p.index);
    }
    var path := ParsePath(p, ImportEof);
    if path.Err? {
      return Err(path.title, path.msg, path.start, path.end);
    }
    return Ok(ImportDecl(path.value, initialLine));
  }

  /**
   * Text the recogniser accepts gets past the keyword and the blank after
   * it; the import then succeeds exactly when a ';' follows, and its path
   * is the text up to the first one.
   */
  lemma RecognisedImport(s: string, c: Cur)
    requires !c.oos && IsImportDeclaration(s, c.index)
    ensures var w := Whitespace(s, Cur(c.index + 6, c.line, false)).0;
      var (u, r) := ImportSpec(s, c);
      (r.Ok? <==> !w.oos && ';' in s[w.index..]) &&
      (r.Ok? ==> w.index <= u.index < |s| && r.value.path == s[w.index..u.index] && s[u.index] == ';' && ';' !in r.value.path)
  {
    assert IsIdentifier("import");
    KeywordPathRecognised(s, c, "import", ImportKeywordMsg, ImportEof);
  }
}
