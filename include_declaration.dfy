// Include and contain statements (src/declaration_parser/include_declaration.rs).

module IncludeDeclarations {
  import opened Text
  import opened Scan
  import opened Cursor
  import opened Declarations

  /** `IncludeType`: a quoted local header or an angle-bracketed system header. */
  datatype IncludeType = Local | System
  {
    predicate IsLocal() { this.Local? }
  }

  /** `IncludeLocation`: `include` goes to the header, `contain` to the source file. */
  datatype IncludeLocation = Header | Source
  {
    predicate IsHeader() { this.Header? }
  }

  datatype IncludeDecl = IncludeDecl(path: string, location: IncludeLocation, incType: IncludeType, line: nat)

  const IncludeEof := "unexpected end of include"
  const IncludeKeywordMsg := "\"include\" or \"contain\" keyword expected"

  /** `to_cpp`: the preprocessor line, with quotes for a local header and angle brackets for a system one. */
  function IncludeToCpp(d: IncludeDecl): string {
    match d.incType
    case Local => "#include \"" + d.path + "\""
    case System => "#include <" + d.path + ">"
  }

  /** The path sits between the delimiters that say which kind of header it is. */
  lemma IncludeLineRoundTrip(d: IncludeDecl)
    ensures var t := IncludeToCpp(d);
      |t| == |d.path| + 11 && t[..9] == "#include " &&
      t[9] == (if d.incType.Local? then '"' else '<') &&
      t[10..|t| - 1] == d.path &&
      t[|t| - 1] == (if d.incType.Local? then '"' else '>')
  {
  }

  /** `is_include_declaration`: the word "include" or "contain" at `i`. */
  predicate IsIncludeDeclaration(s: string, i: nat) {
    StartsWithWord(Rest(s, i), "include") || StartsWithWord(Rest(s, i), "contain")
  }

  /** What `IncludeDeclaration::new` makes of the text at `c`: the keyword and the blank after it. */
  function IncludeSpec(s: string, c: Cur): (r: (Cur, DeclResult<IncludeDecl>))
    ensures Parked(s, r.0) && r.0.index >= c.index
    ensures AsciiName(s, c).1 != "" ==> r.0.index > c.index
  {
    var (a, kw) := AsciiName(s, c);
    if kw == "" then (a, Err("Expected Identifier", "ascii identifier expected here", a.index - 1, a.index))
    else if a.oos then (a, OutOfSpace(a.index, IncludeEof))
    else if kw != "include" && kw != "contain" then (a, Err("Unexpected Keyword", IncludeKeywordMsg, a.index - |kw|, a.index))
    else
      var location := if kw == "contain" then Source else Header;
      var (w, skipped) := Whitespace(s, a);
      if !skipped then (w, Err("Expected Space", "whitspace expected here", w.index - 1, w.index))
      else if w.oos then (w, OutOfSpace(w.index, IncludeEof))
      else IncludeTail(s, w, location, c.line)
  }

  /**
   * The rest of an include: an optional "local" or "system" with the blank
   * after it, then the path. Any other word read there is put back in
   * front of the path, and the header is local.
   */
  function IncludeTail(s: string, w: Cur, location: IncludeLocation, line: nat): (r: (Cur, DeclResult<IncludeDecl>))
    ensures Parked(s, r.0) && r.0.index >= w.index
  {
    var (b, tk) := AsciiName(s, w);
    if tk == "" then (b, Err("Expected Identifier", "ascii identifier expected here", b.index - 1, b.index))
    else if b.oos then (b, OutOfSpace(b.index, IncludeEof))
    else
      var incType := if tk == "system" then System else Local;
      if tk == "local" || tk == "system" then
        var (u, path) := PathAfter(s, b, IncludeEof);
        (u, if path.Ok? then Ok(IncludeDecl(path.value, location, incType, line)) else Err(path.title, path.msg, path.start, path.end))
      else
        var (u, path) := PathFrom(s, b, IncludeEof);
        (u, if path.Ok? then Ok(IncludeDecl(tk + path.value, location, incType, line)) else Err(path.title, path.msg, path.start, path.end))
  }

  /** `IncludeDeclaration::new`. */
  method NewInclude(p: Parser) returns (r: DeclResult<IncludeDecl>)
    modifies p
    ensures (p.State(), r) == IncludeSpec(p.chars, old(p.State()))
  {
    var initialLine := p.line;
    var location := Header;
    var keyword, e := ParseAscii<IncludeDecl>(p, IncludeEof);
    if e.Some? {
      return e.value;
    }
    if keyword != "include" && keyword != "contain" {
      return Err("Unexpected Keyword", IncludeKeywordMsg, p.index - |keyword|, p.index);
    }
    if keyword == "contain" {
      location := Source;
    }
    e := RequireWhitespace(p, IncludeEof);
    if e.Some? {
      return e.value;
    }
    r := ParseIncludeTail(p, location, initialLine);
  }

  /** The type word and the path of an include. */
  method ParseIncludeTail(p: Parser, location: IncludeLocation, line: nat) returns (r: DeclResult<IncludeDecl>)
    modifies p
    ensures (p.State(), r) == IncludeTail(p.chars, old(p.State()), location, line)
  {
    var typeKeyword, e := ParseAscii<IncludeDecl>(p, IncludeEof);
    if e.Some? {
      return e.value;
    }
    var explicitType := false;
    var incType := Local;
    if typeKeyword == "local" {
      explicitType := true;
    } else if typeKeyword == "system" {
      incType := System;
      explicitType := true;
    }
    var path;
    if explicitType {
      path := ParsePath(p, IncludeEof);
    } else {
      path := ParsePathFrom(p, IncludeEof);
    }
    if path.Err? {
      return Err(path.title, path.msg, path.start, path.end);
    }
    var includePath := path.value;
    if !explicitType {
      includePath := typeKeyword + includePath;
    }
    return Ok(IncludeDecl(includePath, location, incType, line));
  }

  /**
   * A successful include goes to the header exactly for "include", is a
   * system header exactly when "system" was written, and starts on the
   * line the cursor was on.
   */
  lemma IncludeMeaning(s: string, c: Cur)
    ensures var (a, kw) := AsciiName(s, c);
      var r := IncludeSpec(s, c).1;
      r.Ok? ==>
        (kw == "include" || kw == "contain") && (r.value.location.IsHeader() <==> kw == "include") &&
        r.value.line == c.line &&
        (r.value.incType == System <==> AsciiName(s, Whitespace(s, a).0).1 == "system")
  {
    var (a, kw) := AsciiName(s, c);
    var r := IncludeSpec(s, c).1;
    if r.Ok? {
      var location := if kw == "contain" then Source else Header;
      var w := Whitespace(s, a).0;
      assert IncludeSpec(s, c) == IncludeTail(s, w, location, c.line);
    }
  }

  /**
   * Without "local" or "system" the word read is the start of the path:
   * the path is that word followed by the text up to the first ';'.
   */
  lemma ImplicitLocalPath(s: string, w: Cur, location: IncludeLocation, line: nat)
    requires var (b, tk) := AsciiName(s, w); tk != "" && !b.oos && tk != "local" && tk != "system"
    ensures var (b, tk) := AsciiName(s, w);
      var (u, r) := IncludeTail(s, w, location, line);
      r.Ok? <==> ';' in s[b.index..]
    ensures var (b, tk) := AsciiName(s, w);
      var (u, r) := IncludeTail(s, w, location, line);
      r.Ok? ==> r.value.incType == Local && r.value.path == tk + s[b.index..u.index] && s[u.index] == ';'
  {
    var (b, tk) := AsciiName(s, w);
    UntilCharFound(s, b, ';');
  }

  /** A recognised include gets past its keyword: the word read is one of the two keywords. */
  lemma RecognisedInclude(s: string, c: Cur)
    requires !c.oos && IsIncludeDeclaration(s, c.index)
    ensures AsciiName(s, c).1 == "include" || AsciiName(s, c).1 == "contain"
  {
    assert IsIdentifier("include") && IsIdentifier("contain");
    if StartsWithWord(Rest(s, c.index), "include") {
      KeywordIsName(s, c, "include");
    } else {
      KeywordIsName(s, c, "contain");
    }
  }
}
