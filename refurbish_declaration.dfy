// Refurbish declarations, which add functions to an existing type
// (src/declaration_parser/refurbish_declaration.rs).

module RefurbishDeclarations {
  import opened Text
  import opened Wrappers
  import opened Scan
  import opened TypeScan
  import opened VariableTypes
  import opened Cursor
  import opened Declarations
  import opened AttributeDeclarations
  import opened DeclarationTypes
  import opened ClassDeclarations

  const RefurbishEof := "unexpected end of function"

  /** `is_refurbish_declaration`: the word "refurbish" at `i`. */
  predicate IsRefurbishDeclaration(s: string, i: nat) {
    StartsWithWord(Rest(s, i), "refurbish")
  }

  // ----- parsing -----

  /** What `RefurbishDeclaration::new` makes of the text at `c`: the keyword, a type, and the body. */
  function RefurbishSpec(s: string, c: Cur, ps: MemberParsers): (r: (Cur, DeclResult<RefurbishDecl>))
    requires Monotone(ps, s)
    ensures Parked(s, r.0) && r.0.index >= c.index
    ensures AsciiName(s, c).1 != "" ==> r.0.index > c.index
    ensures r.1.Ok? ==> AsciiName(s, c).1 == "refurbish" && FunctionsOnly(r.1.value.declarations)
  {
    var (a, kw) := AsciiName(s, c);
    if kw == "" then (a, Err("Expected Identifier", "ascii identifier expected here", a.index - 1, a.index))
    else if a.oos then (a, OutOfSpace(a.index, RefurbishEof))
    else if kw != "refurbish" then (a, Err("Unexpected Keyword", "\"refurbish\" keyword expected", a.index - |kw|, a.index))
    else RefurbishSpaced(s, a, ps)
  }

  /** The blank text required after the keyword, then the type and the body. */
  function RefurbishSpaced(s: string, a: Cur, ps: MemberParsers): (r: (Cur, DeclResult<RefurbishDecl>))
    requires Monotone(ps, s)
    ensures Parked(s, r.0) && r.0.index >= a.index
    ensures r.1.Ok? ==> FunctionsOnly(r.1.value.declarations)
  {
    var (w, skipped) := Whitespace(s, a);
    if !skipped then (w, Err("Expected Space", "whitspace expected here", w.index - 1, w.index))
    else if w.oos then (w, OutOfSpace(w.index, RefurbishEof))
    else RefurbishTyped(s, w, ps)
  }

  /** The refurbished type, the blank after it, then the body. */
  function RefurbishTyped(s: string, w: Cur, ps: MemberParsers): (r: (Cur, DeclResult<RefurbishDecl>))
    requires Monotone(ps, s)
    ensures Parked(s, r.0) && r.0.index >= w.index
    ensures r.1.Ok? ==> FunctionsOnly(r.1.value.declarations)
  {
    var pt := PType(s, w, NoFlags);
    var f := TypeFailure<RefurbishDecl>(pt.flags, pt.cur, RefurbishEof);
    if f.Some? then (pt.cur, f.value)
    else
      var v := Whitespace(s, pt.cur).0;
      if v.oos then (v, OutOfSpace(v.index, RefurbishEof))
      else RefurbishOpen(s, v, pt.t, ps)
  }

  /** '{', then the functions up to '}'. */
  function RefurbishOpen(s: string, v: Cur, t: Type, ps: MemberParsers): (r: (Cur, DeclResult<RefurbishDecl>))
    requires Monotone(ps, s) && Parked(s, v)
    ensures Parked(s, r.0) && r.0.index >= v.index
    ensures r.1.Ok? ==> r.1.value.refurbishType == t && FunctionsOnly(r.1.value.declarations)
  {
    if CurrOf(s, v) != '{' then (v, Err("Unexpected Symbol", "expected '{' operator", v.index, v.index + 1))
    else if Inc(s, v).index >= |s| then (Inc(s, v), OutOfSpace(v.index + 1, RefurbishEof))
    else
      var (u, body) := RefurbishLoop(s, Inc(s, v), EmptyBody(ClassStyle.Class), ps);
      (u, Ok(RefurbishDecl(t, body.declarations)))
  }

  /**
   * The body loop: attributes are collected; functions are parsed as
   * class-level functions and kept with the attributes before them; any
   * other character is stepped over; the loop stops on '}' (not consumed),
   * at the end, or when a pass makes no progress.
   */
  function RefurbishLoop(s: string, c: Cur, body: ClassBody, ps: MemberParsers): (r: (Cur, ClassBody))
    requires !c.oos && c.index < |s| && Monotone(ps, s)
    requires Shaped(ClassStyle.Class, body) && MembersOnly(ClassStyle.Class, body) && FunctionsOnly(body.declarations)
    ensures Parked(s, r.0) && r.0.index >= c.index
    ensures FunctionsOnly(r.1.declarations)
    ensures r.0.oos || CurrOf(s, r.0) == '}'
    decreases |s| - c.index
  {
    var (u, body', stop) := RefurbishStep(s, c, body, ps);
    if stop || u.oos then (u, body') else RefurbishLoop(s, u, body', ps)
  }

  /** One pass of the body loop; `stop` is set where the source breaks out. */
  function RefurbishStep(s: string, c: Cur, body: ClassBody, ps: MemberParsers): (r: (Cur, ClassBody, bool))
    requires !c.oos && c.index < |s| && Monotone(ps, s)
    requires Shaped(ClassStyle.Class, body) && MembersOnly(ClassStyle.Class, body) && FunctionsOnly(body.declarations)
    ensures Parked(s, r.0) && r.0.index >= c.index
    ensures Shaped(ClassStyle.Class, r.1) && MembersOnly(ClassStyle.Class, r.1) && FunctionsOnly(r.1.declarations)
    ensures r.2 ==> r.0.oos || CurrOf(s, r.0) == '}'
    ensures !r.2 && !r.0.oos ==> c.index < r.0.index < |s|
  {
    var w := Whitespace(s, c).0;
    if IsAttributeDeclaration(s, w.index) then
      var (u, a) := AttributeSpec(s, w, false);
      AttributeProgress(s, w, false);
      (u, body.(pending := if a.Ok? then body.pending + [a.value] else body.pending), false)
    else if ps.isFunction(s, w.index) then
      var (u, b) := FunctionMember(s, w, false, ClassStyle.Class, body, ps);
      (u, b, false)
    else if CurrOf(s, w) == '}' then (w, body, true)
    else
      var g := if !w.oos then Inc(s, w) else w;
      (g, body, g.index == w.index)
  }

  /** `RefurbishDeclaration::new`, with the function parser as a parameter. */
  method NewRefurbish(p: Parser, ps: MemberParsers) returns (r: DeclResult<RefurbishDecl>)
    requires Monotone(ps, p.chars)
    modifies p
    ensures (p.State(), r) == RefurbishSpec(p.chars, old(p.State()), ps)
  {
    var keyword, e := ParseAscii<RefurbishDecl>(p, RefurbishEof);
    if e.Some? {
      return e.value;
    }
    if keyword != "refurbish" {
      return Err("Unexpected Keyword", "\"refurbish\" keyword expected", p.index - |keyword|, p.index);
    }
    r := ParseRefurbishSpaced(p, ps);
  }

  /** The blank text after the keyword, the type and the body. */
  method ParseRefurbishSpaced(p: Parser, ps: MemberParsers) returns (r: DeclResult<RefurbishDecl>)
    requires Monotone(ps, p.chars)
    modifies p
    ensures (p.State(), r) == RefurbishSpaced(p.chars, old(p.State()), ps)
  {
    var e := RequireWhitespace(p, RefurbishEof);
    if e.Some? {
      return e.value;
    }
    r := ParseRefurbishTyped(p, ps);
  }

  /** The type and the body. */
  method ParseRefurbishTyped(p: Parser, ps: MemberParsers) returns (r: DeclResult<RefurbishDecl>)
    requires Monotone(ps, p.chars)
    modifies p
    ensures (p.State(), r) == RefurbishTyped(p.chars, old(p.State()), ps)
  {
    var t, e := TypeOrFail<RefurbishDecl>(p, RefurbishEof);
    if e.Some? {
      return e.value;
    }
    e := SkipWhitespace(p, RefurbishEof);
    if e.Some? {
      return e.value;
    }
    r := ParseRefurbishOpen(p, t, ps);
  }

  /** '{' and the body. */
  method ParseRefurbishOpen(p: Parser, t: Type, ps: MemberParsers) returns (r: DeclResult<RefurbishDecl>)
    requires Monotone(ps, p.chars) && p.Parked()
    modifies p
    ensures (p.State(), r) == RefurbishOpen(p.chars, old(p.State()), t, ps)
  {
    ghost var v := p.State();
    var next, e := RequireNextChar<RefurbishDecl>(p, '{', "expected '{' operator", RefurbishEof);
    if e.Some? {
      return e.value;
    }
    assert p.State() == Inc(p.chars, v) && p.index < |p.chars|;
    var body := ParseRefurbishBody(p, ps);
    return Ok(RefurbishDecl(t, body.declarations));
  }

  /** The body loop of `RefurbishDeclaration::new`. */
  method ParseRefurbishBody(p: Parser, ps: MemberParsers) returns (body: ClassBody)
    requires !p.outOfSpace && p.index < |p.chars| && Monotone(ps, p.chars)
    modifies p
    ensures (p.State(), body) == RefurbishLoop(p.chars, old(p.State()), EmptyBody(ClassStyle.Class), ps)
  {
    body := EmptyBody(ClassStyle.Class);
    while true
      invariant !p.outOfSpace && p.index < |p.chars|
      invariant Shaped(ClassStyle.Class, body) && MembersOnly(ClassStyle.Class, body) && FunctionsOnly(body.declarations)
      invariant RefurbishLoop(p.chars, p.State(), body, ps) == RefurbishLoop(p.chars, old(p.State()), EmptyBody(ClassStyle.Class), ps)
      decreases |p.chars| - p.index
    {
      ghost var c := p.State();
      ghost var b := body;
      var stop;
      body, stop := ParseRefurbishStep(p, body, ps);
      if stop || p.outOfSpace {
        RefurbishLoopStops(p.chars, c, b, ps);
        return;
      }
      RefurbishLoopGoesOn(p.chars, c, b, ps);
    }
  }

  lemma RefurbishLoopStops(s: string, c: Cur, body: ClassBody, ps: MemberParsers)
    requires !c.oos && c.index < |s| && Monotone(ps, s)
    requires Shaped(ClassStyle.Class, body) && MembersOnly(ClassStyle.Class, body) && FunctionsOnly(body.declarations)
    requires RefurbishStep(s, c, body, ps).2 || RefurbishStep(s, c, body, ps).0.oos
    ensures RefurbishLoop(s, c, body, ps) == (RefurbishStep(s, c, body, ps).0, RefurbishStep(s, c, body, ps).1)
  {
  }

  lemma RefurbishLoopGoesOn(s: string, c: Cur, body: ClassBody, ps: MemberParsers)
    requires !c.oos && c.index < |s| && Monotone(ps, s)
    requires Shaped(ClassStyle.Class, body) && MembersOnly(ClassStyle.Class, body) && FunctionsOnly(body.declarations)
    requires !RefurbishStep(s, c, body, ps).2 && !RefurbishStep(s, c, body, ps).0.oos
    ensures RefurbishLoop(s, c, body, ps) == RefurbishLoop(s, RefurbishStep(s, c, body, ps).0, RefurbishStep(s, c, body, ps).1, ps)
  {
  }

  /** One pass of the body loop. */
  method ParseRefurbishStep(p: Parser, body: ClassBody, ps: MemberParsers) returns (body': ClassBody, stop: bool)
    requires !p.outOfSpace && p.index < |p.chars| && Monotone(ps, p.chars)
    requires Shaped(ClassStyle.Class, body) && MembersOnly(ClassStyle.Class, body) && FunctionsOnly(body.declarations)
    modifies p
    ensures (p.State(), body', stop) == RefurbishStep(p.chars, old(p.State()), body, ps)
  {
    var _ := p.ParseWhitespace();
    var initialIndex := p.index;
    if IsAttributeDeclaration(p.chars, p.index) {
      var a := NewAttribute(p, false);
      return body.(pending := if a.Ok? then body.pending + [a.value] else body.pending), false;
    }
    if ps.isFunction(p.chars, p.index) {
      body' := ParseFunctionMember(p, false, ClassStyle.Class, body, ps);
      return body', false;
    }
    if p.Curr() == '}' {
      return body, true;
    }
    if !p.outOfSpace {
      var _ := p.Increment();
    }
    return body, p.index == initialIndex;
  }

  // ----- the name of a refurbishment -----

  /** `\s` of the regular expression: a character with the Unicode White_Space property. */
  predicate IsUnicodeSpace(ch: char) {
    ('\t' <= ch <= '\r') || ch == ' ' || ch == '\U{85}' || ch == '\U{A0}' || ch == '\U{1680}' ||
    ('\U{2000}' <= ch <= '\U{200A}') || ch == '\U{2028}' || ch == '\U{2029}' || ch == '\U{202F}' ||
    ch == '\U{205F}' || ch == '\U{3000}'
  }

  /** A character the name pattern replaces on its own: '.', '<', '>', ',' or a blank. */
  predicate Separator(ch: char) {
    ch == '.' || ch == '<' || ch == '>' || ch == ',' || IsUnicodeSpace(ch)
  }

  /**
   * Each match of `\.|::|<|>|,|\s`, scanned from the left, replaced by '_':
   * "::" becomes one '_', a single ':' stays.
   */
  function Underscored(t: string): (r: string)
    ensures |r| <= |t|
  {
    if |t| == 0 then ""
    else if |t| >= 2 && t[0] == ':' && t[1] == ':' then "_" + Underscored(t[2..])
    else if Separator(t[0]) then "_" + Underscored(t[1..])
    else [t[0]] + Underscored(t[1..])
  }

  /** No separator and no "::" in the text. */
  predicate Clean(r: string) {
    (forall i :: 0 <= i < |r| ==> !Separator(r[i])) &&
    (forall i :: 0 <= i < |r| - 1 ==> !(r[i] == ':' && r[i + 1] == ':'))
  }

  /** `make_name`: the C++ spelling of the refurbished type with every separator replaced. */
  function MakeName(d: RefurbishDecl): string
    requires Spellable(d.refurbishType)
  {
    Underscored(TypeToCpp(d.refurbishType))
  }

  /** The result holds no separator and no "::", and starts with ':' only where the text starts with a lone ':'. */
  lemma {:induction false} UnderscoredIsClean(t: string)
    ensures Clean(Underscored(t))
    ensures |Underscored(t)| > 0 && Underscored(t)[0] == ':' ==> |t| > 0 && t[0] == ':' && !(|t| >= 2 && t[1] == ':')
    ensures |t| > 0 ==> |Underscored(t)| > 0
    decreases |t|
  {
    if |t| == 0 {
    } else if |t| >= 2 && t[0] == ':' && t[1] == ':' {
      UnderscoredIsClean(t[2..]);
      CleanCons('_', Underscored(t[2..]));
    } else if Separator(t[0]) {
      UnderscoredIsClean(t[1..]);
      CleanCons('_', Underscored(t[1..]));
    } else {
      UnderscoredIsClean(t[1..]);
      if t[0] == ':' && |t| >= 2 {
        assert t[1..][0] != ':';
      }
      CleanCons(t[0], Underscored(t[1..]));
    }
  }

  /** Putting a non-separator in front of clean text keeps it clean unless that makes "::". */
  lemma CleanCons(ch: char, r: string)
    requires Clean(r) && !Separator(ch) && !(ch == ':' && |r| > 0 && r[0] == ':')
    ensures Clean([ch] + r)
  {
    var x := [ch] + r;
    forall i | 0 <= i < |x| - 1
      ensures !(x[i] == ':' && x[i + 1] == ':')
    {
      if i > 0 {
        assert x[i] == r[i - 1] && x[i + 1] == r[i];
      }
    }
  }

  /** Clean text is left as it is. */
  lemma {:induction false} CleanUnchanged(t: string)
    requires Clean(t)
    ensures Underscored(t) == t
    decreases |t|
  {
    if |t| > 0 {
      assert Clean(t[1..]) by {
        forall i | 0 <= i < |t[1..]| - 1
          ensures !(t[1..][i] == ':' && t[1..][i + 1] == ':')
        {
          assert t[1..][i] == t[i + 1] && t[1..][i + 1] == t[i + 2];
        }
      }
      CleanUnchanged(t[1..]);
      assert t == [t[0]] + t[1..];
    }
  }

  /** Replacing twice is replacing once. */
  lemma UnderscoredIdempotent(t: string)
    ensures Underscored(Underscored(t)) == Underscored(t)
  {
    UnderscoredIsClean(t);
    CleanUnchanged(Underscored(t));
  }
}
