// The declarations of one source file, in the order they are written
// (`ModuleDeclaration::new` of src/declaration_parser/module_declaration.rs).

module ModuleDeclarations {
  import opened Text
  import opened Wrappers
  import opened Scan
  import opened Cursor
  import opened Declarations
  import opened AttributeDeclarations
  import opened ModuleAttributeDeclarations
  import opened AssumeDeclarations
  import opened ImportDeclarations
  import opened IncludeDeclarations
  import opened InjectDeclarations
  import opened AttributeClassDeclarations
  import opened DeclarationTypes
  import opened AttributeLists
  import opened ClassDeclarations
  import opened RefurbishDeclarations

  /** The file-level loop's state: the declarations so far and the attributes waiting for the next one. */
  datatype ModuleState = ModuleState(declarations: seq<DeclarationType>, pending: seq<AttributeDecl>)

  /** What is left of the text; a loop pass that moves or reaches the end makes it smaller. */
  function Remaining(s: string, c: Cur): nat {
    if c.oos || c.index >= |s| then 0 else |s| - c.index
  }

  /** Moving forward, or reaching the end, from inside the text uses some of it up. */
  lemma RemainingShrinks(s: string, c: Cur, u: Cur)
    requires !c.oos && c.index < |s| && Parked(s, u)
    requires u.oos || u.index > c.index
    ensures Remaining(s, u) < Remaining(s, c)
  {
  }

  /** A declaration is parsed whole: a class obeys its style, and a refurbish holds only functions. */
  predicate Sound(d: DeclarationType) {
    (d.Class? ==> WellFormed(d.classDecl)) &&
    (d.Refurbish? ==> FunctionsOnly(d.refurbish.declarations))
  }

  /** Module attributes come before every other declaration. */
  predicate HeadersFirst(ds: seq<DeclarationType>) {
    forall i, j :: 0 <= i < j < |ds| && ds[j].ModuleAttribute? ==> ds[i].ModuleAttribute?
  }

  /** Only module attributes. */
  predicate HeadersOnly(ds: seq<DeclarationType>) {
    forall i :: 0 <= i < |ds| ==> ds[i].ModuleAttribute?
  }

  /** A declaration the second loop may add: whole, and not a module attribute. */
  predicate Fits(d: DeclarationType) {
    !d.ModuleAttribute? && Sound(d)
  }

  /** `d` is a declaration of the second loop carrying exactly the attributes `attrs`. */
  predicate Carries(d: DeclarationType, attrs: seq<AttributeDecl>) {
    !d.ModuleAttribute? && d.attributes == Pending(attrs)
  }

  /** A pass that leaves the declarations alone and adds at most one waiting attribute. */
  predicate Waiting(st: ModuleState, r: ModuleState) {
    r.declarations == st.declarations && |st.pending| <= |r.pending| <= |st.pending| + 1 && r.pending[..|st.pending|] == st.pending
  }

  /** A pass that clears the waiting attributes, giving them to the declaration it adds if one parsed. */
  predicate Given(st: ModuleState, r: ModuleState) {
    r.pending == [] &&
    (r.declarations == st.declarations ||
     (|r.declarations| == |st.declarations| + 1 && r.declarations[..|st.declarations|] == st.declarations &&
      Carries(r.declarations[|st.declarations|], st.pending)))
  }

  /** Attributes wait for the next declaration and go to it, or are dropped with it when it fails. */
  predicate Attached(st: ModuleState, r: ModuleState) {
    Waiting(st, r) || Given(st, r)
  }

  /** What the file's declarations look like at every point of the second loop. */
  predicate Layout(ds: seq<DeclarationType>) {
    HeadersFirst(ds) && forall i :: 0 <= i < |ds| ==> Sound(ds[i])
  }

  // ----- the module attributes at the head of the file -----

  /**
   * The first loop: blank text, then a module attribute line, again and
   * again; a line that fails to parse is dropped; the loop stops at the
   * first other text (after the blank before it) or at the end.
   */
  function HeaderLoop(s: string, c: Cur, ds: seq<DeclarationType>): (r: (Cur, seq<DeclarationType>))
    requires Parked(s, c)
    ensures Parked(s, r.0) && r.0.index >= c.index
    requires HeadersOnly(ds)
    ensures HeadersOnly(r.1) && |r.1| >= |ds|
    decreases Remaining(s, c)
  {
    if c.oos then (c, ds)
    else
      var w := Whitespace(s, c).0;
      if !ModuleAttributeLine(s, w.index) then (w, ds)
      else
        var (u, a) := HeaderStep(s, c, w);
        var ds' := if a.Ok? then ds + [ModuleAttribute(a.value)] else ds;
        assert HeadersOnly(ds');
        HeaderLoop(s, u, ds')
  }

  /** One module attribute, parsed where the blank text after `c` ends; it moves the cursor. */
  function HeaderStep(s: string, c: Cur, w: Cur): (r: (Cur, DeclResult<ModuleAttributeDecl>))
    requires !c.oos && w == Whitespace(s, c).0 && ModuleAttributeLine(s, w.index)
    ensures r == ModuleAttributeSpec(s, w)
    ensures Parked(s, r.0) && r.0.index > c.index && Remaining(s, r.0) < Remaining(s, c)
  {
    RecognisedModuleAttribute(s, w.index);
    assert w.index > c.index || (w == c && CurrOf(s, w) == '%');
    var r := ModuleAttributeSpec(s, w);
    RemainingShrinks(s, c, r.0);
    r
  }

  /** The first loop of `ModuleDeclaration::new`. */
  method ParseHeaders(p: Parser) returns (ds: seq<DeclarationType>)
    requires p.Parked()
    modifies p
    ensures (p.State(), ds) == HeaderLoop(p.chars, old(p.State()), [])
  {
    ds := [];
    while !p.outOfSpace
      invariant p.Parked() && HeadersOnly(ds)
      invariant HeaderLoop(p.chars, p.State(), ds) == HeaderLoop(p.chars, old(p.State()), [])
      decreases Remaining(p.chars, p.State())
    {
      ghost var c := p.State();
      var _ := p.ParseWhitespace();
      var line := IsModuleAttributeDeclaration(p.chars, p.index);
      if !line {
        return;
      }
      ghost var h := HeaderStep(p.chars, c, p.State());
      var a := NewModuleAttribute(p);
      if a.Ok? {
        ds := ds + [ModuleAttribute(a.value)];
        assert HeadersOnly(ds);
      }
    }
  }

  // ----- the declarations -----

  /** A declaration attempt: the declaration, if it parsed, with the pending attributes; they are cleared either way. */
  function Settle(st: ModuleState, d: Option<DeclarationType>): (r: ModuleState)
    ensures r.pending == []
    ensures r.declarations == st.declarations + (if d.Some? then [d.value] else [])
    ensures Layout(st.declarations) && (d.Some? ==> Fits(d.value)) ==> Layout(r.declarations)
    ensures (d.Some? ==> Carries(d.value, st.pending)) ==> Given(st, r)
  {
    ModuleState(st.declarations + (if d.Some? then [d.value] else []), [])
  }

  /** A pass that made one declaration attempt and moved on keeps the loop's invariants. */
  lemma Settled(s: string, c: Cur, u: Cur, st: ModuleState, d: Option<DeclarationType>)
    requires Parked(s, u) && u.index >= c.index && (u.oos || u.index > c.index)
    requires Layout(st.declarations) && (d.Some? ==> Fits(d.value) && Carries(d.value, st.pending))
    ensures Layout(Settle(st, d).declarations) && Attached(st, Settle(st, d))
  {
  }

  /** A pass that collected an attribute, or failed to, keeps the loop's invariants. */
  lemma Collected(st: ModuleState, a: Option<AttributeDecl>)
    requires Layout(st.declarations)
    ensures var st' := st.(pending := if a.Some? then st.pending + [a.value] else st.pending);
      Layout(st'.declarations) && Attached(st, st')
  {
  }

  /**
   * The second loop: attributes are collected; every other declaration
   * takes the attributes collected before it; the loop ends at the end of
   * the text or when a pass recognises nothing and cannot move.
   */
  function ModuleLoop(s: string, c: Cur, st: ModuleState, ps: MemberParsers): (r: (Cur, ModuleState))
    requires Parked(s, c) && Advancing(ps, s) && Layout(st.declarations)
    ensures Parked(s, r.0) && r.0.index >= c.index
    ensures Layout(r.1.declarations)
    decreases Remaining(s, c)
  {
    if c.oos then (c, st)
    else
      var (u, st', stop) := ModuleStep(s, c, st, ps);
      if stop then (u, st')
      else
        RemainingShrinks(s, c, u);
        ModuleLoop(s, u, st', ps)
  }

  /** Whether one of the keyword-led declarations is recognised at `i`. */
  predicate KeywordLed(s: string, i: nat) {
    IsClassDeclaration(s, i) || IsRefurbishDeclaration(s, i) || IsAssumeDeclaration(s, i) ||
    IsImportDeclaration(s, i) || IsIncludeDeclaration(s, i) || IsInjectDeclaration(s, i) ||
    IsAttributeClassDeclaration(s, i)
  }

  /** Every keyword-led declaration starts with a word its parser reads as a name. */
  lemma KeywordLedIsRead(s: string, w: Cur)
    ensures !w.oos && w.index < |s| && KeywordLed(s, w.index) ==> AsciiName(s, w).1 != []
  {
    if w.oos || w.index >= |s| || !KeywordLed(s, w.index) { }
    else if StartsWithWord(Rest(s, w.index), "class") { KeywordIsRead(s, w, "class"); }
    else if StartsWithWord(Rest(s, w.index), "abstract") { KeywordIsRead(s, w, "abstract"); }
    else if StartsWithWord(Rest(s, w.index), "enum") { KeywordIsRead(s, w, "enum"); }
    else if IsRefurbishDeclaration(s, w.index) { KeywordIsRead(s, w, "refurbish"); }
    else if IsAssumeDeclaration(s, w.index) { KeywordIsRead(s, w, "assume "); }
    else if IsImportDeclaration(s, w.index) { KeywordIsRead(s, w, "import "); }
    else if StartsWithWord(Rest(s, w.index), "include") { KeywordIsRead(s, w, "include"); }
    else if StartsWithWord(Rest(s, w.index), "contain") { KeywordIsRead(s, w, "contain"); }
    else if IsInjectDeclaration(s, w.index) { KeywordIsRead(s, w, "inject"); }
    else { KeywordIsRead(s, w, "attribute "); }
  }

  /**
   * One pass of the second loop, up to the refurbish parser; `stop` is set
   * where the source breaks out. A pass that goes on has moved the cursor
   * or reached the end.
   */
  function ModuleStep(s: string, c: Cur, st: ModuleState, ps: MemberParsers): (r: (Cur, ModuleState, bool))
    requires !c.oos && c.index < |s| && Advancing(ps, s) && Layout(st.declarations)
    ensures Parked(s, r.0) && r.0.index >= c.index
    ensures !r.2 ==> r.0.oos || r.0.index > c.index
    ensures Layout(r.1.declarations) && Attached(st, r.1)
  {
    var w := Whitespace(s, c).0;
    assert w.index > c.index || w == c;
    KeywordLedIsRead(s, w);
    if IsAttributeDeclaration(s, w.index) then
      var (u, a) := AttributeSpec(s, w, false);
      AttributeProgress(s, w, false);
      Collected(st, if a.Ok? then Some(a.value) else None);
      (u, st.(pending := if a.Ok? then st.pending + [a.value] else st.pending), false)
    else if ps.isFunction(s, w.index) then
      var (u, f) := ps.parseFunction(s, w, ModuleLevel);
      var d' := if f.Ok? then Some(DeclarationType.Function(f.value, Pending(st.pending))) else None;
      Settled(s, c, u, st, d');
      (u, Settle(st, d'), false)
    else ModuleClasses(s, c, w, st, ps)
  }

  /** The class and refurbish parsers, then the rest of the pass. */
  function ModuleClasses(s: string, c: Cur, w: Cur, st: ModuleState, ps: MemberParsers): (r: (Cur, ModuleState, bool))
    requires !c.oos && c.index < |s| && Advancing(ps, s) && Layout(st.declarations)
    requires Parked(s, w) && (w.index > c.index || w == c)
    requires !w.oos && KeywordLed(s, w.index) ==> AsciiName(s, w).1 != []
    ensures Parked(s, r.0) && r.0.index >= c.index
    ensures !r.2 ==> r.0.oos || r.0.index > c.index
    ensures Layout(r.1.declarations) && Attached(st, r.1)
  {
    if IsClassDeclaration(s, w.index) then
      var (u, d) := ClassSpec(s, w, ps);
      var d' := if d.Ok? then Some(DeclarationType.Class(d.value, Pending(st.pending))) else None;
      Settled(s, c, u, st, d');
      (u, Settle(st, d'), false)
    else if IsRefurbishDeclaration(s, w.index) then
      var (u, d) := RefurbishSpec(s, w, ps);
      var d' := if d.Ok? then Some(Refurbish(d.value, Pending(st.pending))) else None;
      Settled(s, c, u, st, d');
      (u, Settle(st, d'), false)
    else ModuleRest(s, c, w, st, ps)
  }

  /** The rest of a pass: the other declarations in the source's order, then one step forward. */
  function ModuleRest(s: string, c: Cur, w: Cur, st: ModuleState, ps: MemberParsers): (r: (Cur, ModuleState, bool))
    requires !c.oos && c.index < |s| && Advancing(ps, s) && Layout(st.declarations)
    requires Parked(s, w) && (w.index > c.index || w == c)
    requires !w.oos && KeywordLed(s, w.index) ==> AsciiName(s, w).1 != []
    ensures Parked(s, r.0) && r.0.index >= c.index
    ensures !r.2 ==> r.0.oos || r.0.index > c.index
    ensures Layout(r.1.declarations) && Attached(st, r.1)
  {
    if IsAssumeDeclaration(s, w.index) then
      var (u, d) := AssumeSpec(s, w);
      var d' := if d.Ok? then Some(Assume(d.value, Pending(st.pending))) else None;
      Settled(s, c, u, st, d');
      (u, Settle(st, d'), false)
    else if IsImportDeclaration(s, w.index) then
      var (u, d) := ImportSpec(s, w);
      var d' := if d.Ok? then Some(Import(d.value, Pending(st.pending))) else None;
      Settled(s, c, u, st, d');
      (u, Settle(st, d'), false)
    else ModuleInclude(s, c, w, st, ps)
  }

  /** The include parser, then the rest of the pass. */
  function ModuleInclude(s: string, c: Cur, w: Cur, st: ModuleState, ps: MemberParsers): (r: (Cur, ModuleState, bool))
    requires !c.oos && c.index < |s| && Advancing(ps, s) && Layout(st.declarations)
    requires Parked(s, w) && (w.index > c.index || w == c)
    requires !w.oos && KeywordLed(s, w.index) ==> AsciiName(s, w).1 != []
    ensures Parked(s, r.0) && r.0.index >= c.index
    ensures !r.2 ==> r.0.oos || r.0.index > c.index
    ensures Layout(r.1.declarations) && Attached(st, r.1)
  {
    if IsIncludeDeclaration(s, w.index) then
      var (u, d) := IncludeSpec(s, w);
      var d' := if d.Ok? then Some(Include(d.value, Pending(st.pending))) else None;
      Settled(s, c, u, st, d');
      (u, Settle(st, d'), false)
    else ModuleLate(s, c, w, st, ps)
  }

  /** The variable and inject parsers, then the rest of the pass. */
  function ModuleLate(s: string, c: Cur, w: Cur, st: ModuleState, ps: MemberParsers): (r: (Cur, ModuleState, bool))
    requires !c.oos && c.index < |s| && Advancing(ps, s) && Layout(st.declarations)
    requires Parked(s, w) && (w.index > c.index || w == c)
    requires !w.oos && KeywordLed(s, w.index) ==> AsciiName(s, w).1 != []
    ensures Parked(s, r.0) && r.0.index >= c.index
    ensures !r.2 ==> r.0.oos || r.0.index > c.index
    ensures Layout(r.1.declarations) && Attached(st, r.1)
  {
    if ps.isVariable(s, w.index) then
      var (u, d) := ps.parseVariable(s, w);
      var d' := if d.Ok? then Some(DeclarationType.Variable(d.value, Pending(st.pending))) else None;
      Settled(s, c, u, st, d');
      (u, Settle(st, d'), false)
    else if IsInjectDeclaration(s, w.index) then
      var (u, d) := InjectSpec(s, w);
      var d' := if d.Ok? then Some(Injection(d.value, Pending(st.pending))) else None;
      Settled(s, c, u, st, d');
      (u, Settle(st, d'), false)
    else ModuleEnd(s, c, w, st, ps)
  }

  /** The attribute class parser, then one step forward; the pass stops when that step cannot move. */
  function ModuleEnd(s: string, c: Cur, w: Cur, st: ModuleState, ps: MemberParsers): (r: (Cur, ModuleState, bool))
    requires !c.oos && c.index < |s| && Advancing(ps, s) && Layout(st.declarations)
    requires Parked(s, w) && (w.index > c.index || w == c)
    requires !w.oos && KeywordLed(s, w.index) ==> AsciiName(s, w).1 != []
    ensures Parked(s, r.0) && r.0.index >= c.index
    ensures !r.2 ==> r.0.oos || r.0.index > c.index
    ensures Layout(r.1.declarations) && Attached(st, r.1)
  {
    if IsAttributeClassDeclaration(s, w.index) then
      var (u, d) := AttributeClassSpec(s, w);
      var d' := if d.Ok? then Some(AttributeClass(d.value, Pending(st.pending))) else None;
      Settled(s, c, u, st, d');
      (u, Settle(st, d'), false)
    else
      var g := if !w.oos then Inc(s, w) else w;
      (g, st, g.index == w.index)
  }

  /**
   * `ModuleDeclaration::new`: the module attributes at the head of the
   * file, then everything else. Module attributes come first, and every
   * class and refurbish in the result is whole.
   */
  function ModuleSpec(s: string, c: Cur, ps: MemberParsers): (r: (Cur, seq<DeclarationType>))
    requires Parked(s, c) && Advancing(ps, s)
    ensures Parked(s, r.0) && r.0.index >= c.index
    ensures HeadersFirst(r.1)
    ensures forall i :: 0 <= i < |r.1| ==> Sound(r.1[i])
  {
    var (h, heads) := HeaderLoop(s, c, []);
    assert Layout(heads);
    var (u, st) := ModuleLoop(s, h, ModuleState(heads, []), ps);
    (u, st.declarations)
  }

  /** `ModuleDeclaration::new`, with the function and variable parsers as parameters. */
  method NewModule(p: Parser, ps: MemberParsers) returns (declarations: seq<DeclarationType>)
    requires p.Parked() && Advancing(ps, p.chars)
    modifies p
    ensures (p.State(), declarations) == ModuleSpec(p.chars, old(p.State()), ps)
  {
    var heads := ParseHeaders(p);
    assert Layout(heads);
    var st := ParseDeclarations(p, ModuleState(heads, []), ps);
    declarations := st.declarations;
  }

  /** The second loop of `ModuleDeclaration::new`. */
  method ParseDeclarations(p: Parser, st0: ModuleState, ps: MemberParsers) returns (st: ModuleState)
    requires p.Parked() && Advancing(ps, p.chars) && Layout(st0.declarations)
    modifies p
    ensures (p.State(), st) == ModuleLoop(p.chars, old(p.State()), st0, ps)
  {
    st := st0;
    while !p.outOfSpace
      invariant p.Parked() && Layout(st.declarations)
      invariant ModuleLoop(p.chars, p.State(), st, ps) == ModuleLoop(p.chars, old(p.State()), st0, ps)
      decreases Remaining(p.chars, p.State())
    {
      ghost var c := p.State();
      var stop;
      st, stop := ParseModuleStep(p, st, ps);
      if stop {
        return;
      }
      RemainingShrinks(p.chars, c, p.State());
    }
  }

  /** One pass of the second loop. */
  method ParseModuleStep(p: Parser, st: ModuleState, ps: MemberParsers) returns (st': ModuleState, stop: bool)
    requires !p.outOfSpace && p.index < |p.chars| && Advancing(ps, p.chars) && Layout(st.declarations)
    modifies p
    ensures (p.State(), st', stop) == ModuleStep(p.chars, old(p.State()), st, ps)
  {
    ghost var c := p.State();
    var _ := p.ParseWhitespace();
    ghost var w := p.State();
    assert w.index > c.index || w == c;
    KeywordLedIsRead(p.chars, w);
    if IsAttributeDeclaration(p.chars, p.index) {
      var a := NewAttribute(p, false);
      return st.(pending := if a.Ok? then st.pending + [a.value] else st.pending), false;
    }
    if ps.isFunction(p.chars, p.index) {
      var (u, f) := ps.parseFunction(p.chars, p.State(), ModuleLevel);
      p.MoveTo(u);
      return Settle(st, if f.Ok? then Some(DeclarationType.Function(f.value, Pending(st.pending))) else None), false;
    }
    st', stop := ParseModuleClasses(p, st, ps, c);
  }

  /** The class and refurbish parsers, then the rest of the pass. */
  method ParseModuleClasses(p: Parser, st: ModuleState, ps: MemberParsers, ghost c: Cur) returns (st': ModuleState, stop: bool)
    requires !c.oos && c.index < |p.chars| && Advancing(ps, p.chars) && Layout(st.declarations)
    requires p.State() == Whitespace(p.chars, c).0 && (p.index > c.index || p.State() == c)
    requires !p.outOfSpace && KeywordLed(p.chars, p.index) ==> AsciiName(p.chars, p.State()).1 != []
    modifies p
    ensures (p.State(), st', stop) == ModuleClasses(p.chars, c, old(p.State()), st, ps)
  {
    if IsClassDeclaration(p.chars, p.index) {
      var d := NewClass(p, ps);
      return Settle(st, if d.Ok? then Some(DeclarationType.Class(d.value, Pending(st.pending))) else None), false;
    }
    if IsRefurbishDeclaration(p.chars, p.index) {
      var d := NewRefurbish(p, ps);
      return Settle(st, if d.Ok? then Some(Refurbish(d.value, Pending(st.pending))) else None), false;
    }
    st', stop := ParseModuleRest(p, st, ps, c);
  }

  /** The rest of a pass. */
  method ParseModuleRest(p: Parser, st: ModuleState, ps: MemberParsers, ghost c: Cur) returns (st': ModuleState, stop: bool)
    requires !c.oos && c.index < |p.chars| && Advancing(ps, p.chars) && Layout(st.declarations)
    requires p.State() == Whitespace(p.chars, c).0 && (p.index > c.index || p.State() == c)
    requires !p.outOfSpace && KeywordLed(p.chars, p.index) ==> AsciiName(p.chars, p.State()).1 != []
    modifies p
    ensures (p.State(), st', stop) == ModuleRest(p.chars, c, old(p.State()), st, ps)
  {
    if IsAssumeDeclaration(p.chars, p.index) {
      var d := NewAssume(p);
      return Settle(st, if d.Ok? then Some(Assume(d.value, Pending(st.pending))) else None), false;
    }
    if IsImportDeclaration(p.chars, p.index) {
      var d := NewImport(p);
      return Settle(st, if d.Ok? then Some(Import(d.value, Pending(st.pending))) else None), false;
    }
    if IsIncludeDeclaration(p.chars, p.index) {
      var d := NewInclude(p);
      return Settle(st, if d.Ok? then Some(Include(d.value, Pending(st.pending))) else None), false;
    }
    st', stop := ParseModuleLate(p, st, ps, c);
  }

  /** The variable and inject parsers, then the rest of the pass. */
  method ParseModuleLate(p: Parser, st: ModuleState, ps: MemberParsers, ghost c: Cur) returns (st': ModuleState, stop: bool)
    requires !c.oos && c.index < |p.chars| && Advancing(ps, p.chars) && Layout(st.declarations)
    requires p.State() == Whitespace(p.chars, c).0 && (p.index > c.index || p.State() == c)
    requires !p.outOfSpace && KeywordLed(p.chars, p.index) ==> AsciiName(p.chars, p.State()).1 != []
    modifies p
    ensures (p.State(), st', stop) == ModuleLate(p.chars, c, old(p.State()), st, ps)
  {
    var initialIndex := p.index;
    if ps.isVariable(p.chars, p.index) {
      var (u, d) := ps.parseVariable(p.chars, p.State());
      p.MoveTo(u);
      return Settle(st, if d.Ok? then Some(DeclarationType.Variable(d.value, Pending(st.pending))) else None), false;
    }
    if IsInjectDeclaration(p.chars, p.index) {
      var d := NewInject(p);
      return Settle(st, if d.Ok? then Some(Injection(d.value, Pending(st.pending))) else None), false;
    }
    if IsAttributeClassDeclaration(p.chars, p.index) {
      var d := NewAttributeClass(p);
      return Settle(st, if d.Ok? then Some(AttributeClass(d.value, Pending(st.pending))) else None), false;
    }
    if !p.outOfSpace {
      var _ := p.Increment();
    }
    return st, p.index == initialIndex;
  }
}
