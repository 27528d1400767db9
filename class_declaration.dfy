// Class, abstract and enum declarations: parsing, the C++ head line and the
// class description a class adds to the typing context
// (src/declaration_parser/class_declaration.rs).

module ClassDeclarations {
  import opened Text
  import opened Wrappers
  import opened Scan
  import opened TypeScan
  import opened VariableTypes
  import opened Cursor
  import opened Declarations
  import opened AttributeDeclarations
  import opened DeclarationTypes
  import opened AttributeLists
  import opened Members
  import opened HeaderContexts
  import opened Contexts

  const ClassEof := "unexpected end of function"
  const ClassKeywordMsg := "\"class\" or \"abstract\" or \"enum\" keyword expected"

  /** `is_class_declaration`: the text at `i` starts with the word class, abstract or enum. */
  predicate IsClassDeclaration(s: string, i: nat) {
    StartsWithWord(Rest(s, i), "class") || StartsWithWord(Rest(s, i), "abstract") || StartsWithWord(Rest(s, i), "enum")
  }

  /** The body of a class as its loop builds it: members, abstract members, and attributes waiting for a member. */
  datatype ClassBody = ClassBody(
    declarations: seq<DeclarationType>,
    abstractDeclarations: Option<seq<DeclarationType>>,
    pending: seq<AttributeDecl>)

  /** An abstract, and only an abstract, keeps a list of abstract members. */
  predicate Shaped(style: ClassStyle, body: ClassBody) {
    style.Abstract? <==> body.abstractDeclarations.Some?
  }

  /**
   * A body holds only members: functions and variables, and in the
   * abstract list of an abstract, functions only.
   */
  predicate MembersOnly(style: ClassStyle, body: ClassBody) {
    (forall i :: 0 <= i < |body.declarations| ==> body.declarations[i].Function? || body.declarations[i].Variable?) &&
    (body.abstractDeclarations.Some? ==>
      forall i :: 0 <= i < |body.abstractDeclarations.value| ==> body.abstractDeclarations.value[i].Function?)
  }

  /** Every declaration is a function. */
  predicate FunctionsOnly(ds: seq<DeclarationType>) {
    forall i :: 0 <= i < |ds| ==> ds[i].Function?
  }

  /** The body of a parsed class. */
  function BodyOf(d: ClassDecl): ClassBody {
    ClassBody(d.declarations, d.abstractDeclarations, [])
  }

  /**
   * What every parsed class satisfies: its members are functions and
   * variables, only an abstract has abstract members (all of them
   * functions), only a class or an abstract extends anything, and an
   * abstract "becomes" at most one type.
   */
  predicate WellFormed(d: ClassDecl) {
    Shaped(d.classType, BodyOf(d)) && MembersOnly(d.classType, BodyOf(d)) &&
    (d.extensions.Some? ==> |d.extensions.value| > 0 && !d.classType.Enum?) &&
    (d.extensions.Some? && d.classType.Abstract? ==> |d.extensions.value| == 1)
  }

  /** What a pass of the body loop tells the loop: go on, stop, or fail on a variable at an index. */
  datatype Step = Go | Halt | Fail(at: nat)

  // ----- the head: keyword, name, extensions -----

  /** What `ClassDeclaration::new` makes of the text at `c`. */
  function ClassSpec(s: string, c: Cur, ps: MemberParsers): (r: (Cur, DeclResult<ClassDecl>))
    requires Monotone(ps, s)
    ensures Parked(s, r.0) && r.0.index >= c.index
    ensures AsciiName(s, c).1 != "" ==> r.0.index > c.index
    ensures r.1.Ok? ==> StyleOf(AsciiName(s, c).1) == Some(r.1.value.classType)
    ensures r.1.Ok? ==> r.1.value.name != "" && WellFormed(r.1.value)
  {
    var (a, kw) := AsciiName(s, c);
    if kw == "" then (a, Err("Expected Identifier", "ascii identifier expected here", a.index - 1, a.index))
    else if a.oos then (a, OutOfSpace(a.index, ClassEof))
    else if StyleOf(kw).None? then (a, Err("Unexpected Keyword", ClassKeywordMsg, a.index - |kw|, a.index))
    else ClassStyled(s, a, StyleOf(kw).value, ps)
  }

  /** The blank required after the keyword, then the name. */
  function ClassStyled(s: string, a: Cur, style: ClassStyle, ps: MemberParsers): (r: (Cur, DeclResult<ClassDecl>))
    requires Monotone(ps, s)
    ensures Parked(s, r.0) && r.0.index >= a.index
    ensures r.1.Ok? ==> r.1.value.classType == style && r.1.value.name != "" && WellFormed(r.1.value)
  {
    var (w, skipped) := Whitespace(s, a);
    if !skipped then (w, Err("Expected Space", "whitspace expected here", w.index - 1, w.index))
    else if w.oos then (w, OutOfSpace(w.index, ClassEof))
    else ClassNamed(s, w, style, ps)
  }

  /** The class name and the blank after it. */
  function ClassNamed(s: string, w: Cur, style: ClassStyle, ps: MemberParsers): (r: (Cur, DeclResult<ClassDecl>))
    requires Monotone(ps, s)
    ensures Parked(s, r.0) && r.0.index >= w.index
    ensures r.1.Ok? ==> r.1.value.classType == style && r.1.value.name != "" && WellFormed(r.1.value)
  {
    var (n, name) := AsciiName(s, w);
    if name == "" then (n, Err("Class Name Missing", "class name missing", n.index - 1, n.index))
    else if n.oos then (n, OutOfSpace(n.index, ClassEof))
    else ClassGap(s, n, style, name, ps)
  }

  /** The blank required after the name, then the head. */
  function ClassGap(s: string, n: Cur, style: ClassStyle, name: string, ps: MemberParsers): (r: (Cur, DeclResult<ClassDecl>))
    requires Monotone(ps, s)
    ensures Parked(s, r.0) && r.0.index >= n.index
    ensures r.1.Ok? ==> r.1.value.classType == style && r.1.value.name == name && WellFormed(r.1.value)
  {
    var (x, skipped) := Whitespace(s, n);
    if !skipped then (x, Err("Expected Space", "whitspace expected here", x.index - 1, x.index))
    else if x.oos then (x, OutOfSpace(x.index, ClassEof))
    else ClassHead(s, x, style, name, ps)
  }

  /**
   * Before '{': "extends" (classes only) with a list of types, "becomes"
   * (abstracts only) with one type, or any other word, which is skipped.
   */
  function ClassHead(s: string, x: Cur, style: ClassStyle, name: string, ps: MemberParsers): (r: (Cur, DeclResult<ClassDecl>))
    requires Monotone(ps, s) && Parked(s, x)
    ensures Parked(s, r.0) && r.0.index >= x.index
    ensures r.1.Ok? ==> r.1.value.classType == style && r.1.value.name == name && WellFormed(r.1.value)
  {
    if CurrOf(s, x) == '{' then ClassOpen(s, x, style, name, [], ps)
    else ClassWord(s, x, style, name, ps)
  }

  /** The word before '{': "extends", "becomes" or any other, which is skipped. */
  function ClassWord(s: string, x: Cur, style: ClassStyle, name: string, ps: MemberParsers): (r: (Cur, DeclResult<ClassDecl>))
    requires Monotone(ps, s)
    ensures Parked(s, r.0) && r.0.index >= x.index
    ensures r.1.Ok? ==> r.1.value.classType == style && r.1.value.name == name && WellFormed(r.1.value)
  {
    var (e, word) := AsciiName(s, x);
    if word == "" then (e, Err("Expected Identifier", "ascii identifier expected here", e.index - 1, e.index))
    else if e.oos then (e, OutOfSpace(e.index, ClassEof))
    else ClassKeyword(s, e, word, style, name, ps)
  }

  /** What the word just read leads to. */
  function ClassKeyword(s: string, e: Cur, word: string, style: ClassStyle, name: string, ps: MemberParsers): (r: (Cur, DeclResult<ClassDecl>))
    requires Monotone(ps, s) && Parked(s, e)
    ensures Parked(s, r.0) && r.0.index >= e.index
    ensures r.1.Ok? ==> r.1.value.classType == style && r.1.value.name == name && WellFormed(r.1.value)
  {
    if word == "extends" then
      if !style.Class? then (e, Err("Unexpected Keyword", "\"extends\" can only be used with \"class\"", e.index - |word|, e.index))
      else ClassExtends(s, e, name, ps)
    else if word == "becomes" then
      if !style.Abstract? then (e, Err("Unexpected Keyword", "\"becomes\" can only be used with \"abstract\"", e.index - |word|, e.index))
      else ClassBecomes(s, e, name, ps)
    else ClassOpen(s, e, style, name, [], ps)
  }

  /** After "extends": the list of types, then the body. */
  function ClassExtends(s: string, e: Cur, name: string, ps: MemberParsers): (r: (Cur, DeclResult<ClassDecl>))
    requires Monotone(ps, s)
    ensures Parked(s, r.0) && r.0.index >= e.index
    ensures r.1.Ok? ==> r.1.value.classType == ClassStyle.Class && r.1.value.name == name && WellFormed(r.1.value)
  {
    var (y, skipped) := Whitespace(s, e);
    if !skipped then (y, Err("Expected Space", "whitspace expected here", y.index - 1, y.index))
    else if y.oos then (y, OutOfSpace(y.index, ClassEof))
    else
      var (u, ts) := ExtendsLoop(s, y);
      if ts.Err? then (u, Err(ts.title, ts.msg, ts.start, ts.end))
      else ClassOpen(s, u, ClassStyle.Class, name, ts.value, ps)
  }

  /** After "becomes": one type, then the body. */
  function ClassBecomes(s: string, e: Cur, name: string, ps: MemberParsers): (r: (Cur, DeclResult<ClassDecl>))
    requires Monotone(ps, s)
    ensures Parked(s, r.0) && r.0.index >= e.index
    ensures r.1.Ok? ==> r.1.value.classType == Abstract && r.1.value.name == name && WellFormed(r.1.value)
    ensures r.1.Ok? ==> r.1.value.extensions.Some? && |r.1.value.extensions.value| == 1
  {
    var (y, skipped) := Whitespace(s, e);
    if !skipped then (y, Err("Expected Space", "whitspace expected here", y.index - 1, y.index))
    else if y.oos then (y, OutOfSpace(y.index, ClassEof))
    else
      var pt := PType(s, y, NoFlags);
      var f := TypeFailure<ClassDecl>(pt.flags, pt.cur, ClassEof);
      if f.Some? then (pt.cur, f.value)
      else
        var v := Whitespace(s, pt.cur).0;
        if v.oos then (v, OutOfSpace(v.index, ClassEof))
        else ClassOpen(s, v, Abstract, name, [pt.t], ps)
  }

  /**
   * The extends list: types separated by the word "and", up to '{'.
   */
  function ExtendsLoop(s: string, y: Cur): (r: (Cur, DeclResult<seq<Type>>))
    requires y.index <= |s|
    ensures Parked(s, r.0)
    ensures r.0.index >= y.index
    decreases |s| - y.index
  {
    var (z, t, e) := ExtendsItem(s, y);
    if e.Some? then (z, e.value)
    else if CurrOf(s, z) == '{' then (z, Ok([t]))
    else
      var (z', e') := ExtendsSeparator(s, z);
      if e'.Some? then (z', e'.value)
      else PrependAll([t], ExtendsLoop(s, z'))
  }

  /** One type of the list and the blank after it; when there is no error, the cursor is inside the text. */
  function ExtendsItem(s: string, y: Cur): (r: (Cur, Type, Option<DeclResult<seq<Type>>>))
    ensures Parked(s, r.0) && r.0.index >= y.index
    ensures r.2.None? ==> !r.0.oos && r.0.index < |s|
    ensures r.2.Some? ==> r.2.value.Err?
  {
    var pt := PType(s, y, NoFlags);
    var f := TypeFailure<seq<Type>>(pt.flags, pt.cur, ClassEof);
    if f.Some? then (pt.cur, pt.t, f)
    else
      var v := Whitespace(s, pt.cur).0;
      (v, pt.t, EndCheck(v, ClassEof))
  }

  /**
   * The word between two types, which must be "and", and the blank after
   * it. The error for another word spans the cursor after the blank.
   */
  function ExtendsSeparator(s: string, v: Cur): (r: (Cur, Option<DeclResult<seq<Type>>>))
    requires !v.oos
    ensures Parked(s, r.0)
    ensures r.1.None? ==> !r.0.oos && r.0.index > v.index
    ensures r.1.Some? ==> r.1.value.Err?
  {
    var (a, sep) := AsciiName(s, v);
    if sep == "" then (a, Some(Err("Expected Identifier", "ascii identifier expected here", a.index - 1, a.index)))
    else if a.oos then (a, Some(OutOfSpace(a.index, ClassEof)))
    else
      var (z, skipped) := Whitespace(s, a);
      if !skipped then (z, Some(Err("Expected Space", "whitspace expected here", z.index - 1, z.index)))
      else if z.oos then (z, Some(OutOfSpace(z.index, ClassEof)))
      else if sep != "and" then (z, Some(Err("Unexpected Keyword", "\"and\" keyword expected", z.index - |sep|, z.index)))
      else (z, None)
  }

  /** '{', then the members up to '}'. */
  function ClassOpen(s: string, v: Cur, style: ClassStyle, name: string, exts: seq<Type>, ps: MemberParsers): (r: (Cur, DeclResult<ClassDecl>))
    requires Monotone(ps, s) && Parked(s, v)
    ensures Parked(s, r.0) && r.0.index >= v.index
    ensures r.1.Ok? ==> r.1.value.classType == style && r.1.value.name == name && r.1.value.declarationId == 0
    ensures r.1.Ok? ==> (r.1.value.extensions.Some? <==> |exts| > 0) && (r.1.value.extensions.Some? ==> r.1.value.extensions.value == exts)
    ensures r.1.Ok? ==> Shaped(style, BodyOf(r.1.value)) && MembersOnly(style, BodyOf(r.1.value))
    ensures r.1.Err? && r.1.title == "No Variables in Abstract" ==> style.Abstract?
  {
    if CurrOf(s, v) != '{' then (v, Err("Unexpected Symbol", "expected '{' operator", v.index, v.index + 1))
    else if Inc(s, v).index >= |s| then (Inc(s, v), OutOfSpace(v.index + 1, ClassEof))
    else
      var (u, body, fail) := ClassLoop(s, Inc(s, v), style, EmptyBody(style), ps);
      if fail.Some? then (u, Err("No Variables in Abstract", "cannot add variable fields to \"abstracts\"", fail.value, fail.value))
      else (u, Ok(ClassDecl(name, style, if |exts| == 0 then None else Some(exts), body.declarations, body.abstractDeclarations, 0)))
  }

  /** The body before any member: an abstract has an (empty) list of abstract members. */
  function EmptyBody(style: ClassStyle): (r: ClassBody)
    ensures Shaped(style, r) && MembersOnly(style, r) && r.declarations == [] && r.pending == []
  {
    ClassBody([], if style.Abstract? then Some([]) else None, [])
  }

  // ----- the body -----

  /**
   * The body loop: attributes are collected; functions and variables are
   * parsed and filed with the attributes before them; any other character
   * is stepped over; the loop stops on '}' (not consumed), at the end, or
   * when a pass makes no progress, and fails on a variable in an abstract
   * outside a forward block.
   */
  function ClassLoop(s: string, c: Cur, style: ClassStyle, body: ClassBody, ps: MemberParsers): (r: (Cur, ClassBody, Option<nat>))
    requires !c.oos && c.index < |s| && Monotone(ps, s) && Shaped(style, body) && MembersOnly(style, body)
    ensures Parked(s, r.0) && Shaped(style, r.1) && MembersOnly(style, r.1) && r.0.index >= c.index
    ensures r.2.Some? ==> style.Abstract?
    ensures r.2.None? ==> r.0.oos || CurrOf(s, r.0) == '}'
    decreases |s| - c.index
  {
    var (u, body', step) := ClassStep(s, c, style, body, ps);
    if step.Fail? then (u, body', Some(step.at))
    else if step.Halt? || u.oos then (u, body', None)
    else ClassLoop(s, u, style, body', ps)
  }

  /**
   * Where a parsed member goes: in an abstract, a member outside a forward
   * block is abstract; every other member is an ordinary declaration.
   */
  function File(body: ClassBody, style: ClassStyle, forward: bool, d: DeclarationType): (r: ClassBody)
    requires Shaped(style, body)
    ensures Shaped(style, r) && r.pending == body.pending
    ensures MembersOnly(style, body) && (d.Function? || (d.Variable? && !(style.Abstract? && !forward))) ==> MembersOnly(style, r)
    ensures style.Abstract? && !forward ==>
      r.declarations == body.declarations && r.abstractDeclarations == Some(body.abstractDeclarations.value + [d])
    ensures !(style.Abstract? && !forward) ==>
      r.declarations == body.declarations + [d] && r.abstractDeclarations == body.abstractDeclarations
  {
    if style.Abstract? && !forward then body.(abstractDeclarations := Some(body.abstractDeclarations.value + [d]))
    else body.(declarations := body.declarations + [d])
  }

  /** `n` increments. */
  function Skip(s: string, c: Cur, n: nat): (r: Cur)
    ensures r.index == c.index + n
    ensures n > 0 ==> Parked(s, r)
  {
    if n == 0 then c else Inc(s, Skip(s, c, n - 1))
  }

  /**
   * Where a member starts, and whether it is forward: in an abstract,
   * the word "forward" and the blank after it are stepped over.
   */
  function MemberStart(s: string, w: Cur, style: ClassStyle): (r: (Cur, bool))
    requires Parked(s, w)
    ensures Parked(s, r.0) && r.0.index >= w.index
    ensures r.1 ==> style.Abstract?
  {
    if style.Abstract? && StartsWithWord(Rest(s, w.index), "forward") then (Whitespace(s, Skip(s, w, 7)).0, true)
    else (w, false)
  }

  /** One pass of the body loop: an attribute, or a member, after the blank text. */
  function ClassStep(s: string, c: Cur, style: ClassStyle, body: ClassBody, ps: MemberParsers): (r: (Cur, ClassBody, Step))
    requires !c.oos && c.index < |s| && Monotone(ps, s) && Shaped(style, body) && MembersOnly(style, body)
    ensures Parked(s, r.0) && Shaped(style, r.1) && MembersOnly(style, r.1) && r.0.index >= c.index
    ensures r.2.Fail? ==> style.Abstract?
    ensures r.2.Halt? ==> r.0.oos || CurrOf(s, r.0) == '}'
    ensures r.2.Go? && !r.0.oos ==> c.index < r.0.index < |s|
  {
    var w := Whitespace(s, c).0;
    if IsAttributeDeclaration(s, w.index) then
      var (u, a) := AttributeSpec(s, w, false);
      AttributeProgress(s, w, false);
      (u, body.(pending := if a.Ok? then body.pending + [a.value] else body.pending), Go)
    else ClassMember(s, w, style, body, ps)
  }

  /**
   * A function or a variable, '}', or any other character, which is
   * stepped over; a pass that does not move from `w` stops the loop.
   */
  function ClassMember(s: string, w: Cur, style: ClassStyle, body: ClassBody, ps: MemberParsers): (r: (Cur, ClassBody, Step))
    requires Parked(s, w) && Monotone(ps, s) && Shaped(style, body) && MembersOnly(style, body)
    ensures Parked(s, r.0) && Shaped(style, r.1) && MembersOnly(style, r.1) && r.0.index >= w.index
    ensures r.2.Fail? ==> style.Abstract?
    ensures r.2.Halt? ==> r.0.oos || CurrOf(s, r.0) == '}'
    ensures r.2.Go? ==> r.0.index > w.index
  {
    var (f, fwd) := MemberStart(s, w, style);
    if ps.isFunction(s, f.index) then
      var (u, b) := FunctionMember(s, f, fwd, style, body, ps);
      (u, b, Go)
    else if ps.isVariable(s, f.index) then
      if !fwd && style.Abstract? then (f, body, Fail(f.index))
      else
        var (u, b) := VariableMember(s, f, fwd, style, body, ps);
        (u, b, Go)
    else if CurrOf(s, f) == '}' then (f, body, Halt)
    else
      var g := if !f.oos then Inc(s, f) else f;
      (g, body, if g.index == w.index then Halt else Go)
  }

  /** A function, filed with the pending attributes, which are then dropped; then one step. */
  function FunctionMember(s: string, f: Cur, fwd: bool, style: ClassStyle, body: ClassBody, ps: MemberParsers): (r: (Cur, ClassBody))
    requires Parked(s, f) && Monotone(ps, s) && Shaped(style, body) && MembersOnly(style, body)
    ensures Parked(s, r.0) && Shaped(style, r.1) && MembersOnly(style, r.1) && r.0.index > f.index
    ensures r.1.pending == []
    ensures FunctionsOnly(body.declarations) ==> FunctionsOnly(r.1.declarations)
  {
    var (u, res) := ps.parseFunction(s, f, if fwd then Forward else ClassLevel);
    var b := if res.Ok? then File(body, style, fwd, DeclarationType.Function(res.value, Pending(body.pending))) else body;
    (Inc(s, u), b.(pending := []))
  }

  /** A variable, filed with the pending attributes, which are then dropped; then one step. */
  function VariableMember(s: string, f: Cur, fwd: bool, style: ClassStyle, body: ClassBody, ps: MemberParsers): (r: (Cur, ClassBody))
    requires Parked(s, f) && Monotone(ps, s) && Shaped(style, body) && MembersOnly(style, body)
    requires fwd || !style.Abstract?
    ensures Parked(s, r.0) && Shaped(style, r.1) && MembersOnly(style, r.1) && r.0.index > f.index
    ensures r.1.pending == []
  {
    var (u, res) := ps.parseVariable(s, f);
    var b := if res.Ok? then File(body, style, fwd, DeclarationType.Variable(res.value, Pending(body.pending))) else body;
    (Inc(s, u), b.(pending := []))
  }

  // ----- the parser -----

  /** `ClassDeclaration::new`, with the function and variable parsers as parameters. */
  method NewClass(p: Parser, ps: MemberParsers) returns (r: DeclResult<ClassDecl>)
    requires Monotone(ps, p.chars)
    modifies p
    ensures (p.State(), r) == ClassSpec(p.chars, old(p.State()), ps)
  {
    var keyword, e := ParseAscii<ClassDecl>(p, ClassEof);
    if e.Some? {
      return e.value;
    }
    var style := StyleOf(keyword);
    if style.None? {
      return Err("Unexpected Keyword", ClassKeywordMsg, p.index - |keyword|, p.index);
    }
    r := ParseClassStyled(p, style.value, ps);
  }

  /** The blank after the keyword, then the name. */
  method ParseClassStyled(p: Parser, style: ClassStyle, ps: MemberParsers) returns (r: DeclResult<ClassDecl>)
    requires Monotone(ps, p.chars)
    modifies p
    ensures (p.State(), r) == ClassStyled(p.chars, old(p.State()), style, ps)
  {
    var e := RequireWhitespace<ClassDecl>(p, ClassEof);
    if e.Some? {
      return e.value;
    }
    r := ParseClassNamed(p, style, ps);
  }

  /** The class name and the blank after it. */
  method ParseClassNamed(p: Parser, style: ClassStyle, ps: MemberParsers) returns (r: DeclResult<ClassDecl>)
    requires Monotone(ps, p.chars)
    modifies p
    ensures (p.State(), r) == ClassNamed(p.chars, old(p.State()), style, ps)
  {
    var name, e := RequireAscii<ClassDecl>(p, "Class Name Missing", "class name missing", ClassEof);
    if e.Some? {
      return e.value;
    }
    r := ParseClassGap(p, style, name, ps);
  }

  /** The blank after the name, then the head. */
  method ParseClassGap(p: Parser, style: ClassStyle, name: string, ps: MemberParsers) returns (r: DeclResult<ClassDecl>)
    requires Monotone(ps, p.chars)
    modifies p
    ensures (p.State(), r) == ClassGap(p.chars, old(p.State()), style, name, ps)
  {
    var e := RequireWhitespace<ClassDecl>(p, ClassEof);
    if e.Some? {
      return e.value;
    }
    r := ParseClassHead(p, style, name, ps);
  }

  /** "extends" or "becomes" before the body. */
  method ParseClassHead(p: Parser, style: ClassStyle, name: string, ps: MemberParsers) returns (r: DeclResult<ClassDecl>)
    requires Monotone(ps, p.chars) && p.Parked()
    modifies p
    ensures (p.State(), r) == ClassHead(p.chars, old(p.State()), style, name, ps)
  {
    if p.Curr() == '{' {
      r := ParseClassOpen(p, style, name, [], ps);
    } else {
      r := ParseClassWord(p, style, name, ps);
    }
  }

  /** The word before '{'. */
  method ParseClassWord(p: Parser, style: ClassStyle, name: string, ps: MemberParsers) returns (r: DeclResult<ClassDecl>)
    requires Monotone(ps, p.chars)
    modifies p
    ensures (p.State(), r) == ClassWord(p.chars, old(p.State()), style, name, ps)
  {
    var word, e := ParseAscii<ClassDecl>(p, ClassEof);
    if e.Some? {
      return e.value;
    }
    r := ParseClassKeyword(p, word, style, name, ps);
  }

  /** What the word just read leads to. */
  method ParseClassKeyword(p: Parser, word: string, style: ClassStyle, name: string, ps: MemberParsers) returns (r: DeclResult<ClassDecl>)
    requires Monotone(ps, p.chars) && p.Parked()
    modifies p
    ensures (p.State(), r) == ClassKeyword(p.chars, old(p.State()), word, style, name, ps)
  {
    if word == "extends" {
      if !style.Class? {
        return Err("Unexpected Keyword", "\"extends\" can only be used with \"class\"", p.index - |word|, p.index);
      }
      r := ParseClassExtends(p, name, ps);
    } else if word == "becomes" {
      if !style.Abstract? {
        return Err("Unexpected Keyword", "\"becomes\" can only be used with \"abstract\"", p.index - |word|, p.index);
      }
      r := ParseClassBecomes(p, name, ps);
    } else {
      r := ParseClassOpen(p, style, name, [], ps);
    }
  }

  /** After "extends". */
  method ParseClassExtends(p: Parser, name: string, ps: MemberParsers) returns (r: DeclResult<ClassDecl>)
    requires Monotone(ps, p.chars)
    modifies p
    ensures (p.State(), r) == ClassExtends(p.chars, old(p.State()), name, ps)
  {
    var e := RequireWhitespace<ClassDecl>(p, ClassEof);
    if e.Some? {
      return e.value;
    }
    var ts := ParseExtends(p);
    if ts.Err? {
      return Err(ts.title, ts.msg, ts.start, ts.end);
    }
    r := ParseClassOpen(p, ClassStyle.Class, name, ts.value, ps);
  }

  /** After "becomes". */
  method ParseClassBecomes(p: Parser, name: string, ps: MemberParsers) returns (r: DeclResult<ClassDecl>)
    requires Monotone(ps, p.chars)
    modifies p
    ensures (p.State(), r) == ClassBecomes(p.chars, old(p.State()), name, ps)
  {
    var e := RequireWhitespace<ClassDecl>(p, ClassEof);
    if e.Some? {
      return e.value;
    }
    var t;
    t, e := TypeOrFail<ClassDecl>(p, ClassEof);
    if e.Some? {
      return e.value;
    }
    e := SkipWhitespace(p, ClassEof);
    if e.Some? {
      return e.value;
    }
    r := ParseClassOpen(p, Abstract, name, [t], ps);
  }

  /** The extends loop of `ClassDeclaration::new`. */
  method ParseExtends(p: Parser) returns (r: DeclResult<seq<Type>>)
    requires p.index <= |p.chars|
    modifies p
    ensures (p.State(), r) == ExtendsLoop(p.chars, old(p.State()))
  {
    var types: seq<Type> := [];
    PrependAllEmpty(ExtendsLoop(p.chars, p.State()));
    while true
      invariant p.index <= |p.chars|
      invariant PrependAll(types, ExtendsLoop(p.chars, p.State())) == ExtendsLoop(p.chars, old(p.State()))
      decreases |p.chars| - p.index
    {
      ghost var c := p.State();
      var t, e := ParseExtendsItem(p);
      if e.Some? {
        return e.value;
      }
      if p.Curr() == '{' {
        return Ok(types + [t]);
      }
      e := ParseExtendsSeparator(p);
      if e.Some? {
        return e.value;
      }
      assert ExtendsLoop(p.chars, c) == PrependAll([t], ExtendsLoop(p.chars, p.State()));
      PrependAllTwice(types, t, ExtendsLoop(p.chars, p.State()));
      types := types + [t];
    }
  }

  /** A type of the extends list and the blank after it. */
  method ParseExtendsItem(p: Parser) returns (t: Type, r: Option<DeclResult<seq<Type>>>)
    modifies p
    ensures (p.State(), t, r) == ExtendsItem(p.chars, old(p.State()))
  {
    t, r := TypeOrFail<seq<Type>>(p, ClassEof);
    if r.Some? {
      return;
    }
    r := SkipWhitespace(p, ClassEof);
  }

  /** The word "and" between two types. */
  method ParseExtendsSeparator(p: Parser) returns (r: Option<DeclResult<seq<Type>>>)
    requires !p.outOfSpace
    modifies p
    ensures (p.State(), r) == ExtendsSeparator(p.chars, old(p.State()))
  {
    ghost var v := p.State();
    var sep;
    sep, r := ParseAscii(p, ClassEof);
    if r.Some? {
      return;
    }
    ghost var a := p.State();
    assert (a, sep) == AsciiName(p.chars, v) && sep != "" && !a.oos;
    r := RequireWhitespace(p, ClassEof);
    if r.Some? {
      return;
    }
    assert Whitespace(p.chars, a) == (p.State(), true) && !p.outOfSpace;
    if sep != "and" {
      return Some(Err("Unexpected Keyword", "\"and\" keyword expected", p.index - |sep|, p.index));
    }
  }

  /** '{' and the body. */
  method ParseClassOpen(p: Parser, style: ClassStyle, name: string, exts: seq<Type>, ps: MemberParsers) returns (r: DeclResult<ClassDecl>)
    requires Monotone(ps, p.chars) && p.Parked()
    modifies p
    ensures (p.State(), r) == ClassOpen(p.chars, old(p.State()), style, name, exts, ps)
  {
    ghost var v := p.State();
    var next, e := RequireNextChar<ClassDecl>(p, '{', "expected '{' operator", ClassEof);
    if e.Some? {
      return e.value;
    }
    assert p.State() == Inc(p.chars, v) && p.index < |p.chars|;
    var body, fail := ParseClassBody(p, style, ps);
    assert (p.State(), body, fail) == ClassLoop(p.chars, Inc(p.chars, v), style, EmptyBody(style), ps);
    if fail.Some? {
      return Err("No Variables in Abstract", "cannot add variable fields to \"abstracts\"", fail.value, fail.value);
    }
    return Ok(ClassDecl(name, style, if |exts| == 0 then None else Some(exts), body.declarations, body.abstractDeclarations, 0));
  }

  /** The body loop of `ClassDeclaration::new`. */
  method ParseClassBody(p: Parser, style: ClassStyle, ps: MemberParsers) returns (body: ClassBody, fail: Option<nat>)
    requires !p.outOfSpace && p.index < |p.chars| && Monotone(ps, p.chars)
    modifies p
    ensures (p.State(), body, fail) == ClassLoop(p.chars, old(p.State()), style, EmptyBody(style), ps)
  {
    body := EmptyBody(style);
    while true
      invariant !p.outOfSpace && p.index < |p.chars| && Shaped(style, body) && MembersOnly(style, body)
      invariant ClassLoop(p.chars, p.State(), style, body, ps) == ClassLoop(p.chars, old(p.State()), style, EmptyBody(style), ps)
      decreases |p.chars| - p.index
    {
      ghost var c := p.State();
      ghost var b := body;
      var step;
      body, step := ParseClassStep(p, style, body, ps);
      if step.Fail? {
        ClassLoopStops(p.chars, c, style, b, ps);
        return body, Some(step.at);
      }
      if step.Halt? || p.outOfSpace {
        ClassLoopStops(p.chars, c, style, b, ps);
        return body, None;
      }
      ClassLoopGoesOn(p.chars, c, style, b, ps);
    }
  }

  lemma ClassLoopStops(s: string, c: Cur, style: ClassStyle, body: ClassBody, ps: MemberParsers)
    requires !c.oos && c.index < |s| && Monotone(ps, s) && Shaped(style, body) && MembersOnly(style, body)
    requires var r := ClassStep(s, c, style, body, ps); !r.2.Go? || r.0.oos
    ensures var r := ClassStep(s, c, style, body, ps);
      ClassLoop(s, c, style, body, ps) == (r.0, r.1, if r.2.Fail? then Some(r.2.at) else None)
  {
  }

  lemma ClassLoopGoesOn(s: string, c: Cur, style: ClassStyle, body: ClassBody, ps: MemberParsers)
    requires !c.oos && c.index < |s| && Monotone(ps, s) && Shaped(style, body) && MembersOnly(style, body)
    requires var r := ClassStep(s, c, style, body, ps); r.2.Go? && !r.0.oos
    ensures var r := ClassStep(s, c, style, body, ps);
      ClassLoop(s, c, style, body, ps) == ClassLoop(s, r.0, style, r.1, ps)
  {
  }

  /** One pass of the body loop. */
  method ParseClassStep(p: Parser, style: ClassStyle, body: ClassBody, ps: MemberParsers) returns (body': ClassBody, step: Step)
    requires !p.outOfSpace && p.index < |p.chars| && Monotone(ps, p.chars) && Shaped(style, body) && MembersOnly(style, body)
    modifies p
    ensures (p.State(), body', step) == ClassStep(p.chars, old(p.State()), style, body, ps)
  {
    var _ := p.ParseWhitespace();
    if IsAttributeDeclaration(p.chars, p.index) {
      var a := NewAttribute(p, false);
      return body.(pending := if a.Ok? then body.pending + [a.value] else body.pending), Go;
    }
    body', step := ParseClassMember(p, style, body, ps);
  }

  /** A member, '}', or a step over any other character. */
  method ParseClassMember(p: Parser, style: ClassStyle, body: ClassBody, ps: MemberParsers) returns (body': ClassBody, step: Step)
    requires p.Parked() && Monotone(ps, p.chars) && Shaped(style, body) && MembersOnly(style, body)
    modifies p
    ensures (p.State(), body', step) == ClassMember(p.chars, old(p.State()), style, body, ps)
  {
    var initialIndex := p.index;
    var forward := false;
    if style.Abstract? && StartsWithWord(Rest(p.chars, p.index), "forward") {
      forward := true;
      ghost var w := p.State();
      for k := 0 to 7
        invariant p.State() == Skip(p.chars, w, k)
      {
        var _ := p.Increment();
      }
      var _ := p.ParseWhitespace();
    }
    if ps.isFunction(p.chars, p.index) {
      body' := ParseFunctionMember(p, forward, style, body, ps);
      return body', Go;
    }
    if ps.isVariable(p.chars, p.index) {
      if !forward && style.Abstract? {
        return body, Fail(p.index);
      }
      body' := ParseVariableMember(p, forward, style, body, ps);
      return body', Go;
    }
    if p.Curr() == '}' {
      return body, Halt;
    }
    if !p.outOfSpace {
      var _ := p.Increment();
    }
    return body, if p.index == initialIndex then Halt else Go;
  }

  /** A function member: the function parser's result filed, then one step. */
  method ParseFunctionMember(p: Parser, fwd: bool, style: ClassStyle, body: ClassBody, ps: MemberParsers) returns (body': ClassBody)
    requires p.Parked() && Monotone(ps, p.chars) && Shaped(style, body) && MembersOnly(style, body)
    modifies p
    ensures (p.State(), body') == FunctionMember(p.chars, old(p.State()), fwd, style, body, ps)
  {
    var (u, res) := ps.parseFunction(p.chars, p.State(), if fwd then Forward else ClassLevel);
    p.MoveTo(u);
    body' := if res.Ok? then File(body, style, fwd, DeclarationType.Function(res.value, Pending(body.pending))) else body;
    var _ := p.Increment();
    body' := body'.(pending := []);
  }

  /** A variable member: the variable parser's result filed, then one step. */
  method ParseVariableMember(p: Parser, fwd: bool, style: ClassStyle, body: ClassBody, ps: MemberParsers) returns (body': ClassBody)
    requires p.Parked() && Monotone(ps, p.chars) && Shaped(style, body) && MembersOnly(style, body)
    requires fwd || !style.Abstract?
    modifies p
    ensures (p.State(), body') == VariableMember(p.chars, old(p.State()), fwd, style, body, ps)
  {
    var (u, res) := ps.parseVariable(p.chars, p.State());
    p.MoveTo(u);
    body' := if res.Ok? then File(body, style, fwd, DeclarationType.Variable(res.value, Pending(body.pending))) else body;
    var _ := p.Increment();
    body' := body'.(pending := []);
  }

  // ----- the C++ head line -----

  /** The text an attribute contributes with its parameters joined by blanks, or `absent` without it. */
  function Decoration(attrs: Attributes, name: string, content: string, absent: string): string
    requires attrs.data.Some? ==> AllWithin(attrs.data.value, content)
  {
    if Has(attrs, name) then " " + Join(ParameterTexts(attrs, name, content), " ") + " " else absent
  }

  /** Every extended type has a C++ spelling. */
  predicate SpellableExtensions(d: ClassDecl) {
    d.extensions.Some? ==> forall i :: 0 <= i < |d.extensions.value| ==> Spellable(d.extensions.value[i])
  }

  /** ": public A, public B" for the extended types. */
  function BaseList(types: seq<Type>): (r: string)
    requires forall i :: 0 <= i < |types| ==> Spellable(types[i])
  {
    ": " + Join(seq(|types|, i requires 0 <= i < |types| => "public " + TypeToCpp(types[i])), ", ")
  }

  /**
   * `to_cpp`: the keyword, the name and the base list, with the texts of
   * the DeclarePreName, DeclarePostName and DeclarePreBracket attributes
   * around them, up to and including '{'.
   */
  function ClassToCpp(d: ClassDecl, attrs: Attributes, content: string): (r: string)
    requires attrs.data.Some? ==> AllWithin(attrs.data.value, content)
    requires SpellableExtensions(d)
  {
    d.classType.Name() + Decoration(attrs, "DeclarePreName", content, " ") + ClassTail(d, attrs, content)
  }

  /** The head line from the name on. */
  function ClassTail(d: ClassDecl, attrs: Attributes, content: string): (r: string)
    requires attrs.data.Some? ==> AllWithin(attrs.data.value, content)
    requires SpellableExtensions(d)
  {
    d.name +
    (if Has(attrs, "DeclarePostName")
     then " " + Join(ParameterTexts(attrs, "DeclarePostName", content), " ") + (if d.extensions.None? then "" else " ")
     else "") +
    (if d.extensions.None? then "" else BaseList(d.extensions.value)) +
    Decoration(attrs, "DeclarePreBracket", content, " ") +
    "{"
  }

  /**
   * The head line opens with the keyword of the class's style and a blank,
   * ends with '{', and without decorating attributes it is the keyword,
   * the name, the base list and " {".
   */
  lemma ClassToCppShape(d: ClassDecl, attrs: Attributes, content: string)
    requires attrs.data.Some? ==> AllWithin(attrs.data.value, content)
    requires SpellableExtensions(d)
    ensures var r := ClassToCpp(d, attrs, content);
      StartsWith(r, d.classType.Name() + " ") && |r| > 0 && r[|r| - 1] == '{'
    ensures !Has(attrs, "DeclarePreName") && !Has(attrs, "DeclarePostName") && !Has(attrs, "DeclarePreBracket") ==>
      ClassToCpp(d, attrs, content) ==
        d.classType.Name() + " " + d.name + (if d.extensions.None? then "" else BaseList(d.extensions.value)) + " {"
  {
    var kw := d.classType.Name();
    var pre := Decoration(attrs, "DeclarePreName", content, " ");
    var tail := ClassTail(d, attrs, content);
    var r := kw + pre + tail;
    assert |pre| > 0 && pre[0] == ' ';
    assert |tail| > 0 && tail[|tail| - 1] == '{';
    assert r[..|kw| + 1] == kw + " ";
    assert r[|r| - 1] == tail[|tail| - 1];
  }

  // ----- the class description -----

  /** The description `to_class` builds: the source's `ClassType` of class_declaration.rs. */
  datatype ClassInfo = ClassInfo(
    name: string,
    style: ClassStyle,
    extensions: Option<seq<Type>>,
    properties: seq<Property>,
    functions: seq<FunctionSignature>,
    operators: map<nat, seq<FunctionSignature>>,
    requiredIncludes: seq<(string, bool)>)

  /** The key an operator is filed under: its id plus 100, 200 or 300 for suffix, prefix or infix. */
  function OperatorKey(kind: OperatorKind, id: nat): nat {
    id + (match kind case Suffix => 100 case Prefix => 200 case Infix => 300)
  }

  /** Operators with ids below 100 get distinct keys. */
  lemma OperatorKeysDistinct(k1: OperatorKind, id1: nat, k2: OperatorKind, id2: nat)
    requires id1 < 100 && id2 < 100
    ensures OperatorKey(k1, id1) == OperatorKey(k2, id2) <==> k1 == k2 && id1 == id2
  {
  }

  /** Declaration `i` is an operator filed under `key`. */
  predicate OperatorAt(ds: seq<DeclarationType>, i: int, key: nat) {
    0 <= i < |ds| && ds[i].Function? && ds[i].functionDecl.operator.Some? &&
    OperatorKey(ds[i].functionDecl.operator.value.0, ds[i].functionDecl.operator.value.1) == key
  }

  /** The properties: one per variable, its type resolved, in order. */
  function Properties(ds: seq<DeclarationType>, resolve: VariableType -> VariableType): seq<Property> {
    if |ds| == 0 then []
    else
      var rest := Properties(ds[..|ds| - 1], resolve);
      var last := ds[|ds| - 1];
      if last.Variable? then rest + [Property(last.variable.name, resolve(last.variable.varType), None)] else rest
  }

  /** The functions that are not operators, in order. */
  function Functions(ds: seq<DeclarationType>, sig: FunctionDecl -> FunctionSignature): seq<FunctionSignature> {
    if |ds| == 0 then []
    else
      var rest := Functions(ds[..|ds| - 1], sig);
      var last := ds[|ds| - 1];
      if last.Function? && last.functionDecl.operator.None? then rest + [sig(last.functionDecl)] else rest
  }

  /** The operators, each appended to the list under its key. */
  function Operators(ds: seq<DeclarationType>, sig: FunctionDecl -> FunctionSignature): map<nat, seq<FunctionSignature>> {
    if |ds| == 0 then map[]
    else
      var m := Operators(ds[..|ds| - 1], sig);
      var last := ds[|ds| - 1];
      if last.Function? && last.functionDecl.operator.Some? then
        var key := OperatorKey(last.functionDecl.operator.value.0, last.functionDecl.operator.value.1);
        if key in m then m[key := m[key] + [sig(last.functionDecl)]] else m[key := [sig(last.functionDecl)]]
      else m
  }

  /** The types `to_class` registers for a member: a function's parameters and return type, a variable's type. */
  function MemberTypes(d: DeclarationType): seq<VariableType> {
    match d
    case Function(f, _) => f.parameters + [f.returnType]
    case Variable(v, _) => [v.varType]
    case _ => []
  }

  /** The types registered for the members, in order. */
  function RegisteredTypes(ds: seq<DeclarationType>): seq<VariableType> {
    if |ds| == 0 then [] else RegisteredTypes(ds[..|ds| - 1]) + MemberTypes(ds[|ds| - 1])
  }

  /** The header list after `register_type` on each type in turn. */
  function Registered(headers: seq<Header>, vs: seq<VariableType>): seq<Header> {
    if |vs| == 0 then headers
    else
      var h := Registered(headers, vs[..|vs| - 1]);
      var path := RequiredHeader(vs[|vs| - 1].varType);
      if path == "" then h else WithHeader(h, path, true)
  }

  /** The description of a class: its name, style and extensions, then its members sorted into properties, functions and operators. */
  function ClassInfoOf(d: ClassDecl, attrs: Attributes, sig: FunctionDecl -> FunctionSignature, resolve: VariableType -> VariableType): ClassInfo {
    ClassInfo(d.name, d.classType, d.extensions, Properties(d.declarations, resolve), Functions(d.declarations, sig),
      Operators(d.declarations, sig), RequiredIncludes(attrs))
  }

  /**
   * `to_class`, with `to_function` and the type resolution as parameters:
   * the description of the class, and the headers its member types need
   * added to the context.
   */
  method ToClass(d: ClassDecl, context: Context, attrs: Attributes,
                 sig: FunctionDecl -> FunctionSignature, resolve: VariableType -> VariableType) returns (info: ClassInfo)
    requires context.Valid()
    modifies context.headers
    ensures context.Valid()
    ensures info == ClassInfoOf(d, attrs, sig, resolve)
    ensures context.headers.headers == Registered(old(context.headers.headers), RegisteredTypes(d.declarations))
  {
    var ds := d.declarations;
    var properties: seq<Property> := [];
    var functions: seq<FunctionSignature> := [];
    var operators: map<nat, seq<FunctionSignature>> := map[];
    ghost var h0 := context.headers.headers;
    for i := 0 to |ds|
      invariant context.Valid()
      invariant properties == Properties(ds[..i], resolve)
      invariant functions == Functions(ds[..i], sig)
      invariant operators == Operators(ds[..i], sig)
      invariant context.headers.headers == Registered(h0, RegisteredTypes(ds[..i]))
    {
      MemberStep(ds, i, sig, resolve);
      RegisteredAppend(h0, RegisteredTypes(ds[..i]), MemberTypes(ds[i]));
      RegisterTypes(context, MemberTypes(ds[i]));
      match ds[i]
      case Function(f, _) =>
        if f.operator.Some? {
          var key := OperatorKey(f.operator.value.0, f.operator.value.1);
          if key in operators {
            operators := operators[key := operators[key] + [sig(f)]];
          } else {
            operators := operators[key := [sig(f)]];
          }
        } else {
          functions := functions + [sig(f)];
        }
      case Variable(v, _) =>
        properties := properties + [Property(v.name, resolve(v.varType), None)];
      case _ =>
    }
    assert ds[..|ds|] == ds;
    var includes := GetRequiredIncludes(attrs);
    info := ClassInfo(d.name, d.classType, d.extensions, properties, functions, operators, includes);
  }

  /** What member `i` adds to each list the loop of `to_class` builds. */
  lemma MemberStep(ds: seq<DeclarationType>, i: nat, sig: FunctionDecl -> FunctionSignature, resolve: VariableType -> VariableType)
    requires i < |ds|
    ensures var d := ds[i]; var before := ds[..i]; var after := ds[..i + 1];
      Properties(after, resolve) == (if d.Variable? then
        Properties(before, resolve) + [Property(d.variable.name, resolve(d.variable.varType), None)]
      else Properties(before, resolve)) &&
      Functions(after, sig) == (if d.Function? && d.functionDecl.operator.None? then
        Functions(before, sig) + [sig(d.functionDecl)]
      else Functions(before, sig)) &&
      Operators(after, sig) == (if d.Function? && d.functionDecl.operator.Some? then
        var key := OperatorKey(d.functionDecl.operator.value.0, d.functionDecl.operator.value.1);
        var m := Operators(before, sig);
        if key in m then m[key := m[key] + [sig(d.functionDecl)]] else m[key := [sig(d.functionDecl)]]
      else Operators(before, sig)) &&
      RegisteredTypes(after) == RegisteredTypes(before) + MemberTypes(d)
  {
    assert ds[..i + 1][..i] == ds[..i];
  }

  /** `register_type` on each type in turn. */
  method RegisterTypes(context: Context, vs: seq<VariableType>)
    requires context.Valid()
    modifies context.headers
    ensures context.Valid()
    ensures context.headers.headers == Registered(old(context.headers.headers), vs)
  {
    for j := 0 to |vs|
      invariant context.Valid()
      invariant context.headers.headers == Registered(old(context.headers.headers), vs[..j])
    {
      assert vs[..j + 1][..j] == vs[..j];
      context.RegisterType(vs[j]);
    }
    assert vs[..|vs|] == vs;
  }

  /** Registering two lists in turn is registering their concatenation. */
  lemma {:induction false} RegisteredAppend(h: seq<Header>, a: seq<VariableType>, b: seq<VariableType>)
    ensures Registered(h, a + b) == Registered(Registered(h, a), b)
    decreases |b|
  {
    if |b| > 0 {
      assert (a + b)[..|a + b| - 1] == a + b[..|b| - 1];
      RegisteredAppend(h, a, b[..|b| - 1]);
    } else {
      assert a + b == a;
    }
  }

  // ----- what the description holds -----

  /** The property a variable becomes. */
  function PropertyFor(v: VariableDecl, resolve: VariableType -> VariableType): Property {
    Property(v.name, resolve(v.varType), None)
  }

  /** Every variable becomes a property, and every property comes from a variable. */
  lemma {:induction false} PropertiesMeaning(ds: seq<DeclarationType>, resolve: VariableType -> VariableType)
    ensures forall i :: 0 <= i < |ds| && ds[i].Variable? ==> PropertyFor(ds[i].variable, resolve) in Properties(ds, resolve)
    ensures forall q :: q in Properties(ds, resolve) ==> exists i :: 0 <= i < |ds| && ds[i].Variable? && q == PropertyFor(ds[i].variable, resolve)
    decreases |ds|
  {
    if |ds| > 0 {
      var init := ds[..|ds| - 1];
      PropertiesMeaning(init, resolve);
      forall q | q in Properties(ds, resolve)
        ensures exists i :: 0 <= i < |ds| && ds[i].Variable? && q == PropertyFor(ds[i].variable, resolve)
      {
        if q in Properties(init, resolve) {
          var i :| 0 <= i < |init| && init[i].Variable? && q == PropertyFor(init[i].variable, resolve);
          assert ds[i] == init[i];
        }
      }
    }
  }

  /** Every function that is not an operator is listed, and every listed function is one. */
  lemma {:induction false} FunctionsMeaning(ds: seq<DeclarationType>, sig: FunctionDecl -> FunctionSignature)
    ensures forall i :: 0 <= i < |ds| && ds[i].Function? && ds[i].functionDecl.operator.None? ==> sig(ds[i].functionDecl) in Functions(ds, sig)
    ensures forall g :: g in Functions(ds, sig) ==>
      exists i :: 0 <= i < |ds| && ds[i].Function? && ds[i].functionDecl.operator.None? && g == sig(ds[i].functionDecl)
    decreases |ds|
  {
    if |ds| > 0 {
      var init := ds[..|ds| - 1];
      FunctionsMeaning(init, sig);
      forall g | g in Functions(ds, sig)
        ensures exists i :: 0 <= i < |ds| && ds[i].Function? && ds[i].functionDecl.operator.None? && g == sig(ds[i].functionDecl)
      {
        if g in Functions(init, sig) {
          var i :| 0 <= i < |init| && init[i].Function? && init[i].functionDecl.operator.None? && g == sig(init[i].functionDecl);
          assert ds[i] == init[i];
        }
      }
    }
  }

  /**
   * The operator table has a key exactly when some operator is filed under
   * it, and every operator is in the list under its key.
   */
  lemma {:induction false} OperatorsMeaning(ds: seq<DeclarationType>, sig: FunctionDecl -> FunctionSignature)
    ensures forall key :: key in Operators(ds, sig) <==> exists i :: OperatorAt(ds, i, key)
    ensures forall i, key :: OperatorAt(ds, i, key) ==> key in Operators(ds, sig) && sig(ds[i].functionDecl) in Operators(ds, sig)[key]
    decreases |ds|
  {
    if |ds| > 0 {
      var init := ds[..|ds| - 1];
      OperatorsMeaning(init, sig);
      forall key | key in Operators(ds, sig)
        ensures exists i :: OperatorAt(ds, i, key)
      {
        if key in Operators(init, sig) {
          var i :| OperatorAt(init, i, key);
          assert OperatorAt(ds, i, key);
        } else {
          assert OperatorAt(ds, |ds| - 1, key);
        }
      }
      forall i, key | OperatorAt(ds, i, key)
        ensures key in Operators(ds, sig) && sig(ds[i].functionDecl) in Operators(ds, sig)[key]
      {
        if i < |ds| - 1 {
          assert OperatorAt(init, i, key);
        }
      }
    }
  }

  /**
   * After registering, the header list keeps its paths distinct and holds
   * a path exactly when it held it before or some registered type needs it.
   */
  lemma {:induction false} RegisteredMeaning(h: seq<Header>, vs: seq<VariableType>)
    requires DistinctPaths(h)
    ensures DistinctPaths(Registered(h, vs))
    ensures forall path :: HasPath(Registered(h, vs), path) <==>
      HasPath(h, path) || exists i :: 0 <= i < |vs| && path != "" && RequiredHeader(vs[i].varType) == path
    decreases |vs|
  {
    if |vs| > 0 {
      var init := vs[..|vs| - 1];
      RegisteredMeaning(h, init);
      RegisteredSnoc(h, vs);
      forall q
        ensures HasPath(Registered(h, vs), q) <==> HasPath(h, q) || exists i :: 0 <= i < |vs| && q != "" && RequiredHeader(vs[i].varType) == q
      {
        NeededSnoc(vs, init, q);
      }
    }
  }

  /** Registering one more type adds its header, if it needs one, to the paths already there. */
  lemma RegisteredSnoc(h: seq<Header>, vs: seq<VariableType>)
    requires |vs| > 0 && DistinctPaths(Registered(h, vs[..|vs| - 1]))
    ensures DistinctPaths(Registered(h, vs))
    ensures forall q :: HasPath(Registered(h, vs), q) <==>
      HasPath(Registered(h, vs[..|vs| - 1]), q) || (q != "" && q == RequiredHeader(vs[|vs| - 1].varType))
  {
    var prev := Registered(h, vs[..|vs| - 1]);
    var path := RequiredHeader(vs[|vs| - 1].varType);
    var r := Registered(h, vs);
    if path != "" {
      WithHeaderKeepsDistinct(prev, path, true);
      forall q | HasPath(r, q)
        ensures HasPath(prev, q) || q == path
      {
        var k :| 0 <= k < |r| && r[k].path == q;
        if k < |prev| {
          assert r[k] == prev[k];
        }
      }
      forall q | HasPath(prev, q)
        ensures HasPath(r, q)
      {
        var k :| 0 <= k < |prev| && prev[k].path == q;
        assert r[k] == prev[k];
      }
    }
  }

  /** Some type of `vs` needs `q` exactly when one before the last does or the last does. */
  lemma NeededSnoc(vs: seq<VariableType>, init: seq<VariableType>, q: string)
    requires |vs| > 0 && init == vs[..|vs| - 1]
    ensures (exists i :: 0 <= i < |vs| && q != "" && RequiredHeader(vs[i].varType) == q) <==>
      (exists i :: 0 <= i < |init| && q != "" && RequiredHeader(init[i].varType) == q) ||
      (q != "" && q == RequiredHeader(vs[|vs| - 1].varType))
  {
    if exists i :: 0 <= i < |vs| && q != "" && RequiredHeader(vs[i].varType) == q {
      var i :| 0 <= i < |vs| && q != "" && RequiredHeader(vs[i].varType) == q;
      if i < |init| {
        assert init[i] == vs[i];
      }
    }
    if exists i :: 0 <= i < |init| && q != "" && RequiredHeader(init[i].varType) == q {
      var i :| 0 <= i < |init| && q != "" && RequiredHeader(init[i].varType) == q;
      assert vs[i] == init[i];
    }
  }
}
