// Module attributes such as `%TastyAlign%`
// (src/declaration_parser/module_attribute_declaration.rs).

module ModuleAttributeDeclarations {
  import opened Text
  import opened Wrappers
  import opened Scan
  import opened Cursor
  import opened Declarations

  datatype ModuleAttributeDecl = ModuleAttributeDecl(name: string, line: nat)

  const ModuleAttributeEof := "unexpected end of attribute"

  /** What `ModuleAttributeDeclaration::new` makes of the text at `c`: '%', a name, '%'. */
  function ModuleAttributeSpec(s: string, c: Cur): (r: (Cur, DeclResult<ModuleAttributeDecl>))
    requires Parked(s, c)
    ensures Parked(s, r.0) && r.0.index >= c.index
    ensures CurrOf(s, c) == '%' ==> r.0.index > c.index
  {
    if CurrOf(s, c) != '%' then (c, UnexpectedCharacter(c.index))
    else
      var (a, name) := AsciiName(s, Inc(s, c));
      if name == "" then (a, Err("Expected Identifier", "ascii identifier expected here", a.index - 1, a.index))
      else if a.oos then (a, OutOfSpace(a.index, ModuleAttributeEof))
      else if CurrOf(s, a) != '%' then (a, UnexpectedCharacter(a.index))
      else (Inc(s, a), Ok(ModuleAttributeDecl(name, c.line)))
  }

  /** `ModuleAttributeDeclaration::new`. */
  method NewModuleAttribute(p: Parser) returns (r: DeclResult<ModuleAttributeDecl>)
    requires p.Parked()
    modifies p
    ensures (p.State(), r) == ModuleAttributeSpec(p.chars, old(p.State()))
  {
    var initialLine := p.line;
    var next := p.Curr();
    if next != '%' {
      return UnexpectedCharacter(p.index);
    }
    var _ := p.Increment();
    var name, e := ParseAscii<ModuleAttributeDecl>(p, ModuleAttributeEof);
    if e.Some? {
      return e.value;
    }
    next := p.Curr();
    if next != '%' {
      return UnexpectedCharacter(p.index);
    }
    var _ := p.Increment();
    return Ok(ModuleAttributeDecl(name, initialLine));
  }

  /**
   * A successful module attribute is a name between two '%' characters,
   * both consumed: the cursor ends just after the second one.
   */
  lemma ModuleAttributeBetweenPercents(s: string, c: Cur)
    requires Parked(s, c)
    ensures var (u, r) := ModuleAttributeSpec(s, c);
      r.Ok? ==>
        !c.oos && s[c.index] == '%' && s[c.index + 1..u.index - 1] == r.value.name &&
        s[u.index - 1] == '%' && u.index == c.index + |r.value.name| + 2 && r.value.line == c.line
  {
  }

  /**
   * `is_attribute_declaration`: at the start of a line, the line starts
   * with '%' and its last character before the newline is '%'. A line
   * with no newline after it is not recognised.
   */
  predicate ModuleAttributeLine(s: string, i: nat) {
    (i == 0 || StartsWith(Rest(s, i - 1), "\n")) && StartsWith(Rest(s, i), "%") &&
    var j := Span(s, i, NotChar('\n'));
    j < |s| && s[j - 1] == '%'
  }

  /** `is_attribute_declaration`, scanning the line with the flag "the last character was '%'". */
  method IsModuleAttributeDeclaration(s: string, i: nat) returns (b: bool)
    ensures b == ModuleAttributeLine(s, i)
  {
    if !(i == 0 || StartsWith(Rest(s, i - 1), "\n")) || !StartsWith(Rest(s, i), "%") {
      return false;
    }
    var wasEndChar := false;
    var k := i;
    while k < |s|
      invariant i <= k <= |s|
      invariant forall m :: i <= m < k ==> NotChar('\n')(s[m])
      invariant wasEndChar == (k > i && s[k - 1] == '%')
    {
      if s[k] == '\n' {
        SpanUnique(s, i, k, NotChar('\n'));
        return wasEndChar;
      }
      wasEndChar := s[k] == '%';
      k := k + 1;
    }
    SpanUnique(s, i, k, NotChar('\n'));
    return false;
  }

  /** A line recognised as a module attribute holds at least "%" and a closing '%' before its newline. */
  lemma RecognisedModuleAttribute(s: string, i: nat)
    requires ModuleAttributeLine(s, i)
    ensures i < |s| && s[i] == '%'
    ensures var j := Span(s, i, NotChar('\n'));
      i < j < |s| && s[j] == '\n' && s[j - 1] == '%' && forall m :: i <= m < j ==> s[m] != '\n'
  {
    assert Rest(s, i)[0] == '%';
    SpanAll(s, i, NotChar('\n'));
  }
}
