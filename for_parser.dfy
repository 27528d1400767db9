// The counted and collection loops `for x in e`, `inc x from a to b by s`,
// `dec …`, `incto …` and `decto …` (src/scope_parser/for_parser.rs).

module ForParsers {
  import opened Text
  import opened Wrappers
  import opened Scan
  import opened Cursor
  import opened Declarations
  import opened Expressions
  import opened Statements

  /** `ForType`: which loop the keyword introduced. */
  datatype ForType = ForEach | Increment | Decrement | IncrementTo | DecrementTo | Invalid

  /** `ForType::new`. */
  function NewForType(id: string): ForType {
    match id
    case "for" => ForEach
    case "inc" => Increment
    case "dec" => Decrement
    case "incto" => IncrementTo
    case "decto" => DecrementTo
    case _ => ForType.Invalid
  }

  /** The keyword each valid loop kind is written with. */
  function ForKeyword(t: ForType): string
    requires !t.Invalid?
  {
    match t
    case ForEach => "for"
    case Increment => "inc"
    case Decrement => "dec"
    case IncrementTo => "incto"
    case DecrementTo => "decto"
  }

  /** The bounds of a counted loop: start, end and the optional step. */
  type Bounds = (Expression, Expression, Option<Expression>)

  /** A parsed loop: a collection (`Left`) for `for`, bounds (`Right`) otherwise. */
  datatype ForStatement = ForStatement(forType: ForType, varName: string, content: Either<Expression, Bounds>, scope: Scope, line: nat, endLine: nat)

  const ForEof := "unexpected end of for statement"

  /** `is_for_declaration` as written: the word "for", "inc" or "dec" at `i`. */
  predicate IsForDeclaration(s: string, i: nat) {
    StartsWithWord(Rest(s, i), "for") || StartsWithWord(Rest(s, i), "inc") || StartsWithWord(Rest(s, i), "dec")
  }

  /** The recognition `ForType::new` calls for: every keyword it accepts. */
  predicate IsForDeclarationIntended(s: string, i: nat) {
    IsForDeclaration(s, i) || StartsWithWord(Rest(s, i), "incto") || StartsWithWord(Rest(s, i), "decto")
  }

  /**
   * The variable name as written: `parse_ascii` already fails with
   * "Expected Identifier" on an empty name, so the later
   * "Expected Variable Name" check never fires.
   */
  function ForVariableAsWritten(s: string, b: Cur): (r: (Cur, string, Option<DeclResult<ForStatement>>))
    ensures (r.0, r.1) == AsciiName(s, b)
    ensures r.2.None? <==> r.1 != "" && !r.0.oos
  {
    var (a, name, e) := Word<ForStatement>(s, b, ForEof);
    if e.Some? then (a, name, e)
    else if name == "" then (a, name, Some(Err("Expected Variable Name", "variable name expected", a.index - 1, a.index)))
    else (a, name, None)
  }

  /** The variable name with the error the loop parser means to report when it is missing. */
  function ForVariable(s: string, b: Cur): (r: (Cur, string, Option<DeclResult<ForStatement>>))
    ensures (r.0, r.1) == AsciiName(s, b)
    ensures r.2.None? <==> r.1 != "" && !r.0.oos
  {
    var (a, name) := AsciiName(s, b);
    if name == "" then (a, name, Some(Err("Expected Variable Name", "variable name expected", a.index - 1, a.index)))
    else (a, name, EndCheck(a, ForEof))
  }

  /** What `ForParser::new` makes of the text at `c`. */
  function ForSpec(s: string, c: Cur, o: StatementOracles): (r: (Cur, DeclResult<ForStatement>))
    requires ScopesForward(o, s)
    ensures r.1.Ok? ==> r.1.value.line == c.line && r.1.value.endLine == r.0.line
    ensures r.1.Ok? ==> r.1.value.forType == NewForType(AsciiName(s, c).1) && !r.1.value.forType.Invalid?
  {
    var (a, kw, e) := Word(s, c, ForEof);
    if e.Some? then (a, e.value)
    else
      var forType := NewForType(kw);
      if forType.Invalid? then (a, WrongKeyword("\"for\" keyword expected", a, kw))
      else
        var (w, e2) := RequiredSpace<ForStatement>(s, a, ForEof);
        if e2.Some? then (w, e2.value)
        else ForHead(s, w, forType, c.line, o)
  }

  /** The variable name, required blank text, then what the loop kind expects. */
  function ForHead(s: string, w: Cur, forType: ForType, line: nat, o: StatementOracles): (r: (Cur, DeclResult<ForStatement>))
    requires ScopesForward(o, s)
    ensures r.1.Ok? ==> r.1.value.forType == forType && r.1.value.varName == AsciiName(s, w).1 != ""
    ensures r.1.Ok? ==> r.1.value.line == line && r.1.value.endLine == r.0.line
    ensures r.1.Ok? ==> (r.1.value.content.Left? <==> forType.ForEach?)
  {
    var (b, name, e) := ForVariableAsWritten(s, w);
    if e.Some? then (b, e.value)
    else
      var (v, e2) := RequiredSpace<ForStatement>(s, b, ForEof);
      if e2.Some? then (v, e2.value)
      else if forType.ForEach? then ForIn(s, v, forType, name, line, o)
      else ForFrom(s, v, forType, name, line, o)
  }

  /** `in`, required blank text, and the collection. */
  function ForIn(s: string, v: Cur, forType: ForType, name: string, line: nat, o: StatementOracles): (r: (Cur, DeclResult<ForStatement>))
    requires ScopesForward(o, s)
    ensures r.1.Ok? ==> r.1.value.forType == forType && r.1.value.varName == name && r.1.value.content.Left?
    ensures r.1.Ok? ==> r.1.value.line == line && r.1.value.endLine == r.0.line
  {
    var (a, kw, e) := Word(s, v, ForEof);
    if e.Some? then (a, e.value)
    else if kw != "in" then (a, WrongKeyword("\"in\" keyword expected", a, kw))
    else
      var (y, e2) := RequiredSpace<ForStatement>(s, a, ForEof);
      if e2.Some? then (y, e2.value)
      else
        var (x, collection, reason) := o.parseExpression(s, y, Some(o.boolean));
        var f := ConditionFailure<ForStatement>(reason, x);
        if f.Some? then (x, f.value)
        else ForScope(s, x, forType, name, Left(collection), line, o)
  }

  /** `from`, required blank text, and the start value. */
  function ForFrom(s: string, v: Cur, forType: ForType, name: string, line: nat, o: StatementOracles): (r: (Cur, DeclResult<ForStatement>))
    requires ScopesForward(o, s)
    ensures r.1.Ok? ==> r.1.value.forType == forType && r.1.value.varName == name && r.1.value.content.Right?
    ensures r.1.Ok? ==> r.1.value.line == line && r.1.value.endLine == r.0.line
  {
    var (a, kw, e) := Word(s, v, ForEof);
    if e.Some? then (a, e.value)
    else if kw != "from" then (a, WrongKeyword("\"from\" keyword expected", a, kw))
    else
      var (y, e2) := RequiredSpace<ForStatement>(s, a, ForEof);
      if e2.Some? then (y, e2.value)
      else
        var (x, start, reason) := o.parseExpression(s, y, Some(o.boolean));
        var f := ConditionFailure<ForStatement>(reason, x);
        if f.Some? then (x, f.value)
        else
          var z := Whitespace(s, x).0;
          if z.oos then (z, OutOfSpace(z.index, ForEof))
          else ForTo(s, z, forType, name, start, line, o)
  }

  /** `to`, optional blank text, and the end value. */
  function ForTo(s: string, z: Cur, forType: ForType, name: string, start: Expression, line: nat, o: StatementOracles): (r: (Cur, DeclResult<ForStatement>))
    requires ScopesForward(o, s)
    ensures r.1.Ok? ==> r.1.value.forType == forType && r.1.value.varName == name
    ensures r.1.Ok? ==> r.1.value.content.Right? && r.1.value.content.right.0 == start
    ensures r.1.Ok? ==> r.1.value.line == line && r.1.value.endLine == r.0.line
  {
    var (a, kw, e) := Word(s, z, ForEof);
    if e.Some? then (a, e.value)
    else if kw != "to" then (a, WrongKeyword("\"to\" keyword expected", a, kw))
    else
      var y := Whitespace(s, a).0;
      if y.oos then (y, OutOfSpace(y.index, ForEof))
      else
        var (x, end, reason) := o.parseExpression(s, y, Some(o.boolean));
        var f := ConditionFailure<ForStatement>(reason, x);
        if f.Some? then (x, f.value)
        else
          var q := Whitespace(s, x).0;
          if q.oos then (q, OutOfSpace(q.index, ForEof))
          else ForBy(s, q, forType, name, start, end, line, o)
  }

  /**
   * An optional `by` and the step. Any other word is put back: the body
   * is parsed from where it starts.
   */
  function ForBy(s: string, q: Cur, forType: ForType, name: string, start: Expression, end: Expression, line: nat, o: StatementOracles): (r: (Cur, DeclResult<ForStatement>))
    requires !q.oos && ScopesForward(o, s)
    ensures r.1.Ok? ==> r.1.value.forType == forType && r.1.value.varName == name
    ensures r.1.Ok? ==> r.1.value.content.Right? && r.1.value.content.right.0 == start && r.1.value.content.right.1 == end
    ensures r.1.Ok? ==> (r.1.value.content.right.2.Some? <==> AsciiName(s, q).1 == "by")
    ensures r.1.Ok? ==> r.1.value.line == line && r.1.value.endLine == r.0.line
  {
    var (b, word) := AsciiName(s, q);
    if word == "by" then ForStep(s, b, forType, name, start, end, line, o)
    else ForScope(s, Cur(q.index, q.line, false), forType, name, Right((start, end, None)), line, o)
  }

  /** The step, parsed straight after `by`. */
  function ForStep(s: string, b: Cur, forType: ForType, name: string, start: Expression, end: Expression, line: nat, o: StatementOracles): (r: (Cur, DeclResult<ForStatement>))
    requires ScopesForward(o, s)
    ensures r.1.Ok? ==> r.1.value.content == Right((start, end, Some(o.parseExpression(s, b, Some(o.boolean)).1)))
    ensures r.1.Ok? ==> r.1.value.forType == forType && r.1.value.varName == name
    ensures r.1.Ok? ==> r.1.value.line == line && r.1.value.endLine == r.0.line
  {
    var (x, step, reason) := o.parseExpression(s, b, Some(o.boolean));
    ForStepRead(s, x, step, reason, forType, name, start, end, line, o)
  }

  /** What follows the step the expression parser read, stopping at `x` for `reason`: a failure, or the body. */
  function ForStepRead(s: string, x: Cur, step: Expression, reason: EndReason, forType: ForType, name: string, start: Expression, end: Expression, line: nat, o: StatementOracles): (r: (Cur, DeclResult<ForStatement>))
    requires ScopesForward(o, s)
    ensures r.1.Ok? ==> r.1.value.content == Right((start, end, Some(step)))
    ensures r.1.Ok? ==> r.1.value.forType == forType && r.1.value.varName == name
    ensures r.1.Ok? ==> r.1.value.line == line && r.1.value.endLine == r.0.line
  {
    var f := ConditionFailure<ForStatement>(reason, x);
    if f.Some? then (x, f.value)
    else ForScope(s, x, forType, name, Right((start, end, Some(step))), line, o)
  }

  /** Optional blank text and the body. */
  function ForScope(s: string, x: Cur, forType: ForType, name: string, content: Either<Expression, Bounds>, line: nat, o: StatementOracles): (r: (Cur, DeclResult<ForStatement>))
    requires ScopesForward(o, s)
    ensures r.1.Ok? ==> r.1 == Ok(ForStatement(forType, name, content, r.1.value.scope, line, r.0.line))
  {
    var w := Whitespace(s, x).0;
    if w.oos then (w, OutOfSpace(w.index, ForEof))
    else
      var (u, scope) := Body(s, w, o);
      (u, Ok(ForStatement(forType, name, content, scope, line, u.line)))
  }

  /** `ForParser::new`. */
  method NewFor(p: Parser, o: StatementOracles) returns (r: DeclResult<ForStatement>)
    requires ScopesForward(o, p.chars)
    modifies p
    ensures (p.State(), r) == ForSpec(p.chars, old(p.State()), o)
  {
    var initialLine := p.line;
    var keyword, e := ParseAscii<ForStatement>(p, ForEof);
    if e.Some? {
      return e.value;
    }
    var forType := NewForType(keyword);
    if forType.Invalid? {
      return Err("Unexpected Keyword", "\"for\" keyword expected", p.index - |keyword|, p.index);
    }
    e := RequireWhitespace(p, ForEof);
    if e.Some? {
      return e.value;
    }
    r := ParseForHead(p, forType, initialLine, o);
  }

  method ParseForHead(p: Parser, forType: ForType, line: nat, o: StatementOracles) returns (r: DeclResult<ForStatement>)
    requires ScopesForward(o, p.chars)
    modifies p
    ensures (p.State(), r) == ForHead(p.chars, old(p.State()), forType, line, o)
  {
    // `parse_ascii` already rejects an empty name, so the later
    // "Expected Variable Name" check has nothing left to catch.
    var name, e := ParseAscii<ForStatement>(p, ForEof);
    if e.Some? {
      return e.value;
    }
    e := RequireWhitespace(p, ForEof);
    if e.Some? {
      return e.value;
    }
    if forType.ForEach? {
      r := ParseForIn(p, forType, name, line, o);
    } else {
      r := ParseForFrom(p, forType, name, line, o);
    }
  }

  method ParseForIn(p: Parser, forType: ForType, name: string, line: nat, o: StatementOracles) returns (r: DeclResult<ForStatement>)
    requires ScopesForward(o, p.chars)
    modifies p
    ensures (p.State(), r) == ForIn(p.chars, old(p.State()), forType, name, line, o)
  {
    var keyword, e := ParseAscii<ForStatement>(p, ForEof);
    if e.Some? {
      return e.value;
    }
    if keyword != "in" {
      return Err("Unexpected Keyword", "\"in\" keyword expected", p.index - |keyword|, p.index);
    }
    e := RequireWhitespace(p, ForEof);
    if e.Some? {
      return e.value;
    }
    var collection, reason := ParseExpression(p, o, Some(o.boolean));
    var f := ConditionFailure<ForStatement>(reason, p.State());
    if f.Some? {
      return f.value;
    }
    r := ParseForScope(p, forType, name, Left(collection), line, o);
  }

  method ParseForFrom(p: Parser, forType: ForType, name: string, line: nat, o: StatementOracles) returns (r: DeclResult<ForStatement>)
    requires ScopesForward(o, p.chars)
    modifies p
    ensures (p.State(), r) == ForFrom(p.chars, old(p.State()), forType, name, line, o)
  {
    var keyword, e := ParseAscii<ForStatement>(p, ForEof);
    if e.Some? {
      return e.value;
    }
    if keyword != "from" {
      return Err("Unexpected Keyword", "\"from\" keyword expected", p.index - |keyword|, p.index);
    }
    e := RequireWhitespace(p, ForEof);
    if e.Some? {
      return e.value;
    }
    var start, reason := ParseExpression(p, o, Some(o.boolean));
    var f := ConditionFailure<ForStatement>(reason, p.State());
    if f.Some? {
      return f.value;
    }
    e := SkipWhitespace(p, ForEof);
    if e.Some? {
      return e.value;
    }
    r := ParseForTo(p, forType, name, start, line, o);
  }

  method ParseForTo(p: Parser, forType: ForType, name: string, start: Expression, line: nat, o: StatementOracles) returns (r: DeclResult<ForStatement>)
    requires ScopesForward(o, p.chars)
    modifies p
    ensures (p.State(), r) == ForTo(p.chars, old(p.State()), forType, name, start, line, o)
  {
    var keyword, e := ParseAscii<ForStatement>(p, ForEof);
    if e.Some? {
      return e.value;
    }
    if keyword != "to" {
      return Err("Unexpected Keyword", "\"to\" keyword expected", p.index - |keyword|, p.index);
    }
    e := SkipWhitespace(p, ForEof);
    if e.Some? {
      return e.value;
    }
    var end, reason := ParseExpression(p, o, Some(o.boolean));
    var f := ConditionFailure<ForStatement>(reason, p.State());
    if f.Some? {
      return f.value;
    }
    e := SkipWhitespace(p, ForEof);
    if e.Some? {
      return e.value;
    }
    r := ParseForBy(p, forType, name, start, end, line, o);
  }

  method ParseForBy(p: Parser, forType: ForType, name: string, start: Expression, end: Expression, line: nat, o: StatementOracles) returns (r: DeclResult<ForStatement>)
    requires !p.outOfSpace && ScopesForward(o, p.chars)
    modifies p
    ensures (p.State(), r) == ForBy(p.chars, old(p.State()), forType, name, start, end, line, o)
  {
    ghost var q := p.State();
    var currIndex := p.index;
    var currLine := p.line;
    var word := p.ParseAsciiCharName();
    if word == "by" {
      assert ForBy(p.chars, q, forType, name, start, end, line, o) == ForStep(p.chars, p.State(), forType, name, start, end, line, o);
      r := ParseForStep(p, forType, name, start, end, line, o);
    } else {
      p.Reset(currIndex, currLine);
      assert p.State() == q;
      r := ParseForScope(p, forType, name, Right((start, end, None)), line, o);
    }
  }

  method ParseForStep(p: Parser, forType: ForType, name: string, start: Expression, end: Expression, line: nat, o: StatementOracles) returns (r: DeclResult<ForStatement>)
    requires ScopesForward(o, p.chars)
    modifies p
    ensures (p.State(), r) == ForStep(p.chars, old(p.State()), forType, name, start, end, line, o)
  {
    var step, reason := ParseExpression(p, o, Some(o.boolean));
    r := ParseForStepRead(p, step, reason, forType, name, start, end, line, o);
  }

  method ParseForStepRead(p: Parser, step: Expression, reason: EndReason, forType: ForType, name: string, start: Expression, end: Expression, line: nat, o: StatementOracles) returns (r: DeclResult<ForStatement>)
    requires ScopesForward(o, p.chars)
    modifies p
    ensures (p.State(), r) == ForStepRead(p.chars, old(p.State()), step, reason, forType, name, start, end, line, o)
  {
    var f := ConditionFailure<ForStatement>(reason, p.State());
    if f.Some? {
      return f.value;
    }
    var content: Either<Expression, Bounds> := Right((start, end, Some(step)));
    assert ForStepRead(p.chars, p.State(), step, reason, forType, name, start, end, line, o)
      == ForScope(p.chars, p.State(), forType, name, content, line, o);
    r := ParseForScope(p, forType, name, content, line, o);
  }

  method ParseForScope(p: Parser, forType: ForType, name: string, content: Either<Expression, Bounds>, line: nat, o: StatementOracles) returns (r: DeclResult<ForStatement>)
    requires ScopesForward(o, p.chars)
    modifies p
    ensures (p.State(), r) == ForScope(p.chars, old(p.State()), forType, name, content, line, o)
  {
    var e := SkipWhitespace<ForStatement>(p, ForEof);
    if e.Some? {
      return e.value;
    }
    var scope := ParseBody(p, o);
    return Ok(ForStatement(forType, name, content, scope, line, p.line));
  }

  /** `ForType::new` reads back the keyword of every valid kind, and only those five words give a valid kind. */
  lemma ForTypeKeywords(t: ForType, id: string)
    ensures !t.Invalid? ==> NewForType(ForKeyword(t)) == t
    ensures !NewForType(id).Invalid? ==> ForKeyword(NewForType(id)) == id
    ensures NewForType(id).Invalid? <==> id !in {"for", "inc", "dec", "incto", "decto"}
  {
  }

  /**
   * A collection loop needs `in`: any other word after the variable is
   * "Unexpected Keyword" over that word.
   */
  lemma ForNeedsIn(s: string, v: Cur, forType: ForType, name: string, line: nat, o: StatementOracles)
    requires ScopesForward(o, s)
    requires AsciiName(s, v).1 != "" && AsciiName(s, v).1 != "in" && !AsciiName(s, v).0.oos
    ensures var a := AsciiName(s, v).0;
      ForIn(s, v, forType, name, line, o).1 == Err("Unexpected Keyword", "\"in\" keyword expected", v.index, a.index)
  {
  }

  /** Without `by` the counted loop has no step and its body starts where the peeked word did. */
  lemma ForWithoutStep(s: string, q: Cur, forType: ForType, name: string, start: Expression, end: Expression, line: nat, o: StatementOracles)
    requires !q.oos && ScopesForward(o, s)
    requires AsciiName(s, q).1 != "by"
    ensures ForBy(s, q, forType, name, start, end, line, o) == ForScope(s, q, forType, name, Right((start, end, None)), line, o)
  {
  }

  /** As written, a missing variable name is reported as "Expected Identifier", never as "Expected Variable Name". */
  lemma VariableNameCheckUnreachable(s: string, b: Cur)
    ensures var r := ForVariableAsWritten(s, b);
      r.2.Some? ==> r.2.value.title != "Expected Variable Name"
    ensures AsciiName(s, b).1 == "" ==>
      ForVariableAsWritten(s, b).2 == Some(Err("Expected Identifier", "ascii identifier expected here", AsciiName(s, b).0.index - 1, AsciiName(s, b).0.index))
  {
  }

  /** With the intended check, a missing variable name is reported as such, just before where it should start. */
  lemma MissingVariableNameReported(s: string, b: Cur)
    requires AsciiName(s, b).1 == ""
    ensures ForVariable(s, b).2 == Some(Err("Expected Variable Name", "variable name expected", ForEnd(s, b).index - 1, ForEnd(s, b).index))
  {
  }

  /** As written, `incto` and `decto` are accepted by `ForType::new` but not recognised as loops. */
  lemma CountedToFormsUnrecognised()
    ensures NewForType("incto") == IncrementTo && !IsForDeclaration("incto 1", 0)
    ensures NewForType("decto") == DecrementTo && !IsForDeclaration("decto 1", 0)
  {
    assert "incto 1"[..3] == "inc" && "incto 1"[3] == 't';
    assert "decto 1"[..3] == "dec" && "decto 1"[3] == 't';
  }

  /** The intended recognition covers every keyword `ForType::new` accepts. */
  lemma EveryForKeywordRecognised(t: ForType, rest: string)
    requires !t.Invalid?
    requires |rest| == 0 || !IsWordChar(rest[0])
    ensures IsForDeclarationIntended(ForKeyword(t) + rest, 0)
  {
    var s := ForKeyword(t) + rest;
    assert Rest(s, 0) == s;
    assert s[..|ForKeyword(t)|] == ForKeyword(t);
  }
}
