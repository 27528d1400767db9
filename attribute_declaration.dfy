// `@Name(arg, ...)` attributes (src/declaration_parser/attribute_declaration.rs).

module AttributeDeclarations {
  import opened Text
  import opened Wrappers
  import opened Scan
  import opened Cursor
  import opened Declarations

  /** A parameter: the span `(start, end)` of its text, or the text itself when parameters are stored. */
  type Param = Either<(nat, nat), string>

  datatype AttributeDecl = AttributeDecl(name: string, parameters: Option<seq<Param>>, line: nat)

  const AttributeEof := "unexpected end of attribute"

  /** `is_attribute_declaration`: the text at `i` starts with '@'. */
  predicate IsAttributeDeclaration(s: string, i: nat) {
    StartsWith(Rest(s, i), "@")
  }

  /** One parameter ending at `end`: a span, or its text when `store` is set. */
  function MakeParam(s: string, start: nat, end: nat, store: bool): Param
    requires start <= end <= |s|
  {
    if store then Right(s[start..end]) else Left((start, end))
  }

  /**
   * The parameter loop: each parameter runs to the next ',' or ')' at depth
   * zero; ',' is stepped over and the loop goes on, ')' ends it and is left
   * under the cursor.
   */
  function ParamLoop(s: string, c: Cur, store: bool): (r: (Cur, DeclResult<seq<Param>>))
    requires c.index <= |s|
    ensures Parked(s, r.0)
    decreases |s| - c.index
  {
    var (u, _, found) := UntilAtExpr(s, c, ',', ')');
    if u.oos then (u, OutOfSpace(u.index, AttributeEof))
    else
      var p := MakeParam(s, c.index, u.index, store);
      if found == Some(')') then (u, Ok([p]))
      else if found == Some(',') then PrependAll([p], ParamLoop(s, Inc(s, u), store))
      else (u, OutOfSpace(u.index, AttributeEof))
  }

  /** What `AttributeDeclaration::new` makes of the text at `c`. */
  function AttributeSpec(s: string, c: Cur, store: bool): (r: (Cur, DeclResult<AttributeDecl>))
    requires Parked(s, c)
    ensures Parked(s, r.0)
  {
    if CurrOf(s, c) != '@' then (c, UnexpectedCharacter(c.index))
    else
      var (a, name) := AsciiName(s, Inc(s, c));
      if name == "" then (a, Err("Expected Identifier", "ascii identifier expected here", a.index - 1, a.index))
      else if a.oos then (a, OutOfSpace(a.index, AttributeEof))
      else
        var w := Whitespace(s, a).0;
        if w.oos then (w, OutOfSpace(w.index, AttributeEof))
        else if CurrOf(s, w) != '(' then (w, Ok(AttributeDecl(name, None, c.line)))
        else
          var (u, ps) := ParamLoop(s, Inc(s, w), store);
          if ps.Err? then (u, Err(ps.title, ps.msg, ps.start, ps.end))
          else (Inc(s, u), Ok(AttributeDecl(name, Some(ps.value), c.line)))
  }

  /** `AttributeDeclaration::new`. */
  method NewAttribute(p: Parser, store: bool) returns (r: DeclResult<AttributeDecl>)
    requires p.Parked()
    modifies p
    ensures (p.State(), r) == AttributeSpec(p.chars, old(p.State()), store)
  {
    var initialLine := p.line;
    var next := p.Curr();
    if next != '@' {
      return UnexpectedCharacter(p.index);
    }
    var _ := p.Increment();
    var name, e := ParseAscii<AttributeDecl>(p, AttributeEof);
    if e.Some? {
      return e.value;
    }
    e := SkipWhitespace(p, AttributeEof);
    if e.Some? {
      return e.value;
    }
    next := p.Curr();
    if next != '(' {
      return Ok(AttributeDecl(name, None, initialLine));
    }
    var _ := p.Increment();
    var ps := ParseParams(p, store);
    if ps.Err? {
      return Err(ps.title, ps.msg, ps.start, ps.end);
    }
    var _ := p.Increment();
    return Ok(AttributeDecl(name, Some(ps.value), initialLine));
  }

  /** The parameter loop of `AttributeDeclaration::new`. */
  method ParseParams(p: Parser, store: bool) returns (r: DeclResult<seq<Param>>)
    requires p.index <= |p.chars|
    modifies p
    ensures (p.State(), r) == ParamLoop(p.chars, old(p.State()), store)
  {
    var params: seq<Param> := [];
    PrependAllEmpty(ParamLoop(p.chars, p.State(), store));
    while true
      invariant p.index <= |p.chars|
      invariant PrependAll(params, ParamLoop(p.chars, p.State(), store)) == ParamLoop(p.chars, old(p.State()), store)
      decreases |p.chars| - p.index
    {
      var start := p.index;
      var found, e := ExprUntilOrFail<seq<Param>>(p, ',', ')', AttributeEof);
      if e.Some? {
        return e.value;
      }
      var param := MakeParam(p.chars, start, p.index, store);
      if found == Some(')') {
        return Ok(params + [param]);
      } else if found == Some(',') {
        PrependAllTwice(params, param, ParamLoop(p.chars, Inc(p.chars, p.State()), store));
        params := params + [param];
        var _ := p.Increment();
      } else {
        return OutOfSpace(p.index, AttributeEof);
      }
    }
  }

  /**
   * Spans that follow one another: the first starts at `start`, each ends on
   * a ',' that the next starts just after, and the last ends at `end`.
   */
  predicate CommaChain(s: string, ps: seq<Param>, start: nat, end: nat) {
    |ps| > 0 &&
    (forall k :: 0 <= k < |ps| ==> ps[k].Left? && ps[k].left.0 <= ps[k].left.1 < |s|) &&
    ps[0].left.0 == start && ps[|ps| - 1].left.1 == end &&
    forall k :: 0 <= k < |ps| - 1 ==> s[ps[k].left.1] == ',' && ps[k + 1].left.0 == ps[k].left.1 + 1
  }

  /** The parameters as spans follow one another from the loop's start to the ')' it stops on. */
  lemma {:induction false} ParamSpans(s: string, c: Cur)
    requires c.index <= |s|
    ensures var (u, r) := ParamLoop(s, c, false);
      r.Ok? ==> !u.oos && u.index < |s| && s[u.index] == ')' && CommaChain(s, r.value, c.index, u.index)
    decreases |s| - c.index
  {
    var (u, _, found) := UntilAtExpr(s, c, ',', ')');
    if !u.oos && found == Some(',') {
      var p := MakeParam(s, c.index, u.index, false);
      var n := Inc(s, u);
      ParamSpans(s, n);
      var (v, rest) := ParamLoop(s, n, false);
      if rest.Ok? {
        assert s[u.index] == ',';
        var all := [p] + rest.value;
        assert all[1..] == rest.value;
        assert forall k :: 1 <= k < |all| ==> all[k] == rest.value[k - 1];
      }
    }
  }

  /** The texts of a list of spans, as stored parameters. */
  function SpanTexts(s: string, ps: seq<Param>): (r: seq<Param>)
    requires forall k :: 0 <= k < |ps| ==> ps[k].Left? && ps[k].left.0 <= ps[k].left.1 <= |s|
    ensures |r| == |ps|
  {
    seq(|ps|, k requires 0 <= k < |ps| && ps[k].Left? && ps[k].left.0 <= ps[k].left.1 <= |s| =>
      Right(s[ps[k].left.0..ps[k].left.1]))
  }

  lemma SpanTextsCons(s: string, p: Param, ps: seq<Param>)
    requires p.Left? && p.left.0 <= p.left.1 <= |s|
    requires forall k :: 0 <= k < |ps| ==> ps[k].Left? && ps[k].left.0 <= ps[k].left.1 <= |s|
    ensures SpanTexts(s, [p] + ps) == [Right(s[p.left.0..p.left.1])] + SpanTexts(s, ps)
  {
    assert forall k :: 1 <= k < |[p] + ps| ==> ([p] + ps)[k] == ps[k - 1];
  }

  /** Storing parameters keeps the same loop and records each span's text instead of the span. */
  lemma {:induction false} StoredParamsAreSpanTexts(s: string, c: Cur)
    requires c.index <= |s|
    ensures var (u1, r1) := ParamLoop(s, c, false);
      var (u2, r2) := ParamLoop(s, c, true);
      u1 == u2 && r1.Ok? == r2.Ok? &&
      (r1.Ok? ==>
        (forall k :: 0 <= k < |r1.value| ==> r1.value[k].Left? && r1.value[k].left.0 <= r1.value[k].left.1 <= |s|) &&
        r2.value == SpanTexts(s, r1.value))
    decreases |s| - c.index
  {
    var (u, _, found) := UntilAtExpr(s, c, ',', ')');
    if !u.oos && found == Some(',') {
      var n := Inc(s, u);
      StoredParamsAreSpanTexts(s, n);
      var x1 := ParamLoop(s, n, false).1;
      var x2 := ParamLoop(s, n, true).1;
      if x1.Ok? {
        SpanTextsCons(s, MakeParam(s, c.index, u.index, false), x1.value);
      }
    }
  }

  /** `params_length`: the number of parameters, none when there were no parentheses. */
  function ParamsLength(d: AttributeDecl): (n: nat)
    ensures d.parameters.None? ==> n == 0
    ensures d.parameters.Some? ==> n == |d.parameters.value|
  {
    if d.parameters.Some? then |d.parameters.value| else 0
  }

  /** Every span parameter lies within `content`, so `get_param` can slice it. */
  predicate ParamsWithin(d: AttributeDecl, content: string) {
    d.parameters.Some? ==>
      forall k :: 0 <= k < |d.parameters.value| && d.parameters.value[k].Left? ==>
        d.parameters.value[k].left.0 <= d.parameters.value[k].left.1 <= |content|
  }

  /** `get_param`: the text of parameter `i`, cut from `content` for a span. */
  function GetParam(d: AttributeDecl, i: nat, content: string): string
    requires d.parameters.Some? && i < |d.parameters.value| && ParamsWithin(d, content)
  {
    match d.parameters.value[i]
    case Left(span) => content[span.0..span.1]
    case Right(text) => text
  }

  /** All parameter texts of an attribute, in order. */
  function ParamTexts(d: AttributeDecl, content: string): (r: seq<string>)
    requires ParamsWithin(d, content)
    ensures |r| == ParamsLength(d)
  {
    if d.parameters.None? then []
    else seq(|d.parameters.value|, i requires 0 <= i < |d.parameters.value| => GetParam(d, i, content))
  }

  /**
   * An attribute parsed with stored parameters gives the same parameter
   * texts as the same attribute parsed with spans.
   */
  lemma StoredAttributeSameTexts(s: string, c: Cur)
    requires Parked(s, c)
    ensures var (u1, r1) := AttributeSpec(s, c, false);
      var (u2, r2) := AttributeSpec(s, c, true);
      u1 == u2 && r1.Ok? == r2.Ok?
    ensures var r1 := AttributeSpec(s, c, false).1;
      var r2 := AttributeSpec(s, c, true).1;
      r1.Ok? && r2.Ok? ==>
        r1.value.name == r2.value.name && r1.value.line == r2.value.line &&
        ParamsWithin(r1.value, s) && ParamsWithin(r2.value, s) &&
        ParamTexts(r1.value, s) == ParamTexts(r2.value, s)
  {
    if CurrOf(s, c) == '@' {
      var (a, name) := AsciiName(s, Inc(s, c));
      if name != "" && !a.oos {
        var w := Whitespace(s, a).0;
        if !w.oos && CurrOf(s, w) == '(' {
          StoredParamsAreSpanTexts(s, Inc(s, w));
        }
      }
    }
  }

  /** A recognised attribute gets past the '@'. */
  lemma RecognisedAttribute(s: string, c: Cur)
    requires !c.oos && IsAttributeDeclaration(s, c.index)
    ensures Parked(s, c) && CurrOf(s, c) == '@'
  {
    assert Rest(s, c.index)[0] == '@';
  }

  /** Every parameter is stored text, so it reads the same against any content. */
  predicate StoredOnly(d: AttributeDecl) {
    d.parameters.Some? ==> forall k :: 0 <= k < |d.parameters.value| ==> d.parameters.value[k].Right?
  }

  /** Stored text needs no content: such an attribute can be read against any file. */
  lemma StoredOnlyWithin(d: AttributeDecl, content: string)
    requires StoredOnly(d)
    ensures ParamsWithin(d, content)
  {
  }

  /** With `store` set, the parameter loop stores every parameter as text. */
  lemma {:induction false} ParamLoopStores(s: string, c: Cur)
    requires c.index <= |s|
    ensures var r := ParamLoop(s, c, true).1;
      r.Ok? ==> forall k :: 0 <= k < |r.value| ==> r.value[k].Right?
    decreases |s| - c.index
  {
    var (u, _, found) := UntilAtExpr(s, c, ',', ')');
    if !u.oos && found == Some(',') {
      var rest := ParamLoop(s, Inc(s, u), true);
      ParamLoopStores(s, Inc(s, u));
      assert ParamLoop(s, c, true) == PrependAll([MakeParam(s, c.index, u.index, true)], rest);
      if rest.1.Ok? {
        var ps := [MakeParam(s, c.index, u.index, true)] + rest.1.value;
        assert forall k :: 1 <= k < |ps| ==> ps[k] == rest.1.value[k - 1];
      }
    }
  }

  /** An attribute parsed with `store` set holds only stored text. */
  lemma AttributeStores(s: string, c: Cur)
    requires Parked(s, c)
    ensures AttributeSpec(s, c, true).1.Ok? ==> StoredOnly(AttributeSpec(s, c, true).1.value)
  {
    var r := AttributeSpec(s, c, true).1;
    if r.Ok? && r.value.parameters.Some? {
      var (a, name) := AsciiName(s, Inc(s, c));
      var w := Whitespace(s, a).0;
      ParamLoopStores(s, Inc(s, w));
      assert r.value.parameters == Some(ParamLoop(s, Inc(s, w), true).1.value);
    }
  }

  /** An attribute parse that starts on '@' moves the cursor. */
  lemma AttributeProgress(s: string, c: Cur, store: bool)
    requires Parked(s, c) && IsAttributeDeclaration(s, c.index)
    ensures AttributeSpec(s, c, store).0.oos || AttributeSpec(s, c, store).0.index > c.index
    ensures AttributeSpec(s, c, store).0.index >= c.index
  {
    if !c.oos {
      RecognisedAttribute(s, c);
      ParamLoopMoves(s, c, store);
    }
  }

  /** The parameter loop never moves the cursor back. */
  lemma {:induction false} ParamLoopMovesFrom(s: string, c: Cur, store: bool)
    requires c.index <= |s|
    ensures ParamLoop(s, c, store).0.index >= c.index
    decreases |s| - c.index
  {
    var (u, _, found) := UntilAtExpr(s, c, ',', ')');
    if !u.oos && found == Some(',') {
      ParamLoopMovesFrom(s, Inc(s, u), store);
    }
  }

  lemma ParamLoopMoves(s: string, c: Cur, store: bool)
    requires Parked(s, c) && CurrOf(s, c) == '@'
    ensures AttributeSpec(s, c, store).0.index > c.index
  {
    var (a, name) := AsciiName(s, Inc(s, c));
    if name != "" && !a.oos {
      var w := Whitespace(s, a).0;
      if !w.oos && CurrOf(s, w) == '(' {
        ParamLoopMovesFrom(s, Inc(s, w), store);
      }
    }
  }
}
