// Attribute classes: `attribute Name(a, [b]) { @X(a) ... }`, and their
// expansion into the attributes they stand for
// (src/declaration_parser/attribute_class_declaration.rs).

module AttributeClassDeclarations {
  import opened Text
  import opened Wrappers
  import opened Scan
  import opened Cursor
  import opened Declarations
  import opened AttributeDeclarations

  /**
   * An attribute class: its name, its formals (a name, and whether it was
   * written in brackets) and the template attributes in its body.
   */
  datatype AttributeClassDecl = AttributeClassDecl(name: string, arguments: seq<(string, bool)>, attributes: seq<AttributeDecl>)

  const AttributeClassEof := "unexpected end of function"

  /** `is_attribute_class_declaration`: the text at `i` starts with "attribute ". */
  predicate IsAttributeClassDeclaration(s: string, i: nat) {
    StartsWith(Rest(s, i), "attribute ")
  }

  // ----- parsing -----

  /** What `AttributeClassDeclaration::new` makes of the text at `c`: keyword, name, formals, body. */
  function AttributeClassSpec(s: string, c: Cur): (r: (Cur, DeclResult<AttributeClassDecl>))
    ensures Parked(s, r.0) && r.0.index >= c.index
    ensures AsciiName(s, c).1 != "" ==> r.0.index > c.index
  {
    var (a, kw) := AsciiName(s, c);
    if kw == "" then (a, Err("Expected Identifier", "ascii identifier expected here", a.index - 1, a.index))
    else if a.oos then (a, OutOfSpace(a.index, AttributeClassEof))
    else if kw != "attribute" then (a, Err("Unexpected Keyword", "\"attribute\" keyword expected", a.index - |kw|, a.index))
    else
      var (w, skipped) := Whitespace(s, a);
      if !skipped then (w, Err("Expected Space", "whitspace expected here", w.index - 1, w.index))
      else if w.oos then (w, OutOfSpace(w.index, AttributeClassEof))
      else AttributeClassNamed(s, w)
  }

  /** From the class name on. */
  function AttributeClassNamed(s: string, w: Cur): (r: (Cur, DeclResult<AttributeClassDecl>))
    ensures Parked(s, r.0) && r.0.index >= w.index
  {
    var (n, name) := AsciiName(s, w);
    if name == "" then (n, Err("Attribute Name Missing", "attribute name missing", n.index - 1, n.index))
    else if n.oos then (n, OutOfSpace(n.index, AttributeClassEof))
    else AttributeClassFormals(s, n, name)
  }

  /** The formals, when the class has a parenthesised list, then the body. */
  function AttributeClassFormals(s: string, n: Cur, name: string): (r: (Cur, DeclResult<AttributeClassDecl>))
    ensures Parked(s, r.0) && r.0.index >= n.index
  {
    var v := Whitespace(s, n).0;
    if v.oos then (v, OutOfSpace(v.index, AttributeClassEof))
    else if CurrOf(s, v) != '(' then AttributeClassBody(s, v, name, [])
    else
      var (f, formals) := FormalLoop(s, Inc(s, v));
      if formals.Err? then (f, Err(formals.title, formals.msg, formals.start, formals.end))
      else AttributeClassBody(s, f, name, formals.value)
  }

  /** One formal and what follows it: the end of the list, more formals, or an error. */
  type FormalStep = (Cur, Option<DeclResult<seq<(string, bool)>>>, (string, bool), bool)

  /**
   * The formals: each is a name, or a name in brackets, followed by ',' or
   * ')'; the ')' is consumed.
   */
  function FormalLoop(s: string, c: Cur): (r: (Cur, DeclResult<seq<(string, bool)>>))
    requires c.index <= |s|
    ensures Parked(s, r.0)
    decreases |s| - c.index
    ensures r.0.index >= c.index
  {
    var (n, e, formal, done) := Formal(s, c);
    if e.Some? then (n, e.value)
    else if done then (n, Ok([formal]))
    else PrependAll([formal], FormalLoop(s, n))
  }

  /** One step of the formals loop: blank text, then the formal. */
  function Formal(s: string, c: Cur): (r: FormalStep)
    ensures r.1.Some? ==> r.1.value.Err?
    ensures Parked(s, r.0) && r.0.index >= c.index
    ensures r.1.None? && !r.3 ==> c.index < r.0.index < |s|
  {
    var w := Whitespace(s, c).0;
    if w.oos then (w, Some(OutOfSpace(w.index, AttributeClassEof)), ("", false), false)
    else FormalName(s, w)
  }

  /** The formal's name, in brackets or not. */
  function FormalName(s: string, w: Cur): (r: FormalStep)
    requires !w.oos && w.index < |s|
    ensures r.1.Some? ==> r.1.value.Err?
    ensures Parked(s, r.0) && r.0.index >= w.index
    ensures r.1.None? && !r.3 ==> w.index < r.0.index < |s|
  {
    var bracketed := CurrOf(s, w) == '[';
    var b := if bracketed then Inc(s, w) else w;
    var (n, name) := AsciiName(s, b);
    if name == "" then (n, Some(Err("Attribute Param Name Missing", "attribute parameter name missing", n.index - 1, n.index)), ("", false), false)
    else if n.oos then (n, Some(OutOfSpace(n.index, AttributeClassEof)), ("", false), false)
    else if bracketed && CurrOf(s, n) != ']' then (n, Some(Err("Unexpected Symbol", "expected ']' operator", n.index, n.index + 1)), (name, bracketed), false)
    else if bracketed && Inc(s, n).index >= |s| then (Inc(s, n), Some(OutOfSpace(n.index + 1, AttributeClassEof)), (name, bracketed), false)
    else FormalEnd(s, if bracketed then Inc(s, n) else n, (name, bracketed))
  }

  /** After a formal: ')' ends the list and is consumed; ',' is required otherwise. */
  function FormalEnd(s: string, m: Cur, formal: (string, bool)): (r: FormalStep)
    ensures r.1.Some? ==> r.1.value.Err?
    ensures Parked(s, r.0) && r.0.index >= m.index
    ensures r.1.None? && !r.3 ==> m.index < r.0.index < |s|
  {
    var v := Whitespace(s, m).0;
    if v.oos then (v, Some(OutOfSpace(v.index, AttributeClassEof)), formal, false)
    else if CurrOf(s, v) == ')' then (Inc(s, v), None, formal, true)
    else if CurrOf(s, v) != ',' then (v, Some(Err("Unexpected Symbol", "expected ',' operator", v.index, v.index + 1)), formal, false)
    else if Inc(s, v).index >= |s| then (Inc(s, v), Some(OutOfSpace(v.index + 1, AttributeClassEof)), formal, false)
    else (Inc(s, v), None, formal, false)
  }

  /** '{' and the body: the attributes in it, up to the closing '}'. */
  function AttributeClassBody(s: string, c: Cur, name: string, formals: seq<(string, bool)>): (r: (Cur, DeclResult<AttributeClassDecl>))
    requires Parked(s, c)
    ensures Parked(s, r.0) && r.0.index >= c.index
  {
    var v := Whitespace(s, c).0;
    if v.oos then (v, OutOfSpace(v.index, AttributeClassEof))
    else if CurrOf(s, v) != '{' then (v, Err("Unexpected Symbol", "expected '{' operator", v.index, v.index + 1))
    else if Inc(s, v).index >= |s| then (Inc(s, v), OutOfSpace(v.index + 1, AttributeClassEof))
    else
      var (u, attrs) := BodyLoop(s, Inc(s, v), []);
      (u, Ok(AttributeClassDecl(name, formals, attrs)))
  }

  /**
   * The body loop: attributes are parsed with their parameter texts stored,
   * and one that fails is reported and dropped; any other character is
   * stepped over; the loop stops on '}' (not consumed) or at the end.
   */
  function BodyLoop(s: string, c: Cur, acc: seq<AttributeDecl>): (r: (Cur, seq<AttributeDecl>))
    requires !c.oos && c.index < |s|
    ensures Parked(s, r.0) && r.0.index >= c.index
    decreases |s| - c.index
  {
    var (u, acc', stop) := BodyStep(s, c, acc);
    if stop || u.oos then (u, acc') else BodyLoop(s, u, acc')
  }

  /** One pass of the body loop; `stop` is set where the source breaks out. */
  function BodyStep(s: string, c: Cur, acc: seq<AttributeDecl>): (r: (Cur, seq<AttributeDecl>, bool))
    requires !c.oos && c.index < |s|
    ensures Parked(s, r.0) && r.0.index >= c.index
    ensures !r.2 && !r.0.oos ==> c.index < r.0.index < |s|
  {
    var w := Whitespace(s, c).0;
    if IsAttributeDeclaration(s, w.index) then
      var (u, a) := AttributeSpec(s, w, true);
      AttributeProgress(s, w, true);
      (u, if a.Ok? then acc + [a.value] else acc, false)
    else if CurrOf(s, w) == '}' then (w, acc, true)
    else if w.oos then (w, acc, true)
    else (Inc(s, w), acc, false)
  }

  /** `AttributeClassDeclaration::new`. */
  method NewAttributeClass(p: Parser) returns (r: DeclResult<AttributeClassDecl>)
    modifies p
    ensures (p.State(), r) == AttributeClassSpec(p.chars, old(p.State()))
  {
    var keyword, e := ParseAscii<AttributeClassDecl>(p, AttributeClassEof);
    if e.Some? {
      return e.value;
    }
    if keyword != "attribute" {
      return Err("Unexpected Keyword", "\"attribute\" keyword expected", p.index - |keyword|, p.index);
    }
    e := RequireWhitespace(p, AttributeClassEof);
    if e.Some? {
      return e.value;
    }
    r := ParseAttributeClassNamed(p);
  }

  /** From the class name on. */
  method ParseAttributeClassNamed(p: Parser) returns (r: DeclResult<AttributeClassDecl>)
    modifies p
    ensures (p.State(), r) == AttributeClassNamed(p.chars, old(p.State()))
  {
    var name, e := RequireAscii<AttributeClassDecl>(p, "Attribute Name Missing", "attribute name missing", AttributeClassEof);
    if e.Some? {
      return e.value;
    }
    r := ParseAttributeClassFormals(p, name);
  }

  /** The formals, when there are any, then the body. */
  method ParseAttributeClassFormals(p: Parser, name: string) returns (r: DeclResult<AttributeClassDecl>)
    modifies p
    ensures (p.State(), r) == AttributeClassFormals(p.chars, old(p.State()), name)
  {
    var e := SkipWhitespace<AttributeClassDecl>(p, AttributeClassEof);
    if e.Some? {
      return e.value;
    }
    var formals: seq<(string, bool)> := [];
    if p.Curr() == '(' {
      var _ := p.Increment();
      var fs := ParseFormals(p);
      if fs.Err? {
        return Err(fs.title, fs.msg, fs.start, fs.end);
      }
      formals := fs.value;
    }
    r := ParseAttributeClassBody(p, name, formals);
  }

  /** The formals loop of `AttributeClassDeclaration::new`. */
  method ParseFormals(p: Parser) returns (r: DeclResult<seq<(string, bool)>>)
    requires p.index <= |p.chars|
    modifies p
    ensures (p.State(), r) == FormalLoop(p.chars, old(p.State()))
  {
    var formals: seq<(string, bool)> := [];
    PrependAllEmpty(FormalLoop(p.chars, p.State()));
    while true
      invariant p.index <= |p.chars|
      invariant PrependAll(formals, FormalLoop(p.chars, p.State())) == FormalLoop(p.chars, old(p.State()))
      decreases |p.chars| - p.index
    {
      ghost var c := p.State();
      var formal, done, e := ParseFormal(p);
      if e.Some? {
        assert FormalLoop(p.chars, c) == (p.State(), e.value);
        return e.value;
      }
      if done {
        assert FormalLoop(p.chars, c) == (p.State(), Ok([formal]));
        return Ok(formals + [formal]);
      }
      assert FormalLoop(p.chars, c) == PrependAll([formal], FormalLoop(p.chars, p.State()));
      PrependAllTwice(formals, formal, FormalLoop(p.chars, p.State()));
      formals := formals + [formal];
    }
  }

  /** One step of the formals loop. */
  method ParseFormal(p: Parser) returns (formal: (string, bool), done: bool, r: Option<DeclResult<seq<(string, bool)>>>)
    modifies p
    ensures (p.State(), r, formal, done) == Formal(p.chars, old(p.State()))
  {
    var e := SkipWhitespace<seq<(string, bool)>>(p, AttributeClassEof);
    if e.Some? {
      return ("", false), false, e;
    }
    formal, done, r := ParseFormalName(p);
  }

  /** The formal's name, in brackets or not. */
  method ParseFormalName(p: Parser) returns (formal: (string, bool), done: bool, r: Option<DeclResult<seq<(string, bool)>>>)
    requires !p.outOfSpace && p.index < |p.chars|
    modifies p
    ensures (p.State(), r, formal, done) == FormalName(p.chars, old(p.State()))
  {
    var bracketed := p.Curr() == '[';
    if bracketed {
      var _ := p.Increment();
    }
    var name, e := RequireAscii<seq<(string, bool)>>(p, "Attribute Param Name Missing", "attribute parameter name missing", AttributeClassEof);
    if e.Some? {
      return ("", false), false, e;
    }
    formal := (name, bracketed);
    if bracketed {
      var next;
      next, e := RequireNextChar(p, ']', "expected ']' operator", AttributeClassEof);
      if e.Some? {
        return formal, false, e;
      }
    }
    done, r := ParseFormalEnd(p, formal);
  }

  /** After a formal: ')' or ','. */
  method ParseFormalEnd(p: Parser, formal: (string, bool)) returns (done: bool, r: Option<DeclResult<seq<(string, bool)>>>)
    modifies p
    ensures (p.State(), r, formal, done) == FormalEnd(p.chars, old(p.State()), formal)
  {
    ghost var m := p.State();
    var e := SkipWhitespace<seq<(string, bool)>>(p, AttributeClassEof);
    if e.Some? {
      return false, e;
    }
    ghost var v := p.State();
    assert v == Whitespace(p.chars, m).0 && !v.oos;
    if p.Curr() == ')' {
      var _ := p.Increment();
      return true, None;
    }
    var next;
    next, e := RequireNextChar(p, ',', "expected ',' operator", AttributeClassEof);
    return false, e;
  }

  /** '{' and the body. */
  method ParseAttributeClassBody(p: Parser, name: string, formals: seq<(string, bool)>) returns (r: DeclResult<AttributeClassDecl>)
    requires p.Parked()
    modifies p
    ensures (p.State(), r) == AttributeClassBody(p.chars, old(p.State()), name, formals)
  {
    ghost var v := Whitespace(p.chars, p.State()).0;
    var e := SkipWhitespace<AttributeClassDecl>(p, AttributeClassEof);
    if e.Some? {
      return e.value;
    }
    assert p.State() == v && !v.oos;
    var next;
    next, e := RequireNextChar(p, '{', "expected '{' operator", AttributeClassEof);
    if e.Some? {
      return e.value;
    }
    assert p.State() == Inc(p.chars, v) && Inc(p.chars, v).index < |p.chars|;
    var attrs := ParseBody(p);
    return Ok(AttributeClassDecl(name, formals, attrs));
  }

  /** The body loop of `AttributeClassDeclaration::new`. */
  method ParseBody(p: Parser) returns (attrs: seq<AttributeDecl>)
    requires !p.outOfSpace && p.index < |p.chars|
    modifies p
    ensures (p.State(), attrs) == BodyLoop(p.chars, old(p.State()), [])
  {
    attrs := [];
    while true
      invariant !p.outOfSpace && p.index < |p.chars|
      invariant BodyLoop(p.chars, p.State(), attrs) == BodyLoop(p.chars, old(p.State()), [])
      decreases |p.chars| - p.index
    {
      ghost var c := p.State();
      ghost var acc := attrs;
      var stop;
      attrs, stop := ParseBodyStep(p, attrs);
      if stop || p.outOfSpace {
        BodyLoopStops(p.chars, c, acc);
        return;
      }
      BodyLoopGoesOn(p.chars, c, acc);
    }
  }

  lemma BodyLoopStops(s: string, c: Cur, acc: seq<AttributeDecl>)
    requires !c.oos && c.index < |s|
    requires BodyStep(s, c, acc).2 || BodyStep(s, c, acc).0.oos
    ensures BodyLoop(s, c, acc) == (BodyStep(s, c, acc).0, BodyStep(s, c, acc).1)
  {
  }

  lemma BodyLoopGoesOn(s: string, c: Cur, acc: seq<AttributeDecl>)
    requires !c.oos && c.index < |s|
    requires !BodyStep(s, c, acc).2 && !BodyStep(s, c, acc).0.oos
    ensures BodyLoop(s, c, acc) == BodyLoop(s, BodyStep(s, c, acc).0, BodyStep(s, c, acc).1)
  {
  }

  /** One pass of the body loop. */
  method ParseBodyStep(p: Parser, acc: seq<AttributeDecl>) returns (attrs: seq<AttributeDecl>, stop: bool)
    requires !p.outOfSpace && p.index < |p.chars|
    modifies p
    ensures (p.State(), attrs, stop) == BodyStep(p.chars, old(p.State()), acc)
  {
    attrs := acc;
    var _ := p.ParseWhitespace();
    var initialIndex := p.index;
    if IsAttributeDeclaration(p.chars, p.index) {
      var a := NewAttribute(p, true);
      if a.Ok? {
        attrs := attrs + [a.value];
      }
      return attrs, false;
    }
    if p.Curr() == '}' {
      return attrs, true;
    }
    if !p.outOfSpace {
      var _ := p.Increment();
    }
    return attrs, p.index == initialIndex;
  }

  // ----- binding arguments to formals -----

  /**
   * The arguments of a use, bound to `n` formals: the i-th argument to the
   * i-th formal, surplus arguments to the last formal, and nothing at all
   * when there are no formals.
   */
  function BoundArgs(args: seq<string>, n: nat): (r: seq<seq<string>>)
  {
    if |args| <= n then Singletons(args, |args|)
    else if n == 0 then []
    else Singletons(args, n - 1) + [args[n - 1..]]
  }

  /** The first `k` arguments, one per group. */
  function Singletons(args: seq<string>, k: nat): (r: seq<seq<string>>)
    requires k <= |args|
    ensures |r| == k && forall i :: 0 <= i < k ==> r[i] == [args[i]]
  {
    seq(k, i requires 0 <= i < k && i < |args| => [args[i]])
  }

  /** The groups laid end to end. */
  function Concat(groups: seq<seq<string>>): seq<string> {
    if |groups| == 0 then [] else Concat(groups[..|groups| - 1]) + groups[|groups| - 1]
  }

  lemma {:induction false} ConcatSingletons(args: seq<string>, k: nat)
    requires k <= |args|
    ensures Concat(Singletons(args, k)) == args[..k]
  {
    if k > 0 {
      assert Singletons(args, k)[..k - 1] == Singletons(args, k - 1);
      ConcatSingletons(args, k - 1);
      assert args[..k] == args[..k - 1] + [args[k - 1]];
    }
  }

  /**
   * With at least one formal no argument is lost or reordered: the groups
   * laid end to end are the arguments. There are as many groups as formals
   * or arguments, whichever is fewer, and every group but the last holds
   * exactly one argument.
   */
  lemma BoundArgsMeaning(args: seq<string>, n: nat)
    ensures n == 0 ==> BoundArgs(args, n) == []
    ensures n > 0 ==> Concat(BoundArgs(args, n)) == args
    ensures |BoundArgs(args, n)| == if |args| <= n then |args| else n
    ensures forall i :: 0 <= i < |BoundArgs(args, n)| - 1 ==> BoundArgs(args, n)[i] == [args[i]]
  {
    var r := BoundArgs(args, n);
    if |args| <= n {
      ConcatSingletons(args, |args|);
      assert args[..|args|] == args;
    } else if n > 0 {
      ConcatSingletons(args, n - 1);
      assert r[..|r| - 1] == Singletons(args, n - 1);
      assert args == args[..n - 1] + args[n - 1..];
    }
  }

  /** Binding one more argument: a new group while formals remain, otherwise onto the last group. */
  lemma BoundArgsStep(args: seq<string>, x: string, n: nat)
    ensures BoundArgs(args + [x], n) ==
      if |args| < n then BoundArgs(args, n) + [[x]]
      else if n == 0 then []
      else BoundArgs(args, n)[..n - 1] + [BoundArgs(args, n)[n - 1] + [x]]
  {
    var a := args + [x];
    if |args| < n {
      assert BoundArgs(a, n) == BoundArgs(args, n) + [[x]];
    } else if n > 0 {
      assert a[n - 1..] == args[n - 1..] + [x];
      if |args| == n {
        assert BoundArgs(args, n)[n - 1] == [args[n - 1]] == args[n - 1..];
      }
      assert BoundArgs(a, n)[..n - 1] == BoundArgs(args, n)[..n - 1];
    }
  }

  /** One pass of the argument loop, in the terms the loop sees: the groups built so far. */
  lemma BindStep(prefix: seq<string>, x: string, n: nat, groups: seq<seq<string>>)
    requires groups == BoundArgs(prefix, n)
    ensures BoundArgs(prefix + [x], n) ==
      if |prefix| < n then groups + [[x]]
      else if groups != [] then groups[..|groups| - 1] + [groups[|groups| - 1] + [x]]
      else groups
  {
    BoundArgsStep(prefix, x, n);
    if |prefix| >= n && n > 0 {
      assert |groups| == n;
    }
  }

  /** The first loop of `output_new_attributes`, over the use's arguments. */
  method BindArguments(args: seq<string>, n: nat) returns (groups: seq<seq<string>>)
    ensures groups == BoundArgs(args, n)
  {
    groups := [];
    for i := 0 to |args|
      invariant groups == BoundArgs(args[..i], n)
    {
      ghost var prefix := args[..i];
      BindStep(prefix, args[i], n, groups);
      if i < n {
        groups := groups + [[args[i]]];
      } else if groups != [] {
        groups := groups[..|groups| - 1] + [groups[|groups| - 1] + [args[i]]];
      }
      assert args[..i + 1] == prefix + [args[i]];
    }
    assert args[..|args|] == args;
  }

  // ----- substituting into one template parameter -----

  /** The arguments of one formal, each trimmed unless the formal was bracketed. */
  function Trimmed(args: seq<string>, trim: bool): (r: seq<string>)
    ensures |r| == |args|
    ensures !trim ==> r == args
  {
    seq(|args|, i requires 0 <= i < |args| => if trim then Trim(args[i]) else args[i])
  }

  /** The text that replaces "[name]": the arguments joined with ",", trimmed unless the formal was bracketed. */
  function Filler(group: seq<string>, trim: bool): (r: string)
    ensures !trim ==> r == Join(group, ",")
    ensures trim ==> r == Trim(Join(group, ","))
  {
    var joined := Join(group, ",");
    if trim then Trim(joined) else joined
  }

  /**
   * The inner loop over the formals (stopping once they or the groups run
   * out): a parameter equal to a formal's name contributes that formal's
   * arguments; otherwise each "[name]" in it is replaced by the arguments
   * joined with ",". Returns the final parameter text and the contributed
   * arguments.
   */
  function Substitute(p: string, formals: seq<(string, bool)>, groups: seq<seq<string>>, j: nat, pushed: seq<string>): (r: (string, seq<string>))
    decreases |formals| - j
  {
    if j >= |formals| || j >= |groups| then (p, pushed)
    else
      var trim := !formals[j].1;
      if p == formals[j].0 then Substitute(p, formals, groups, j + 1, pushed + Trimmed(groups[j], trim))
      else
        var search := "[" + formals[j].0 + "]";
        if Contains(p, search) then Substitute(ReplaceAll(p, search, Filler(groups[j], trim)), formals, groups, j + 1, pushed)
        else Substitute(p, formals, groups, j + 1, pushed)
  }

  /** A text with no '[' holds no "[name]". */
  lemma NoBracketNoSearch(p: string, name: string)
    requires '[' !in p
    ensures !Contains(p, "[" + name + "]")
  {
    forall i | 0 <= i <= |p| ensures !OccursAt(p, "[" + name + "]", i) {
      if i + |name| + 2 <= |p| {
        assert p[i..i + |name| + 2][0] == p[i];
      }
    }
  }

  /**
   * A parameter with no '[' in it is never rewritten, and it contributes
   * the (possibly trimmed) arguments of exactly the formals it names.
   */
  lemma {:induction false} SubstituteName(p: string, formals: seq<(string, bool)>, groups: seq<seq<string>>, j: nat, pushed: seq<string>)
    requires '[' !in p
    requires j <= |formals|
    requires forall k :: j <= k < |formals| && k < |groups| ==> p != formals[k].0
    ensures Substitute(p, formals, groups, j, pushed) == (p, pushed)
    decreases |formals| - j
  {
    if j < |formals| && j < |groups| {
      NoBracketNoSearch(p, formals[j].0);
      SubstituteName(p, formals, groups, j + 1, pushed);
    }
  }

  /**
   * A parameter equal to the name of one formal, with distinct formal
   * names, contributes that formal's arguments and is itself kept.
   */
  lemma ExactFormalContributes(formals: seq<(string, bool)>, groups: seq<seq<string>>, j0: nat)
    requires j0 < |formals| && j0 < |groups|
    requires '[' !in formals[j0].0
    requires forall a, b :: 0 <= a < b < |formals| ==> formals[a].0 != formals[b].0
    ensures Substitute(formals[j0].0, formals, groups, 0, []) == (formals[j0].0, Trimmed(groups[j0], !formals[j0].1))
  {
    var p := formals[j0].0;
    SubstituteBefore(p, formals, groups, 0, j0);
    SubstituteName(p, formals, groups, j0 + 1, [] + Trimmed(groups[j0], !formals[j0].1));
    assert [] + Trimmed(groups[j0], !formals[j0].1) == Trimmed(groups[j0], !formals[j0].1);
  }

  lemma {:induction false} SubstituteBefore(p: string, formals: seq<(string, bool)>, groups: seq<seq<string>>, j: nat, j0: nat)
    requires j <= j0 < |formals| && j0 < |groups|
    requires '[' !in p
    requires forall k :: j <= k < j0 ==> p != formals[k].0
    ensures Substitute(p, formals, groups, j, []) == Substitute(p, formals, groups, j0, [])
    decreases j0 - j
  {
    if j < j0 {
      NoBracketNoSearch(p, formals[j].0);
      SubstituteBefore(p, formals, groups, j + 1, j0);
    }
  }

  /** How many formals the inner loop visits: it stops once the formals or the groups run out. */
  function Visited(formals: seq<(string, bool)>, groups: seq<seq<string>>): (n: nat)
    ensures n <= |formals| && n <= |groups|
    ensures n == |formals| || n == |groups|
  {
    if |formals| <= |groups| then |formals| else |groups|
  }

  /** Every "[name]" of formal `j` replaced by that formal's filler. */
  function RewriteAt(q: string, formals: seq<(string, bool)>, groups: seq<seq<string>>, j: nat): string
    requires j < Visited(formals, groups)
  {
    ReplaceAll(q, "[" + formals[j].0 + "]", Filler(groups[j], !formals[j].1))
  }

  /**
   * The reference for a parameter that names no formal: from formal `j`
   * on, each visited formal's "[name]" replaced by its filler, formal by
   * formal in order.
   */
  function Rewritten(q: string, formals: seq<(string, bool)>, groups: seq<seq<string>>, j: nat): string
    decreases |formals| - j
  {
    if j >= Visited(formals, groups) then q
    else Rewritten(RewriteAt(q, formals, groups, j), formals, groups, j + 1)
  }

  /** At no visited formal from `j` on is the text, as rewritten so far, that formal's name. */
  predicate NamesNone(q: string, formals: seq<(string, bool)>, groups: seq<seq<string>>, j: nat)
    decreases |formals| - j
  {
    j >= Visited(formals, groups) || (q != formals[j].0 && NamesNone(RewriteAt(q, formals, groups, j), formals, groups, j + 1))
  }

  /** One visited formal whose name the text is not: its "[name]" is replaced (a no-op when absent). */
  lemma SubstituteRewriteStep(q: string, formals: seq<(string, bool)>, groups: seq<seq<string>>, j: nat)
    requires j < Visited(formals, groups) && q != formals[j].0
    ensures Substitute(q, formals, groups, j, []) == Substitute(RewriteAt(q, formals, groups, j), formals, groups, j + 1, [])
  {
    var search := "[" + formals[j].0 + "]";
    if !Contains(q, search) {
      assert RewriteAt(q, formals, groups, j) == q;
    }
  }

  /**
   * A parameter that no visited formal's name equals, before or after the
   * earlier replacements, contributes no arguments: each formal's "[name]"
   * is replaced by its filler, formal by formal in order, and the
   * rewritten text is the parameter's whole contribution.
   */
  lemma {:induction false} SubstituteRewrites(q: string, formals: seq<(string, bool)>, groups: seq<seq<string>>, j: nat)
    requires NamesNone(q, formals, groups, j)
    ensures Substitute(q, formals, groups, j, []) == (Rewritten(q, formals, groups, j), [])
    ensures j == 0 ==> Contribution(q, formals, groups) == [Rewritten(q, formals, groups, 0)]
    decreases |formals| - j
  {
    if j < Visited(formals, groups) {
      SubstituteRewriteStep(q, formals, groups, j);
      SubstituteRewrites(RewriteAt(q, formals, groups, j), formals, groups, j + 1);
    }
  }

  /** With one formal, a parameter other than its name has every "[name]" replaced by the filler. */
  lemma OneFormalSubstitution(p: string, name: string, bracketed: bool, group: seq<string>)
    requires p != name
    ensures Substitute(p, [(name, bracketed)], [group], 0, []) == (ReplaceAll(p, "[" + name + "]", Filler(group, !bracketed)), [])
  {
    var formals, groups := [(name, bracketed)], [group];
    assert Visited(formals, groups) == 1;
    var q := RewriteAt(p, formals, groups, 0);
    assert NamesNone(q, formals, groups, 1) && Rewritten(q, formals, groups, 1) == q;
    assert NamesNone(p, formals, groups, 0) && Rewritten(p, formals, groups, 0) == q;
    SubstituteRewrites(p, formals, groups, 0);
  }

  /**
   * With one formal, the text before the first "[name]" is kept, that
   * "[name]" becomes the filler, and the rest is rewritten the same way.
   */
  lemma FirstBracketReplaced(a: string, name: string, rest: string, bracketed: bool, group: seq<string>)
    requires forall i :: 0 <= i < |a| ==> !OccursAt(a + "[" + name + "]" + rest, "[" + name + "]", i)
    ensures Substitute(a + "[" + name + "]" + rest, [(name, bracketed)], [group], 0, []).0 ==
      a + Filler(group, !bracketed) + ReplaceAll(rest, "[" + name + "]", Filler(group, !bracketed))
  {
    var p := a + "[" + name + "]" + rest;
    assert p == a + ("[" + name + "]") + rest;
    assert |p| > |name|;
    OneFormalSubstitution(p, name, bracketed, group);
    ReplaceAllFirst(a, "[" + name + "]", rest, Filler(group, !bracketed));
  }

  /** The inner loop of `output_new_attributes` over the formals, for one template parameter. */
  method SubstituteParam(p: string, formals: seq<(string, bool)>, groups: seq<seq<string>>) returns (q: string, pushed: seq<string>)
    ensures (q, pushed) == Substitute(p, formals, groups, 0, [])
  {
    q, pushed := p, [];
    var j := 0;
    while j < |formals|
      invariant 0 <= j <= |formals|
      invariant Substitute(q, formals, groups, j, pushed) == Substitute(p, formals, groups, 0, [])
    {
      if j >= |groups| {
        break;
      }
      var trim := !formals[j].1;
      if q == formals[j].0 {
        pushed := pushed + Trimmed(groups[j], trim);
      } else {
        var search := "[" + formals[j].0 + "]";
        if Contains(q, search) {
          var joined := Join(groups[j], ",");
          q := ReplaceAll(q, search, if trim then Trim(joined) else joined);
        }
      }
      j := j + 1;
    }
  }

  // ----- expanding a use of an attribute class -----

  /** What one template parameter becomes: the contributed arguments, then the rewritten parameter. */
  function Contribution(p: string, formals: seq<(string, bool)>, groups: seq<seq<string>>): (r: seq<string>)
  {
    var (q, pushed) := Substitute(p, formals, groups, 0, []);
    pushed + [q]
  }

  /** The contributions of a template attribute's parameters, in order. */
  function Expansion(texts: seq<string>, formals: seq<(string, bool)>, groups: seq<seq<string>>): (r: seq<string>)
  {
    if |texts| == 0 then []
    else Expansion(texts[..|texts| - 1], formals, groups) + Contribution(texts[|texts| - 1], formals, groups)
  }

  /** Texts as stored parameters. */
  function Stored(texts: seq<string>): (r: seq<Param>)
    ensures |r| == |texts| && forall i :: 0 <= i < |r| ==> r[i] == Right(texts[i])
  {
    seq(|texts|, i requires 0 <= i < |texts| => Right(texts[i]))
  }

  /** A template attribute with its parameters replaced by their expansion. */
  function Instantiate(a: AttributeDecl, formals: seq<(string, bool)>, groups: seq<seq<string>>, content: string): AttributeDecl
    requires ParamsWithin(a, content)
  {
    a.(parameters := Some(Stored(Expansion(ParamTexts(a, content), formals, groups))))
  }

  /** Every template attribute's parameters can be read from `content`. */
  predicate TemplatesWithin(cls: AttributeClassDecl, content: string) {
    forall i :: 0 <= i < |cls.attributes| ==> ParamsWithin(cls.attributes[i], content)
  }

  /**
   * What `output_new_attributes` produces for a use `attribute` of class
   * `cls`: each template attribute, in order, instantiated with the use's
   * arguments bound to the class's formals.
   */
  function NewAttributes(cls: AttributeClassDecl, attribute: AttributeDecl, content: string): seq<AttributeDecl>
    requires ParamsWithin(attribute, content) && TemplatesWithin(cls, content)
  {
    var groups := BoundArgs(ParamTexts(attribute, content), |cls.arguments|);
    seq(|cls.attributes|, i requires 0 <= i < |cls.attributes| && TemplatesWithin(cls, content) =>
      Instantiate(cls.attributes[i], cls.arguments, groups, content))
  }

  /** `output_new_attributes`. */
  method OutputNewAttributes(cls: AttributeClassDecl, attribute: AttributeDecl, content: string) returns (result: seq<AttributeDecl>)
    requires ParamsWithin(attribute, content) && TemplatesWithin(cls, content)
    ensures result == NewAttributes(cls, attribute, content)
  {
    var args := ParamTexts(attribute, content);
    var groups := BindArguments(args, |cls.arguments|);
    result := [];
    var k := 0;
    while k < |cls.attributes|
      invariant 0 <= k <= |cls.attributes|
      invariant result == NewAttributes(cls, attribute, content)[..k]
    {
      var a := cls.attributes[k];
      var params: seq<string> := [];
      var i := 0;
      while i < ParamsLength(a)
        invariant 0 <= i <= ParamsLength(a)
        invariant params == Expansion(ParamTexts(a, content)[..i], cls.arguments, groups)
      {
        var q, pushed := SubstituteParam(GetParam(a, i, content), cls.arguments, groups);
        assert ParamTexts(a, content)[..i + 1][..i] == ParamTexts(a, content)[..i];
        params := params + pushed + [q];
        i := i + 1;
      }
      assert ParamTexts(a, content)[..i] == ParamTexts(a, content);
      result := result + [a.(parameters := Some(Stored(params)))];
      k := k + 1;
    }
  }

  // ----- what an expansion keeps and what it contributes -----

  /**
   * The expansion has one attribute per template attribute, in order, with
   * the template's name and line; every parameter is stored text, and there
   * are at least as many as the template had.
   */
  lemma ExpansionKeepsTemplates(cls: AttributeClassDecl, attribute: AttributeDecl, content: string)
    requires ParamsWithin(attribute, content) && TemplatesWithin(cls, content)
    ensures |NewAttributes(cls, attribute, content)| == |cls.attributes|
    ensures forall i :: 0 <= i < |cls.attributes| ==>
      var a := NewAttributes(cls, attribute, content)[i];
      a.name == cls.attributes[i].name && a.line == cls.attributes[i].line && a.parameters.Some? &&
      ParamsLength(a) >= ParamsLength(cls.attributes[i]) &&
      forall k :: 0 <= k < |a.parameters.value| ==> a.parameters.value[k].Right?
  {
    var groups := BoundArgs(ParamTexts(attribute, content), |cls.arguments|);
    forall i | 0 <= i < |cls.attributes|
      ensures |Expansion(ParamTexts(cls.attributes[i], content), cls.arguments, groups)| >= ParamsLength(cls.attributes[i])
    {
      ExpansionLength(ParamTexts(cls.attributes[i], content), cls.arguments, groups);
    }
  }

  /** Every template parameter contributes at least its own (rewritten) text. */
  lemma {:induction false} ExpansionLength(texts: seq<string>, formals: seq<(string, bool)>, groups: seq<seq<string>>)
    ensures |Expansion(texts, formals, groups)| >= |texts|
  {
    if |texts| > 0 {
      ExpansionLength(texts[..|texts| - 1], formals, groups);
    }
  }

  /** Expanding parameters one after another is expanding them all at once. */
  lemma {:induction false} ExpansionAppend(xs: seq<string>, ys: seq<string>, formals: seq<(string, bool)>, groups: seq<seq<string>>)
    ensures Expansion(xs + ys, formals, groups) == Expansion(xs, formals, groups) + Expansion(ys, formals, groups)
    decreases |ys|
  {
    if |ys| > 0 {
      assert (xs + ys)[..|xs + ys| - 1] == xs + ys[..|ys| - 1];
      ExpansionAppend(xs, ys[..|ys| - 1], formals, groups);
    } else {
      assert xs + ys == xs;
    }
  }

  /**
   * A template parameter with no '[' that names no formal is kept as it is,
   * and one that names a formal (formal names being distinct) contributes
   * that formal's arguments, trimmed unless the formal was bracketed,
   * followed by the formal's name itself.
   */
  lemma ContributionOfName(p: string, formals: seq<(string, bool)>, groups: seq<seq<string>>)
    requires '[' !in p
    requires forall a, b :: 0 <= a < b < |formals| ==> formals[a].0 != formals[b].0
    ensures (forall k :: 0 <= k < |formals| ==> p != formals[k].0) ==> Contribution(p, formals, groups) == [p]
    ensures forall j0 :: 0 <= j0 < |formals| && j0 < |groups| && p == formals[j0].0 ==>
      Contribution(p, formals, groups) == Trimmed(groups[j0], !formals[j0].1) + [p]
  {
    if forall k :: 0 <= k < |formals| ==> p != formals[k].0 {
      SubstituteName(p, formals, groups, 0, []);
    }
    forall j0 | 0 <= j0 < |formals| && j0 < |groups| && p == formals[j0].0
      ensures Contribution(p, formals, groups) == Trimmed(groups[j0], !formals[j0].1) + [p]
    {
      ExactFormalContributes(formals, groups, j0);
    }
  }

  // ----- templates are stored text -----

  /** Every template attribute of the class holds only stored text. */
  predicate StoredTemplates(cls: AttributeClassDecl) {
    forall i :: 0 <= i < |cls.attributes| ==> StoredOnly(cls.attributes[i])
  }

  /** Stored templates can be read against the content of any file that uses the class. */
  lemma StoredTemplatesWithin(cls: AttributeClassDecl, content: string)
    requires StoredTemplates(cls)
    ensures TemplatesWithin(cls, content)
  {
  }

  /** The attributes kept so far hold only stored text. */
  predicate AllStored(ds: seq<AttributeDecl>) {
    forall i :: 0 <= i < |ds| ==> StoredOnly(ds[i])
  }

  lemma BodyStepStores(s: string, c: Cur, acc: seq<AttributeDecl>)
    requires !c.oos && c.index < |s| && AllStored(acc)
    ensures AllStored(BodyStep(s, c, acc).1)
  {
    var w := Whitespace(s, c).0;
    if IsAttributeDeclaration(s, w.index) {
      AttributeStores(s, w);
    }
  }

  /** The body loop only adds attributes parsed with their parameters stored. */
  lemma {:induction false} BodyLoopStores(s: string, c: Cur, acc: seq<AttributeDecl>)
    requires !c.oos && c.index < |s| && AllStored(acc)
    ensures AllStored(BodyLoop(s, c, acc).1)
    decreases |s| - c.index
  {
    var (u, acc', stop) := BodyStep(s, c, acc);
    BodyStepStores(s, c, acc);
    if stop || u.oos {
      BodyLoopStops(s, c, acc);
    } else {
      BodyLoopGoesOn(s, c, acc);
      BodyLoopStores(s, u, acc');
    }
  }

  lemma BodyStored(s: string, c: Cur, name: string, formals: seq<(string, bool)>)
    requires Parked(s, c)
    ensures AttributeClassBody(s, c, name, formals).1.Ok? ==> StoredTemplates(AttributeClassBody(s, c, name, formals).1.value)
  {
    var v := Whitespace(s, c).0;
    if !v.oos && CurrOf(s, v) == '{' && Inc(s, v).index < |s| {
      BodyLoopStores(s, Inc(s, v), []);
    }
  }

  lemma FormalsStored(s: string, n: Cur, name: string)
    ensures AttributeClassFormals(s, n, name).1.Ok? ==> StoredTemplates(AttributeClassFormals(s, n, name).1.value)
  {
    var v := Whitespace(s, n).0;
    if !v.oos {
      if CurrOf(s, v) != '(' {
        BodyStored(s, v, name, []);
      } else {
        var (f, formals) := FormalLoop(s, Inc(s, v));
        if formals.Ok? {
          BodyStored(s, f, name, formals.value);
        }
      }
    }
  }

  /**
   * A parsed attribute class keeps its templates as stored text, which is
   * what lets a use in another file expand them.
   */
  lemma ParsedTemplatesStored(s: string, c: Cur)
    ensures AttributeClassSpec(s, c).1.Ok? ==> StoredTemplates(AttributeClassSpec(s, c).1.value)
  {
    var (a, kw) := AsciiName(s, c);
    var w := Whitespace(s, a).0;
    var (n, name) := AsciiName(s, w);
    FormalsStored(s, n, name);
  }
}
