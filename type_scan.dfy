// The reference semantics of `parse_type` and `parse_type_and_style`
// (src/declaration_parser/parser.rs:542-816) over cursor positions. The
// `Parser` class is proved to produce exactly these results.

module TypeScan {
  import opened Wrappers
  import opened Scan
  import opened ValueTypes
  import opened VariableTypes

  /** The two out-flags the type parser threads through every call. */
  datatype Flags = Flags(unexpected: bool, conflict: Option<string>)

  /** What `parse_type` leaves behind: the cursor, the type and the flags. */
  datatype Parsed = Parsed(cur: Cur, t: Type, flags: Flags)

  /** What `parse_type_and_style` leaves behind; `optional` is a trailing '?'. */
  datatype Styled = Styled(cur: Cur, style: VarStyle, t: Type, optional: bool, flags: Flags)

  const SignConflict: string := "\"signed\" and \"unsigned\" specifiers conflict"
  const LongOnChar: string := "cannot use \"long\" specifier on \"char\""
  const LongOnShort: string := "cannot use \"long\" specifier on \"short\""
  const LongOnInt: string := "cannot use \"long\" specifier on \"int\""
  const LongOnFloat: string := "cannot use \"long\" specifier on \"float\""
  const UnsignedOnFloat: string := "cannot use \"unsigned\" specifier on \"float\""
  const LongOnName: string := "cannot use \"long\" specifier on this type"
  const SignOnName: string := "cannot use sign-able specifier on this type"

  /** The words the name loop gives a meaning of its own. */
  const Keywords: set<string> := {"unsigned", "signed", "long", "char", "short", "int", "float", "double", "bool", "text", "void"}

  /** The characters left before the end of the text; 0 at or past the end. */
  function Left(s: string, c: Cur): nat {
    if c.index >= |s| then 0 else |s| - c.index
  }

  function Conflict(f: Flags, msg: string): Flags {
    Flags(f.unexpected, Some(msg))
  }

  /** The signed number type unless "unsigned" was read. */
  function Signed(unsigned: Option<bool>, signed: NumberType, unsignedType: NumberType): NumberType {
    if unsigned.None? || !unsigned.value then signed else unsignedType
  }

  /** The flags only ever gain information: a set flag stays set. */
  predicate Grows(f: Flags, g: Flags) {
    (f.unexpected ==> g.unexpected) && (f.conflict.Some? ==> g.conflict.Some?)
  }

  /** The kinds of type `parse_type` can produce. */
  predicate Produced(t: Type) {
    match t
    case Inferred => true
    case Void => true
    case Boolean => true
    case Number(_) => true
    case String(st) => st == ConstCharArray
    case Tuple(_) => true
    case Undeclared(names) => |names| > 0
    case UndeclaredWParams(names, _) => |names| > 0
    case _ => false
  }

  /** `parse_type`. */
  function PType(s: string, c: Cur, f: Flags): (r: Parsed)
    ensures r.cur.index >= c.index && r.cur.line >= c.line && Parked(s, r.cur)
    ensures Grows(f, r.flags) && Produced(r.t)
    decreases Left(s, c), 4
  {
    if c.index >= |s| then Parsed(ForEnd(s, c), Inferred, f)
    else if CurrOf(s, c) == '(' then
      var n := Inc(s, c);
      var w := Whitespace(s, n).0;
      if CurrOf(s, w) == ')' then Parsed(Inc(s, w), Void, f)
      else TupleLoop(s, w, [], f)
    else NameLoop(s, c, None, false, f)
  }

  /** The loop over the elements of a parenthesised tuple type. */
  function TupleLoop(s: string, c: Cur, acc: seq<Type>, f: Flags): (r: Parsed)
    requires Parked(s, c)
    ensures r.cur.index >= c.index && r.cur.line >= c.line && Parked(s, r.cur)
    ensures Grows(f, r.flags) && (r.t.Inferred? || r.t.Tuple?)
    decreases Left(s, c), 6
  {
    var st := PTypeStyle(s, c, f);
    var elems := acc + [st.t];
    if st.cur.oos || st.flags.unexpected then Parsed(st.cur, Inferred, st.flags)
    else if CurrOf(s, st.cur) == ')' then Parsed(Inc(s, st.cur), Tuple(elems), st.flags)
    else
      var n := if CurrOf(s, st.cur) == ',' then Inc(s, st.cur) else st.cur;
      if n.index == c.index then Parsed(n, Inferred, st.flags)
      else TupleLoop(s, n, elems, st.flags)
  }

  /** The loop over the words of a type: sign and length specifiers, then a keyword or a name. */
  function NameLoop(s: string, c: Cur, unsigned: Option<bool>, long: bool, f: Flags): (r: Parsed)
    ensures r.cur.index >= c.index && r.cur.line >= c.line && Parked(s, r.cur)
    ensures Grows(f, r.flags) && Produced(r.t)
    decreases Left(s, c), 3
  {
    var (a, name) := AsciiName(s, c);
    if a.oos then Parsed(a, Inferred, f)
    else if name == "unsigned" || name == "signed" then
      if unsigned.Some? then Parsed(a, Inferred, Conflict(f, SignConflict))
      else NameLoop(s, Whitespace(s, a).0, Some(name == "unsigned"), long, f)
    else if name == "long" then
      var w := Whitespace(s, a).0;
      if Ahead(s, w.index, "long") then Parsed(w, Type.Number(Signed(unsigned, LongLong, ULongLong)), f)
      else if Ahead(s, w.index, "=") || Ahead(s, w.index, ",") then Parsed(w, Type.Number(Signed(unsigned, Long, ULong)), f)
      else NameLoop(s, Whitespace(s, w).0, unsigned, true, f)
    else
      match Primitive(name, unsigned, long, f)
      case Some((t, g)) => Parsed(a, t, g)
      case None =>
        var f1 := if long then Conflict(f, LongOnName) else f;
        var f2 := if unsigned.Some? then Conflict(f1, SignOnName) else f1;
        ChainLoop(s, a, [name], f2)
  }

  /**
   * The type a primitive keyword names after the sign and length
   * specifiers read before it, with the conflict it reports.
   */
  function Primitive(name: string, unsigned: Option<bool>, long: bool, f: Flags): (r: Option<(Type, Flags)>)
    ensures r.None? <==> name !in {"char", "short", "int", "float", "double", "bool", "text", "void"}
    ensures r.Some? ==> Produced(r.value.0) && Grows(f, r.value.1)
    ensures r.Some? && !long && unsigned.None? ==> r.value.1 == f
  {
    if name == "char" then
      Some((Type.Number(Signed(unsigned, Byte, UByte)), if long then Conflict(f, LongOnChar) else f))
    else if name == "short" then
      Some((Type.Number(Signed(unsigned, Short, UShort)), if long then Conflict(f, LongOnShort) else f))
    else if name == "int" then
      Some((Type.Number(Signed(unsigned, Int, UInt)), if long then Conflict(f, LongOnInt) else f))
    else if name == "float" then
      var f1 := if long then Conflict(f, LongOnFloat) else f;
      Some((Type.Number(Float), if unsigned.UnwrapOr(false) then Conflict(f1, UnsignedOnFloat) else f1))
    else if name == "double" then
      Some((Type.Number(if long then LongDouble else Double), if unsigned.UnwrapOr(false) then Conflict(f, UnsignedOnFloat) else f))
    else if name == "bool" then Some((Type.Boolean, f))
    else if name == "text" then Some((Type.String(ConstCharArray), f))
    else if name == "void" then Some((Void, f))
    else None
  }

  /** The loop over further names after "::" or ".". */
  function ChainLoop(s: string, c: Cur, chain: seq<string>, f: Flags): (r: Parsed)
    requires |chain| > 0
    ensures r.cur.index >= c.index && r.cur.line >= c.line && Parked(s, r.cur)
    ensures Grows(f, r.flags) && Produced(r.t)
    decreases Left(s, c), 2
  {
    var w := Whitespace(s, c).0;
    var sep := if Ahead(s, w.index, "::") then 2 else if Ahead(s, w.index, ".") then 1 else 0;
    if sep == 0 then AfterName(s, w, chain, f)
    else ChainName(s, Cur(w.index + sep, w.line, w.oos), chain, f)
  }

  /** The name read at `n`, just past a separator, then the rest of the chain. */
  function ChainName(s: string, n: Cur, chain: seq<string>, f: Flags): (r: Parsed)
    requires |chain| > 0
    ensures r.cur.index >= n.index && r.cur.line >= n.line && Parked(s, r.cur)
    ensures Grows(f, r.flags) && Produced(r.t)
    decreases Left(s, n), 3
  {
    var (a, name) := AsciiName(s, n);
    if a.oos then Parsed(a, Inferred, f)
    else ChainLoop(s, a, chain + [name], f)
  }

  /** The chain loop reads a name at `n`, after the separator that follows the whitespace ending at `w`. */
  lemma ChainMore(s: string, c: Cur, w: Cur, n: Cur, chain: seq<string>, f: Flags)
    requires |chain| > 0 && w == Whitespace(s, c).0
    requires if Ahead(s, w.index, "::") then n == Cur(w.index + 2, w.line, w.oos)
             else Ahead(s, w.index, ".") && n == Cur(w.index + 1, w.line, w.oos)
    ensures ChainLoop(s, c, chain, f) == ChainName(s, n, chain, f)
  {
    var sep := if Ahead(s, w.index, "::") then 2 else 1;
    assert n == Cur(w.index + sep, w.line, w.oos);
  }

  /** After the name chain: nothing, a `<...>` or `@(...)` parameter list, or `@` and one parameter. */
  function AfterName(s: string, c: Cur, chain: seq<string>, f: Flags): (r: Parsed)
    requires |chain| > 0
    ensures r.cur.index >= c.index && r.cur.line >= c.line && Parked(s, r.cur)
    ensures Grows(f, r.flags) && Produced(r.t)
    decreases Left(s, c), 1
  {
    var w := Whitespace(s, c).0;
    if w.oos then Parsed(w, Inferred, f)
    else if CurrOf(s, w) != '<' && CurrOf(s, w) != '@' then Parsed(w, Undeclared(chain), f)
    else
      var open := CurrOf(s, w);
      var n := Inc(s, w);
      if n.index >= |s| then Parsed(n, Inferred, f)
      else if open == '@' && CurrOf(s, n) != '(' then
        var w2 := Whitespace(s, n).0;
        if w2.oos then Parsed(w2, Inferred, f)
        else
          var st := PTypeStyle(s, w2, f);
          Parsed(st.cur, UndeclaredWParams(chain, [st.t]), st.flags)
      else if open == '@' then
        var n2 := Inc(s, n);
        if n2.index >= |s| then Parsed(n2, Inferred, f)
        else ParamLoop(s, n2, open, chain, [], f)
      else ParamLoop(s, n, open, chain, [], f)
  }

  /** The loop over a parameter list closed by '>' (after '<') or ')' (after "@("). */
  function ParamLoop(s: string, c: Cur, open: char, chain: seq<string>, acc: seq<Type>, f: Flags): (r: Parsed)
    requires |chain| > 0
    ensures r.cur.index >= c.index && r.cur.line >= c.line && Parked(s, r.cur)
    ensures Grows(f, r.flags) && (r.t.Inferred? || (r.t.UndeclaredWParams? && r.t.names == chain))
    decreases Left(s, c), 6
  {
    var w := Whitespace(s, c).0;
    if w.oos then Parsed(w, Inferred, f)
    else
      var st := PTypeStyle(s, w, f);
      var params := acc + [st.t];
      if st.cur.oos || st.flags.unexpected || st.flags.conflict.Some? then Parsed(st.cur, Inferred, st.flags)
      else
        var w2 := Whitespace(s, st.cur).0;
        if w2.oos then Parsed(w2, Inferred, st.flags)
        else if CurrOf(s, w2) == ',' then
          var n := Inc(s, w2);
          if n.index >= |s| then Parsed(n, Inferred, st.flags)
          else ParamLoop(s, n, open, chain, params, st.flags)
        else if (open == '<' && CurrOf(s, w2) == '>') || (open == '@' && CurrOf(s, w2) == ')') then
          Parsed(Inc(s, w2), UndeclaredWParams(chain, params), st.flags)
        else Parsed(w2, Inferred, Flags(true, st.flags.conflict))
  }

  /**
   * `parse_type_and_style`: an optional style keyword (otherwise the cursor
   * goes back and the style is `copy`), the type, and an optional '?'.
   */
  function PTypeStyle(s: string, c: Cur, f: Flags): (r: Styled)
    ensures r.cur.index >= c.index && r.cur.line >= c.line && Parked(s, r.cur)
    ensures Grows(f, r.flags)
    decreases Left(s, c), 5
  {
    var (a, name) := AsciiName(s, c);
    if a.oos then Styled(a, Copy, Inferred, false, f)
    else
      var style := if name in Styles then NewVarStyle(name) else Copy;
      var b := if name in Styles then a else c;
      var w := Whitespace(s, b).0;
      var pt := PType(s, w, f);
      var w2 := Whitespace(s, pt.cur).0;
      if CurrOf(s, w2) == '?' then Styled(Inc(s, w2), style, pt.t, true, pt.flags)
      else Styled(w2, style, pt.t, false, pt.flags)
  }

  // ----- what `parse_type` makes of its input -----

  /** The word at `c` is `name` and more text follows it. */
  predicate WordAt(s: string, c: Cur, name: string) {
    AsciiName(s, c).1 == name && !AsciiName(s, c).0.oos
  }

  /** Where the cursor is after the word at `c` and the blank text behind it. */
  function AfterWord(s: string, c: Cur): Cur {
    Whitespace(s, AsciiName(s, c).0).0
  }

  /** Text that starts with a word is read by the name loop. */
  lemma WordStartsNameLoop(s: string, c: Cur, f: Flags)
    requires AsciiName(s, c).1 != ""
    ensures PType(s, c, f) == NameLoop(s, c, None, false, f)
  {
    assert c.index < |s| && IsVarChar(CurrOf(s, c), true);
  }

  /** "int" is `int`, with no conflict reported. */
  lemma IntIsInt(s: string, c: Cur, f: Flags)
    requires WordAt(s, c, "int")
    ensures PType(s, c, f) == Parsed(AsciiName(s, c).0, Type.Number(Int), f)
  {
    WordStartsNameLoop(s, c, f);
  }

  /** "unsigned int" is `unsigned int`, with no conflict reported. */
  lemma UnsignedIntIsUInt(s: string, c: Cur, f: Flags)
    requires WordAt(s, c, "unsigned") && WordAt(s, AfterWord(s, c), "int")
    ensures PType(s, c, f) == Parsed(AsciiName(s, AfterWord(s, c)).0, Type.Number(UInt), f)
  {
    WordStartsNameLoop(s, c, f);
    var w := AfterWord(s, c);
    assert NameLoop(s, c, None, false, f) == NameLoop(s, w, Some(true), false, f);
  }

  /** Two sign specifiers in a row are a conflict, and the type is inferred. */
  lemma SignsConflict(s: string, c: Cur, f: Flags, first: string, second: string)
    requires first in {"signed", "unsigned"} && second in {"signed", "unsigned"}
    requires WordAt(s, c, first) && WordAt(s, AfterWord(s, c), second)
    ensures PType(s, c, f) == Parsed(AsciiName(s, AfterWord(s, c)).0, Inferred, Flags(f.unexpected, Some(SignConflict)))
  {
    WordStartsNameLoop(s, c, f);
    var w := AfterWord(s, c);
    assert NameLoop(s, c, None, false, f) == NameLoop(s, w, Some(first == "unsigned"), false, f);
  }

  /** "()" is `void`, and the cursor moves past the ')'. */
  lemma EmptyParensAreVoid(s: string, c: Cur, f: Flags)
    requires !c.oos && c.index + 1 < |s| && s[c.index] == '(' && s[c.index + 1] == ')'
    ensures PType(s, c, f) == Parsed(Cur(c.index + 2, c.line, c.index + 2 >= |s|), Void, f)
  {
    var n := Inc(s, c);
    assert !CommentAhead(s, n.index) by {
      assert Rest(s, n.index)[0] == ')';
    }
  }

  /** After the name chain, blank text and then no '<' or '@': an undeclared type of that chain. */
  lemma NoParamsIsUndeclared(s: string, c: Cur, chain: seq<string>, f: Flags)
    requires |chain| > 0
    requires !Whitespace(s, c).0.oos && CurrOf(s, Whitespace(s, c).0) !in {'<', '@'}
    ensures AfterName(s, c, chain, f) == Parsed(Whitespace(s, c).0, Undeclared(chain), f)
  {
  }

  /** A word that is not a keyword starts a name chain. */
  lemma NonKeywordStartsChain(s: string, c: Cur, f: Flags, a: Cur, name: string)
    requires AsciiName(s, c) == (a, name) && !a.oos && name !in Keywords
    ensures NameLoop(s, c, None, false, f) == ChainLoop(s, a, [name], f)
  {
    assert name != "unsigned" && name != "signed" && name != "long";
    assert Primitive(name, None, false, f).None?;
  }

  /** A chain followed by neither "::" nor "." is complete. */
  lemma ChainEnds(s: string, c: Cur, chain: seq<string>, f: Flags)
    requires |chain| > 0
    requires !Ahead(s, Whitespace(s, c).0.index, "::") && !Ahead(s, Whitespace(s, c).0.index, ".")
    ensures ChainLoop(s, c, chain, f) == AfterName(s, Whitespace(s, c).0, chain, f)
  {
  }

  /**
   * A word that is not a keyword, followed by neither "::", ".", '<' nor
   * '@', is an undeclared type named by that word alone.
   */
  lemma PlainNameIsUndeclared(s: string, c: Cur, f: Flags, name: string)
    requires WordAt(s, c, name) && name !in Keywords && name != ""
    requires var w := AfterWord(s, c);
      !Ahead(s, w.index, "::") && !Ahead(s, w.index, ".") &&
      !Whitespace(s, w).0.oos && CurrOf(s, Whitespace(s, w).0) !in {'<', '@'}
    ensures PType(s, c, f) == Parsed(Whitespace(s, AfterWord(s, c)).0, Undeclared([name]), f)
  {
    WordStartsNameLoop(s, c, f);
    NonKeywordStartsChain(s, c, f, AsciiName(s, c).0, name);
    ChainEnds(s, AsciiName(s, c).0, [name], f);
    NoParamsIsUndeclared(s, AfterWord(s, c), [name], f);
  }
}
