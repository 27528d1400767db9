// The character cursor of src/declaration_parser/parser.rs. Every scanning
// method is proved to leave the cursor where the reference functions of
// scan.dfy and type_scan.dfy say, and to return what they return.

module Cursor {
  import opened Text
  import opened Wrappers
  import opened Scan
  import opened TypeScan
  import opened ValueTypes
  import opened VariableTypes

  class Parser {
    /** The content, one element per character. */
    const chars: string
    /** The position of the character being parsed. */
    var index: nat
    /** The number of newlines passed so far. */
    var line: nat
    /** Set once the cursor reaches the end of `chars`. */
    var outOfSpace: bool

    /** The cursor as a value. */
    function State(): Cur
      reads this
    {
      Cur(index, line, outOfSpace)
    }

    /** `get_curr` is defined here. */
    predicate Parked()
      reads this
    {
      Scan.Parked(chars, State())
    }

    constructor(content: string)
      ensures chars == content && State() == Cur(0, 0, false)
    {
      chars := content;
      index := 0;
      line := 0;
      outOfSpace := false;
    }

    /** Moves the cursor to `newIndex` on `newLine` and clears the end flag. */
    method Reset(newIndex: nat, newLine: nat)
      modifies this
      ensures State() == Cur(newIndex, newLine, false)
    {
      index := newIndex;
      line := newLine;
      outOfSpace := false;
    }

    /** Leaves the cursor where a parser outside this model left it. */
    method MoveTo(c: Cur)
      modifies this
      ensures State() == c
    {
      index := c.index;
      line := c.line;
      outOfSpace := c.oos;
    }

    /** One step forward; true when that reaches the end. */
    method Increment() returns (atEnd: bool)
      modifies this
      ensures State() == Inc(chars, old(State()))
      ensures atEnd <==> index >= |chars|
    {
      index := index + 1;
      atEnd := CheckForEnd();
    }

    /** The text ahead starts with `check`. */
    predicate CheckAhead(check: string)
      reads this
    {
      Ahead(chars, index, check)
    }

    /** Moves past `check` when the text ahead starts with it. */
    method CheckAheadAndMove(check: string) returns (moved: bool)
      modifies this
      ensures moved <==> Ahead(chars, old(index), check)
      ensures index == if moved then old(index) + |check| else old(index)
      ensures line == old(line) && outOfSpace == old(outOfSpace)
    {
      moved := CheckAhead(check);
      if moved {
        index := index + |check|;
      }
    }

    /** Sets the end flag once `index` is at or past the end; true then. */
    method CheckForEnd() returns (atEnd: bool)
      modifies this
      ensures State() == ForEnd(chars, old(State()))
      ensures atEnd <==> index >= |chars|
    {
      if index >= |chars| {
        outOfSpace := true;
        return true;
      }
      return false;
    }

    /** `get_curr`: the current character, '\0' once the end flag is set. */
    function Curr(): char
      reads this
      requires Parked()
    {
      CurrOf(chars, State())
    }

    /**
     * `check_for_number`: on a digit, the length the number reader gives the
     * text ahead, which must be positive. The number reader is a parameter.
     */
    function CheckForNumber(valueLength: string -> nat): (r: (bool, nat))
      reads this
      requires Parked()
      ensures r.0 <==> IsDigit(Curr()) && r.1 > 0
      ensures !IsDigit(Curr()) ==> r.1 == 0
    {
      if !IsDigit(Curr()) then (false, 0)
      else
        var offset := valueLength(Rest(chars, index));
        (offset > 0, offset)
    }

    /** `parse_until`: to the next `ch`; false when already on it. */
    method ParseUntil(ch: char) returns (moved: bool)
      modifies this
      ensures (State(), moved) == UntilChar(chars, old(State()), ch)
    {
      moved := CheckForEnd();
      if moved {
        return;
      }
      if Curr() == ch {
        return false;
      }
      moved := true;
      while true
        invariant old(index) <= index < |chars| && line == old(line) && outOfSpace == old(outOfSpace)
        invariant old(outOfSpace) ==> ch != '\0'
        invariant !outOfSpace ==> forall k :: old(index) < k <= index ==> chars[k] != ch
        decreases |chars| - index
      {
        var atEnd := Increment();
        if atEnd || Curr() == ch {
          if !old(outOfSpace) {
            assert forall k :: old(index) + 1 <= k < index ==> NotChar(ch)(chars[k]);
            SpanUnique(chars, old(index) + 1, index, NotChar(ch));
            assert State() == Cur(index, line, index >= |chars|);
          } else {
            assert index == |chars|;
          }
          assert UntilChar(chars, old(State()), ch).0 == State();
          break;
        }
      }
    }

    /** `check_and_parse_comments`: skips one `//` or block comment. */
    method CheckAndParseComments() returns (found: bool)
      modifies this
      ensures (State(), found) == Comments(chars, old(State()))
    {
      if CheckAhead("//") {
        var _ := ParseUntil('\n');
        var _ := Increment();
        line := line + 1;
        return true;
      } else if CheckAhead("/*") {
        ghost var target := BlockLoop(chars, State());
        while true
          invariant index < |chars|
          invariant BlockLoop(chars, State()) == target
          decreases |chars| - index
        {
          var _ := ParseUntil('*');
          var atEnd := Increment();
          if atEnd || Curr() == '/' {
            break;
          }
        }
        var _ := Increment();
        return true;
      }
      return false;
    }

    /** `parse_whitespace`: skips whitespace and comments; false when there was none. */
    method ParseWhitespace() returns (skipped: bool)
      modifies this
      ensures (State(), skipped) == Whitespace(chars, old(State()))
    {
      var atEnd := CheckForEnd();
      if atEnd {
        return false;
      }
      if !IsSpaceChar(Curr()) {
        var found := CheckAndParseComments();
        if !found {
          return false;
        }
      }
      SkipBlank();
      return true;
    }

    /** The body loop of `parse_whitespace`: whitespace runs and comments, in any order. */
    method SkipBlank()
      requires Parked() && index <= |chars| + 2
      modifies this
      ensures State() == WsLoop(chars, old(State()))
    {
      while true
        invariant Parked() && index <= |chars| + 2
        invariant WsLoop(chars, State()) == WsLoop(chars, old(State()))
        decreases |chars| + 3 - index
      {
        SkipSpaces();
        var found := CheckAndParseComments();
        if !found {
          break;
        }
      }
    }

    /** The whitespace run at the cursor, counting the newlines in it. */
    method SkipSpaces()
      requires Parked() && index <= |chars| + 2
      modifies this
      ensures Parked() && old(index) <= index <= |chars| + 2
      ensures !OnSpace(chars, State())
      ensures WsLoop(chars, State()) == WsLoop(chars, old(State()))
    {
      while IsSpaceChar(Curr())
        invariant Parked() && old(index) <= index <= |chars| + 2
        invariant WsLoop(chars, State()) == WsLoop(chars, old(State()))
        decreases |chars| - index
      {
        ghost var c := State();
        if Curr() == '\n' {
          line := line + 1;
        }
        var _ := Increment();
        WsLoopSpace(chars, c);
      }
    }

    /** `parse_whitespace_and_check_space`: skips blank text and reports the end flag. */
    method ParseWhitespaceAndCheckSpace() returns (atEnd: bool)
      modifies this
      ensures State() == Whitespace(chars, old(State())).0
      ensures atEnd == outOfSpace
    {
      var _ := ParseWhitespace();
      atEnd := outOfSpace;
    }

    /** `parse_ascii_char_name`: the identifier at the cursor, possibly empty. */
    method ParseAsciiCharName() returns (name: string)
      modifies this
      ensures (State(), name) == AsciiName(chars, old(State()))
    {
      name := "";
      var atEnd := CheckForEnd();
      if atEnd {
        return;
      }
      var first := true;
      while IsVarChar(Curr(), first)
        invariant Parked() && line == old(line) && old(index) <= index <= |chars|
        invariant first <==> index == old(index)
        invariant name == chars[old(index)..index]
        invariant !first ==> !old(outOfSpace) && IsVarChar(chars[old(index)], true)
        invariant !first ==> outOfSpace == (index >= |chars|)
        invariant first ==> outOfSpace == old(outOfSpace)
        invariant forall k :: old(index) < k < index ==> IsVarTail(chars[k])
        decreases |chars| - index
      {
        assert first || IsVarTail(chars[index]);
        assert chars[old(index)..index + 1] == chars[old(index)..index] + [chars[index]];
        name := name + [chars[index]];
        first := false;
        var end := Increment();
        if end {
          SpanUnique(chars, old(index) + 1, index, IsVarTail);
          assert name == chars[old(index)..index];
          assert State() == Cur(index, line, true);
          assert AsciiName(chars, old(State())).0 == State();
          return;
        }
      }
      if !first {
        SpanUnique(chars, old(index) + 1, index, IsVarTail);
      }
    }

    /** `parse_ascii_op_name`: "()" on "()", else the operator characters at the cursor. */
    method ParseAsciiOpName() returns (name: string)
      modifies this
      ensures (State(), name) == OpName(chars, old(State()))
    {
      name := "";
      var atEnd := CheckForEnd();
      if atEnd {
        return;
      }
      if Curr() == '(' {
        var end := Increment();
        if end {
          return;
        } else if Curr() == ')' {
          return "()";
        }
      }
      name := ParseOpRun();
    }

    /** The run of operator characters at the cursor. */
    method ParseOpRun() returns (name: string)
      requires Parked()
      modifies this
      ensures (State(), name) == OpRun(chars, old(State()))
    {
      name := "";
      while IsOpChar(Curr())
        invariant Parked() && line == old(line) && old(index) <= index
        invariant index > old(index) ==> index <= |chars| && name == chars[old(index)..index]
        invariant index == old(index) ==> name == ""
        invariant index > old(index) ==> !old(outOfSpace) && outOfSpace == (index >= |chars|)
        invariant index == old(index) ==> outOfSpace == old(outOfSpace)
        invariant forall k :: old(index) <= k < index ==> IsOpChar(chars[k])
        decreases |chars| - index
      {
        name := name + [chars[index]];
        var end := Increment();
        if end {
          SpanUnique(chars, old(index), index, IsOpChar);
          assert name == chars[old(index)..index];
          assert State() == Cur(index, line, true);
          assert OpRun(chars, old(State())).0 == State();
          return;
        }
      }
      if index > old(index) {
        SpanUnique(chars, old(index), index, IsOpChar);
      }
    }

    /** `parse_until_at_expr`: to `t1` or `t2` at the same brace and parenthesis depth. */
    method ParseUntilAtExpr(t1: char, t2: char) returns (moved: bool, found: Option<char>)
      modifies this
      ensures (State(), moved, found) == UntilAtExpr(chars, old(State()), t1, t2)
    {
      var atEnd := CheckForEnd();
      if atEnd {
        return true, None;
      }
      if Curr() == t1 || Curr() == t2 {
        return false, Some(Curr());
      }
      var braces := 0;
      var parens := 0;
      found := None;
      ghost var target := ExprLoop(chars, State(), t1, t2, 0, 0);
      while !outOfSpace
        invariant Parked()
        invariant found.None?
        invariant ExprLoop(chars, State(), t1, t2, braces, parens) == target
        decreases if outOfSpace then 0 else 1, |chars| - index
      {
        var isString := ParseString();
        if isString {
          var end := Increment();
          if end {
            break;
          }
        } else {
          var skipped := ParseWhitespace();
          if !skipped {
            var end := Increment();
            if end {
              break;
            }
          }
        }
        var ch := Curr();
        braces := Braces(ch, braces);
        parens := Parens(ch, parens);
        if braces <= 0 && parens <= 0 && (Hit(ch, t1, braces, parens) || Hit(ch, t2, braces, parens)) {
          found := Some(ch);
          break;
        }
      }
      return true, found;
    }

    /**
     * `check_for_string`: whether a string literal starts here. `index`
     * goes back to where it was; the end flag keeps what the attempt left.
     */
    method CheckForString() returns (isString: bool)
      modifies this
      ensures index == old(index) && line == old(line)
      ensures isString == StringLit(chars, old(State())).1
      ensures outOfSpace == StringLit(chars, old(State())).0.oos
    {
      var oldIndex := index;
      isString := ParseString();
      index := oldIndex;
    }

    /** `parse_string`: a whole string literal; the cursor ends on its closing quote. */
    method ParseString() returns (ok: bool)
      modifies this
      ensures (State(), ok) == StringLit(chars, old(State()))
    {
      var atEnd := CheckForEnd();
      if atEnd {
        return false;
      }
      var prefixOk, raw := ParseStringPrefix();
      if !prefixOk {
        return false;
      }
      ghost var target := StringBody(chars, State(), raw);
      while true
        invariant index < |chars|
        invariant StringBody(chars, State(), raw) == target
        decreases |chars| - index
      {
        var end := Increment();
        if end {
          return false;
        }
        var ch := Curr();
        if ch == '"' {
          if !raw {
            break;
          }
        } else if ch == '\\' {
          var escaped := ParseEscapeChar();
          if !escaped {
            return false;
          }
        } else if ch == ')' {
          if raw {
            var end2 := Increment();
            if end2 {
              return false;
            }
            if Curr() == '"' {
              break;
            }
            index := index - 1;
          }
        }
      }
      return true;
    }

    /** `parse_string_prefix`: the encoding prefix and opening quote; `raw` for 'R'. */
    method ParseStringPrefix() returns (ok: bool, raw: bool)
      requires Parked()
      modifies this
      ensures (State(), ok, raw) == StringPrefix(chars, old(State()))
    {
      raw := false;
      var ch := Curr();
      if ch == '"' {
      } else if ch == 'u' {
        var end := Increment();
        if end {
          return false, false;
        }
        var next := Curr();
        if next == '8' {
          var end2 := Increment();
          if end2 || Curr() != '"' {
            return false, false;
          }
        } else if next != '"' {
          return false, false;
        }
      } else if ch == 'L' || ch == 'U' {
        var end := Increment();
        if end || Curr() != '"' {
          return false, false;
        }
      } else if ch == 'R' {
        raw := true;
        var end := Increment();
        if end || Curr() != '"' {
          var end2 := Increment();
          if end2 || Curr() != '(' {
            return false, true;
          }
        }
      } else {
        return false, false;
      }
      return true, raw;
    }

    /** `parse_escape_char`: one escape sequence, from its backslash to its last character. */
    method ParseEscapeChar() returns (ok: bool)
      requires Parked()
      modifies this
      ensures (State(), ok) == Escape(chars, old(State()))
    {
      if Curr() != '\\' {
        return false;
      }
      var end := Increment();
      if end {
        return false;
      }
      var ch := Curr();
      if IsDigit(ch) {
        ok := NextXChars(2, false);
        return;
      }
      if SimpleEscape(ch) {
        return true;
      }
      if ch == 'x' {
        ok := NextXChars(1, false);
        if ok {
          ok := NextXChars(1, true);
        }
      } else if ch == 'u' {
        ok := NextXChars(4, true);
      } else if ch == 'U' {
        ok := NextXChars(8, true);
      } else {
        ok := false;
      }
    }

    /** `next_x_chars_are_numeric` (`hex` false) and `next_x_chars_are_hex` (`hex` true). */
    method NextXChars(x: nat, hex: bool) returns (ok: bool)
      requires index < |chars|
      modifies this
      ensures (State(), ok) == NextX(chars, old(State()), x, hex)
    {
      ghost var target := NextX(chars, State(), x, hex);
      for i := 0 to x
        invariant index < |chars|
        invariant NextX(chars, State(), x - i, hex) == target
      {
        var end := Increment();
        if end || !DigitOk(Curr(), hex) {
          return false;
        }
      }
      return true;
    }

    // ----- types -----

    /**
     * `parse_type`: a parenthesised tuple, "()" for `void`, or the words of
     * a type with its parameters. The two error flags of the source are
     * threaded through `f` and returned as `g`.
     */
    method ParseType(f: Flags) returns (t: Type, g: Flags)
      modifies this
      ensures Parsed(State(), t, g) == PType(chars, old(State()), f)
      decreases TypeScan.Left(chars, State()), 4
    {
      var atEnd := CheckForEnd();
      if atEnd {
        return Inferred, f;
      }
      if Curr() == '(' {
        var _ := Increment();
        var _ := ParseWhitespace();
        if Curr() == ')' {
          var _ := Increment();
          return Void, f;
        }
        t, g := ParseTupleElements(f);
        return;
      }
      t, g := ParseTypeWords(f);
    }

    /** The loop over the elements of a tuple type, after its '('. */
    method ParseTupleElements(f: Flags) returns (t: Type, g: Flags)
      requires Parked()
      modifies this
      ensures Parsed(State(), t, g) == TupleLoop(chars, old(State()), [], f)
      decreases TypeScan.Left(chars, State()), 6
    {
      var elems: seq<Type> := [];
      g := f;
      while true
        invariant Parked() && index >= old(index)
        invariant TupleLoop(chars, State(), elems, g) == TupleLoop(chars, old(State()), [], f)
        decreases TypeScan.Left(chars, State())
      {
        var start := index;
        var style, et, optional, g1 := ParseTypeAndStyle(g);
        elems := elems + [et];
        g := g1;
        if outOfSpace || g.unexpected {
          return Inferred, g;
        }
        if Curr() == ',' {
          var _ := Increment();
        } else if Curr() == ')' {
          var _ := Increment();
          return Tuple(elems), g;
        }
        if index == start {
          return Inferred, g;
        }
      }
    }

    /** The loop over the words of a type: sign and length specifiers, then a keyword or a name. */
    method ParseTypeWords(f: Flags) returns (t: Type, g: Flags)
      modifies this
      ensures Parsed(State(), t, g) == NameLoop(chars, old(State()), None, false, f)
      decreases TypeScan.Left(chars, State()), 3
    {
      var unsigned: Option<bool> := None;
      var long := false;
      while true
        invariant index >= old(index)
        invariant NameLoop(chars, State(), unsigned, long, f) == NameLoop(chars, old(State()), None, false, f)
        decreases TypeScan.Left(chars, State())
      {
        var name := ParseAsciiCharName();
        if outOfSpace {
          return Inferred, f;
        }
        if name == "unsigned" || name == "signed" {
          if unsigned.Some? {
            return Inferred, Conflict(f, SignConflict);
          }
          unsigned := Some(name == "unsigned");
        } else if name == "long" {
          long := true;
          var _ := ParseWhitespace();
          if CheckAhead("long") {
            return Type.Number(Signed(unsigned, LongLong, ULongLong)), f;
          } else if CheckAhead("=") || CheckAhead(",") {
            return Type.Number(Signed(unsigned, Long, ULong)), f;
          }
        } else {
          var primitive := Primitive(name, unsigned, long, f);
          if primitive.Some? {
            return primitive.value.0, primitive.value.1;
          }
          g := if long then Conflict(f, LongOnName) else f;
          if unsigned.Some? {
            g := Conflict(g, SignOnName);
          }
          t, g := ParseTypeChain([name], g);
          return;
        }
        var _ := ParseWhitespace();
      }
    }

    /** The loop over further names after "::" or ".", then the parameters. */
    method ParseTypeChain(first: seq<string>, f: Flags) returns (t: Type, g: Flags)
      requires |first| > 0
      modifies this
      ensures Parsed(State(), t, g) == ChainLoop(chars, old(State()), first, f)
      decreases TypeScan.Left(chars, State()), 2
    {
      var chain := first;
      while true
        invariant |chain| > 0 && index >= old(index)
        invariant ChainLoop(chars, State(), chain, f) == ChainLoop(chars, old(State()), first, f)
        decreases TypeScan.Left(chars, State())
      {
        var moved := ParseChainSeparator(chain, f);
        if !moved {
          break;
        }
        var name := ParseAsciiCharName();
        if outOfSpace {
          return Inferred, f;
        }
        chain := chain + [name];
      }
      t, g := ParseTypeParams(chain, f);
    }

    /** The whitespace and the "::" or "." between two names of a chain. */
    method ParseChainSeparator(ghost chain: seq<string>, ghost f: Flags) returns (moved: bool)
      requires |chain| > 0
      modifies this
      ensures !moved ==> ChainLoop(chars, old(State()), chain, f) == AfterName(chars, State(), chain, f)
      ensures moved ==> ChainLoop(chars, old(State()), chain, f) == ChainName(chars, State(), chain, f)
      ensures index >= old(index) && (moved ==> old(index) < index <= |chars|)
    {
      ghost var c := State();
      var _ := ParseWhitespace();
      ghost var w := State();
      moved := CheckAheadAndMove("::");
      if moved {
        AheadFits(chars, w.index, "::");
        TypeScan.ChainMore(chars, c, w, State(), chain, f);
        return;
      }
      moved := CheckAheadAndMove(".");
      if moved {
        AheadFits(chars, w.index, ".");
        TypeScan.ChainMore(chars, c, w, State(), chain, f);
      } else {
        TypeScan.ChainEnds(chars, c, chain, f);
      }
    }

    /** After the name chain: nothing, a `<...>` or `@(...)` parameter list, or `@` and one parameter. */
    method ParseTypeParams(chain: seq<string>, f: Flags) returns (t: Type, g: Flags)
      requires |chain| > 0
      modifies this
      ensures Parsed(State(), t, g) == AfterName(chars, old(State()), chain, f)
      decreases TypeScan.Left(chars, State()), 1
    {
      var atEnd := ParseWhitespaceAndCheckSpace();
      if atEnd {
        return Inferred, f;
      }
      var open := Curr();
      if open != '<' && open != '@' {
        return Undeclared(chain), f;
      }
      var end := Increment();
      if end {
        return Inferred, f;
      }
      if open == '@' && Curr() != '(' {
        var end2 := ParseWhitespaceAndCheckSpace();
        if end2 {
          return Inferred, f;
        }
        var style, param, optional, g1 := ParseTypeAndStyle(f);
        return UndeclaredWParams(chain, [param]), g1;
      }
      if open == '@' {
        var end3 := Increment();
        if end3 {
          return Inferred, f;
        }
      }
      t, g := ParseParamList(open, chain, f);
    }

    /** The loop over a parameter list closed by '>' (after '<') or ')' (after "@("). */
    method ParseParamList(open: char, chain: seq<string>, f: Flags) returns (t: Type, g: Flags)
      requires |chain| > 0
      modifies this
      ensures Parsed(State(), t, g) == ParamLoop(chars, old(State()), open, chain, [], f)
      decreases TypeScan.Left(chars, State()), 6
    {
      var params: seq<Type> := [];
      g := f;
      while true
        invariant index >= old(index)
        invariant ParamLoop(chars, State(), open, chain, params, g) == ParamLoop(chars, old(State()), open, chain, [], f)
        decreases TypeScan.Left(chars, State())
      {
        var atEnd := ParseWhitespaceAndCheckSpace();
        if atEnd {
          return Inferred, g;
        }
        var style, param, optional, g1 := ParseTypeAndStyle(g);
        params := params + [param];
        g := g1;
        if outOfSpace || g.unexpected || g.conflict.Some? {
          return Inferred, g;
        }
        var atEnd2 := ParseWhitespaceAndCheckSpace();
        if atEnd2 {
          return Inferred, g;
        }
        var next := Curr();
        if next == ',' {
          var end := Increment();
          if end {
            return Inferred, g;
          }
        } else if (open == '<' && next == '>') || (open == '@' && next == ')') {
          var _ := Increment();
          return UndeclaredWParams(chain, params), g;
        } else {
          return Inferred, Flags(true, g.conflict);
        }
      }
    }

    /**
     * `parse_type_and_style`: an optional style keyword (otherwise the
     * cursor goes back and the style is `copy`), the type, and an optional '?'.
     */
    method ParseTypeAndStyle(f: Flags) returns (style: VarStyle, t: Type, optional: bool, g: Flags)
      modifies this
      ensures Styled(State(), style, t, optional, g) == PTypeStyle(chars, old(State()), f)
      decreases TypeScan.Left(chars, State()), 5
    {
      var oldIndex := index;
      var name := ParseAsciiCharName();
      if outOfSpace {
        return Copy, Inferred, false, f;
      }
      style := Copy;
      if name in Styles {
        style := NewVarStyle(name);
      } else {
        index := oldIndex;
      }
      var _ := ParseWhitespace();
      t, g := ParseType(f);
      var _ := ParseWhitespace();
      optional := false;
      if Curr() == '?' {
        optional := true;
        var _ := Increment();
      }
    }
  }
}
