// The expression tokeniser and reducer: `ExpressionParser` walks the text
// with the shared cursor, pushes prefix, value, suffix and infix pieces, and
// then folds the pieces into one tree, highest priority first
// (src/expression/expression_parser.rs, and the reducer of
// src/expression/expression_piece.rs).

module ExpressionParsers {
  import opened Text
  import opened Wrappers
  import opened Scan
  import opened Cursor
  import opened Expressions
  import opened ExpressionPieces

  // ----- operator lookup -----

  /** Operator `op` is named, and its name is `text` (`exact`) or starts with it. */
  predicate Matches(op: Operator, text: string, exact: bool) {
    op.name.Some? && (if exact then op.name.value == text else StartsWith(op.name.value, text))
  }

  /** `xs` is strictly ascending. */
  predicate Ascending(xs: seq<nat>) {
    forall i, j :: 0 <= i < j < |xs| ==> xs[i] < xs[j]
  }

  /**
   * `check_operator`: the indices, in ascending order, of the operators of
   * a group whose name is `text` (`exact`) or starts with it.
   */
  method CheckOperator(text: string, table: seq<Operator>, exact: bool) returns (r: seq<nat>)
    ensures Ascending(r)
    ensures forall k: nat :: k in r <==> k < |table| && Matches(table[k], text, exact)
  {
    r := [];
    for i := 0 to |table|
      invariant Ascending(r)
      invariant forall x :: x in r ==> x < i
      invariant forall k: nat :: k in r <==> k < i && Matches(table[k], text, exact)
    {
      if Matches(table[i], text, exact) {
        assert forall t :: 0 <= t < |r| ==> r[t] in r;
        r := r + [i];
      }
    }
  }

  /** A name that starts with a text starts with every prefix of it. */
  lemma StartsWithShorter(name: string, text: string, n: nat)
    requires StartsWith(name, text) && n <= |text|
    ensures StartsWith(name, text[..n])
  {
    assert name[..|text|][..n] == name[..n];
    assert text[..n] == name[..|text|][..n];
  }

  /** A name that does not start with a prefix of a text does not start with the text. */
  lemma ShorterFails(name: string, text: string, n: nat)
    requires n <= |text| && !StartsWith(name, text[..n])
    ensures !StartsWith(name, text)
  {
    if |text| <= |name| {
      assert name[..|text|][..n] == name[..n];
    }
  }

  /**
   * The operator lookup loop of `parse_next_operator`, from `start`: the
   * text grows one character at a time while more than one operator, or
   * one not yet spelled out, could still match. It yields the operator and
   * the length of its spelling.
   *
   * A match is the only operator spelled exactly as the consumed text, and
   * no operator spells a longer match.
   */
  method MatchOperator(s: string, start: nat, table: seq<Operator>) returns (r: Option<(nat, nat)>)
    requires start <= |s|
    ensures r.Some? ==> var (id, len) := r.value;
      id < |table| && start + len <= |s| && table[id].name == Some(s[start..start + len])
    ensures r.Some? ==> var (id, len) := r.value;
      forall j :: 0 <= j < |table| && table[j].name == Some(s[start..start + len]) ==> j == id
    ensures r.Some? ==> var (id, len) := r.value;
      start + len < |s| ==> forall j :: 0 <= j < |table| ==> !Matches(table[j], s[start..start + len + 1], false)
  {
    var offset := 0;
    while true
      invariant start + offset <= |s|
      decreases |s| - (start + offset)
    {
      var text := s[start..start + offset];
      var possible := CheckOperator(text, table, false);
      if |possible| == 0 {
        if offset > 0 {
          var shorter := s[start..start + offset - 1];
          var exact := CheckOperator(shorter, table, true);
          if |exact| == 1 {
            assert exact[0] in exact;
            assert s[start..start + (offset - 1) + 1] == text;
            return Some((exact[0], offset - 1));
          }
        }
        return None;
      }
      assert possible[0] in possible;
      if |possible| == 1 && text == table[possible[0]].name.value {
        forall j | 0 <= j < |table| && table[j].name == Some(text)
          ensures j == possible[0]
        {
          assert Matches(table[j], text, false);
        }
        if start + offset < |s| {
          forall j | 0 <= j < |table|
            ensures !Matches(table[j], s[start..start + offset + 1], false)
          {
            var longer := s[start..start + offset + 1];
            assert longer[..offset] == text;
            if table[j].name.Some? && j != possible[0] {
              assert !Matches(table[j], text, false);
              ShorterFails(table[j].name.value, longer, offset);
            }
          }
        }
        return Some((possible[0], offset));
      }
      offset := offset + 1;
      if start + offset > |s| {
        return None;
      }
    }
  }

  /** Operator `id` of `table` is named, and its name is spelled in `s` from `start`. */
  predicate OperatorAt(s: string, start: nat, table: seq<Operator>, id: nat) {
    id < |table| && table[id].name.Some? &&
    start + |table[id].name.value| <= |s| && s[start..start + |table[id].name.value|] == table[id].name.value
  }

  // ----- the parser -----

  /** `ParseState`. */
  datatype ParseState = PrefixState | ValueState | SuffixState | InfixState | EndState

  /**
   * The transitions of `parse`, given whether the step's attempt succeeded:
   * prefixes repeat until none is found, then a value is required; suffixes
   * repeat until none is found, then an infix operator either starts the
   * next operand or ends the expression. The reason goes with each end.
   */
  function NextState(state: ParseState, succeeded: bool): (r: (ParseState, Option<EndReason>))
    ensures r.1.Some? <==> r.0 == EndState && state != EndState
    ensures r.1 == Some(NoValueError) <==> state == ValueState && !succeeded
    ensures r.1 == Some(EndOfExpression) <==> state == InfixState && !succeeded
  {
    match state
    case PrefixState => if succeeded then (PrefixState, None) else (ValueState, None)
    case ValueState => if succeeded then (SuffixState, None) else (EndState, Some(NoValueError))
    case SuffixState => if succeeded then (SuffixState, None) else (InfixState, None)
    case InfixState => if succeeded then (PrefixState, None) else (EndState, Some(EndOfExpression))
    case EndState => (EndState, None)
  }

  /** Every state but the end leads on: a value always comes after the prefixes, an infix operator after the suffixes. */
  lemma StatesCycle()
    ensures NextState(PrefixState, false).0 == ValueState && NextState(ValueState, true).0 == SuffixState
    ensures NextState(SuffixState, false).0 == InfixState && NextState(InfixState, true).0 == PrefixState
    ensures forall b :: NextState(EndState, b) == (EndState, None)
  {
  }

  /**
   * What `parse_value` and `parse_suffix_internal_expressions` (which run
   * nested expression parsers) leave: the cursor, the pieces they push and
   * whether they succeeded.
   */
  datatype NestedStep = NestedStep(cursor: Cur, pieces: seq<Piece>, parsed: bool)

  datatype NestedOracles = NestedOracles(value: (string, Cur) -> NestedStep, group: (string, Cur) -> NestedStep)

  /** The piece an operator of a group is pushed as; ternary operators are not pushed. */
  function OperatorPieces(kind: OpKind, id: nat, pos: Position): (r: seq<Piece>)
    ensures kind == TernaryKind <==> r == []
  {
    match kind
    case PrefixKind => [PrefixPiece(id, pos)]
    case SuffixKind => [SuffixPiece(id, pos)]
    case InfixKind => [InfixPiece(id, pos)]
    case TernaryKind => []
  }

  /** `is_group_char`. */
  predicate IsGroupChar(c: char) {
    c == '(' || c == '['
  }

  /** `get_end_char`: the closing bracket of a group, ' ' for anything else. */
  function GetEndChar(c: char): (r: char)
    ensures IsGroupChar(c) ==> r != ' ' && r != c
    ensures c == '(' <==> r == ')'
    ensures c == '[' <==> r == ']'
    ensures !IsGroupChar(c) <==> r == ' '
  {
    match c
    case '(' => ')'
    case '[' => ']'
    case _ => ' '
  }

  // ----- choosing the next operator -----

  /**
   * What the scan of `get_next_operator` knows after the first `i`
   * pieces, with `best` its running choice: nothing so far beats -3, or
   * the choice beats -3, has the highest priority so far, passed over an
   * earlier piece of equal priority only by binding to the right, and no
   * later piece beats it.
   */
  predicate ScanInv(parts: seq<Piece>, ops: OperatorTable, i: nat, best: Option<nat>)
    requires PiecesInRange(parts, ops) && i <= |parts|
  {
    (best.None? ==> forall j :: 0 <= j < i ==> !Beats(parts, ops, j, -3)) &&
    (best.Some? ==>
      var k := best.value;
      k < i && Beats(parts, ops, k, -3) &&
      (forall j :: 0 <= j < i ==> PiecePriority(parts[j], ops).0 <= PiecePriority(parts[k], ops).0) &&
      (forall j :: 0 <= j < k ==> PiecePriority(parts[j], ops).0 < PiecePriority(parts[k], ops).0 || PiecePriority(parts[k], ops).1) &&
      (forall j :: k < j < i ==> !Beats(parts, ops, j, PiecePriority(parts[k], ops).0)))
  }

  /** The priority a running choice stands for; -3 before any. */
  function BestPriority(parts: seq<Piece>, ops: OperatorTable, best: Option<nat>): int
    requires PiecesInRange(parts, ops) && (best.Some? ==> best.value < |parts|)
  {
    if best.None? then -3 else PiecePriority(parts[best.value], ops).0
  }

  /**
   * The rest of the scan from piece `i`: a piece that beats the running
   * choice replaces it. What it settles on is the next operator; when it
   * settles on nothing, no piece beats -3.
   */
  function ScanFrom(parts: seq<Piece>, ops: OperatorTable, i: nat, best: Option<nat>): (r: Option<nat>)
    requires PiecesInRange(parts, ops) && i <= |parts| && ScanInv(parts, ops, i, best)
    ensures r.Some? ==> IsNextOperator(parts, ops, r.value)
    ensures r.None? ==> forall j :: 0 <= j < |parts| ==> !Beats(parts, ops, j, -3)
    decreases |parts| - i
  {
    if i == |parts| then best
    else
      ScanStep(parts, ops, i, best);
      if Beats(parts, ops, i, BestPriority(parts, ops, best)) then
        ScanFrom(parts, ops, i + 1, Some(i))
      else
        ScanFrom(parts, ops, i + 1, best)
  }

  /** One piece more keeps what the scan knows, whether or not the piece replaces the choice. */
  lemma ScanStep(parts: seq<Piece>, ops: OperatorTable, i: nat, best: Option<nat>)
    requires PiecesInRange(parts, ops) && i < |parts| && ScanInv(parts, ops, i, best)
    ensures Beats(parts, ops, i, BestPriority(parts, ops, best)) ==> ScanInv(parts, ops, i + 1, Some(i))
    ensures !Beats(parts, ops, i, BestPriority(parts, ops, best)) ==> ScanInv(parts, ops, i + 1, best)
  {
    var bp := BestPriority(parts, ops, best);
    var pi := PiecePriority(parts[i], ops);
    if Beats(parts, ops, i, bp) {
      forall j | 0 <= j < i
        ensures PiecePriority(parts[j], ops).0 <= pi.0
        ensures PiecePriority(parts[j], ops).0 < pi.0 || pi.1
      {
        var pj := PiecePriority(parts[j], ops);
        if best.None? {
          assert !Beats(parts, ops, j, -3);
        }
      }
    }
  }

  /** `get_next_operator`. */
  function NextOperator(parts: seq<Piece>, ops: OperatorTable): (r: Option<nat>)
    requires PiecesInRange(parts, ops)
    ensures r.Some? ==> IsNextOperator(parts, ops, r.value)
    ensures r.None? ==> forall j :: 0 <= j < |parts| ==> !Beats(parts, ops, j, -3)
  {
    ScanFrom(parts, ops, 0, None)
  }

  // ----- folding the pieces -----

  /** The piece at `i`, when there is one. */
  function At(pieces: seq<Piece>, i: int): (r: Option<Piece>)
    ensures r.Some? <==> 0 <= i < |pieces|
    ensures r.Some? ==> r.value == pieces[i]
  {
    if 0 <= i < |pieces| then Some(pieces[i]) else None
  }

  /** One turn of the reducer's loop. */
  datatype StepOutcome = Reduced(next: seq<Piece>) | Reported(d: Diagnostic) | Unsupported

  /** `parts[lo..hi]` replaced by the one expression `e`. */
  function Splice(parts: seq<Piece>, lo: nat, hi: nat, e: Expression): (r: seq<Piece>)
    requires lo <= hi <= |parts|
    ensures |r| == |parts| - (hi - lo) + 1
  {
    parts[..lo] + [ExprPiece(e)] + parts[hi..]
  }

  /** The operator at `k` and its operands, `parts[lo..hi]`, became the one expression `e`; all else is kept. */
  predicate Replaced(parts: seq<Piece>, next: seq<Piece>, k: nat, lo: nat, hi: nat, e: Expression) {
    lo <= k < hi <= |parts| && 2 <= hi - lo <= 3 && next == Splice(parts, lo, hi, e)
  }

  /**
   * One turn of `parse_expr_parts` on the chosen piece `k`. The source
   * removes the piece first, so the operands it indexes at `k - 1` and `k`
   * are the pieces at `k - 1` and `k + 1` here. A prefix operator takes
   * the piece after it, a suffix operator, a call group and an index group
   * the piece before it, an infix or ternary operator one on each side,
   * and the expression they form takes their place. An operand that is
   * missing or not an expression is reported at the operator; any other
   * piece is not supported.
   */
  function ReduceStep(parts: seq<Piece>, k: nat, ops: OperatorTable, po: PieceOracles): (r: StepOutcome)
    requires k < |parts| && PiecesInRange(parts, ops)
    ensures r.Reduced? ==> exists lo: nat, hi: nat, e :: Replaced(parts, r.next, k, lo, hi, e)
    ensures r.Unsupported? <==>
      !(parts[k].PrefixPiece? || parts[k].SuffixPiece? || parts[k].InfixPiece? || parts[k].TernaryPiece? || parts[k].CallParams? || parts[k].IndexParams?)
    ensures r.Reported? ==> r.d.pos == parts[k].pos
  {
    var before := At(parts, k - 1);
    var after := At(parts, k + 1);
    match parts[k]
    case PrefixPiece(id, pos) =>
      (match ParsePrefix(after, id, pos, po)
       case Some(e) =>
         assert Replaced(parts, Splice(parts, k, k + 2, e), k, k, k + 2, e);
         Reduced(Splice(parts, k, k + 2, e))
       case None => Reported(Diagnostic("Expected Expression (Prefix)", "expected expression after this operator", pos)))
    case SuffixPiece(id, pos) =>
      (match ParseSuffix(before, id, pos, po)
       case Some(e) =>
         assert Replaced(parts, Splice(parts, k - 1, k + 1, e), k, k - 1, k + 1, e);
         Reduced(Splice(parts, k - 1, k + 1, e))
       case None => Reported(Diagnostic("Expected Expression (Suffix)", "expected expression before this operator", pos)))
    case InfixPiece(id, pos) =>
      (match ParseInfix(before, after, id, pos, po)
       case Some(e) =>
         assert Replaced(parts, Splice(parts, k - 1, k + 2, e), k, k - 1, k + 2, e);
         Reduced(Splice(parts, k - 1, k + 2, e))
       case None => Reported(Diagnostic("Expected Expression (Infix)", "expected expressions to surrond this operator", pos)))
    case TernaryPiece(id, branch, pos) =>
      (match ParseTernary(before, after, branch, id, po)
       case Folded(e) =>
         assert Replaced(parts, Splice(parts, k - 1, k + 2, e), k, k - 1, k + 2, e);
         Reduced(Splice(parts, k - 1, k + 2, e))
       case TernaryError(code) =>
         if code == 3 then Reported(Diagnostic("Expected Expression (Ternary)", "expected expression after ternary", pos))
         else Reported(Diagnostic("Expected Expression (Ternary)", "expected expressions to surrond this operator", pos)))
    case CallParams(items, pos) =>
      (match ParseFunctionCall(before, items, pos, po)
       case Some(e) =>
         assert Replaced(parts, Splice(parts, k - 1, k + 1, e), k, k - 1, k + 1, e);
         Reduced(Splice(parts, k - 1, k + 1, e))
       case None => Reported(Diagnostic("Expected Expression", "expected expression before function call", pos)))
    case IndexParams(items, pos) =>
      (match ParseArrayAccess(before, items, pos, po)
       case Some(e) =>
         assert Replaced(parts, Splice(parts, k - 1, k + 1, e), k, k - 1, k + 1, e);
         Reduced(Splice(parts, k - 1, k + 1, e))
       case None => Reported(Diagnostic("Expected Expression", "expected expression before array access", pos)))
    case _ => Unsupported
  }

  /** A replacement keeps the operator pieces in range and shrinks the list. */
  lemma ReplacedInRange(parts: seq<Piece>, next: seq<Piece>, k: nat, lo: nat, hi: nat, e: Expression, ops: OperatorTable)
    requires PiecesInRange(parts, ops) && Replaced(parts, next, k, lo, hi, e)
    ensures PiecesInRange(next, ops) && |next| < |parts|
  {
    forall i | 0 <= i < |next|
      ensures PieceInRange(next[i], ops)
    {
      if i > lo {
        assert next[i] == parts[hi + i - lo - 1];
      }
    }
  }

  /**
   * How reducing the pieces ends: with the expression, with a reported
   * error, with a last piece that is no expression, with a piece the
   * reducer does not support, or stuck with no operator to apply (the
   * source panics there).
   */
  datatype Reduction = Built(e: Expression) | Diagnosed(d: Diagnostic) | NotExpression | NoSupport | Stuck

  /** The expression a reduction yields: anything but a built one is `Invalid`. */
  function ResultOf(r: Reduction): (e: Expression)
    ensures r.Built? ==> e == r.e
    ensures !r.Built? ==> e == Invalid
  {
    if r.Built? then r.e else Invalid
  }

  /**
   * The loop of `parse_expr_parts` and what follows it: while more than one
   * piece is left, the next operator is folded; one remaining expression is
   * the result, and no piece at all is reported at `start`.
   */
  function Fold(parts: seq<Piece>, ops: OperatorTable, po: PieceOracles, start: Position): (r: Reduction)
    requires PiecesInRange(parts, ops)
    ensures |parts| == 0 <==> r == Diagnosed(Diagnostic("COULD NOT PRINT EXPR", "expression is broken", start)) && |parts| <= 1
    decreases |parts|
  {
    if |parts| == 0 then Diagnosed(Diagnostic("COULD NOT PRINT EXPR", "expression is broken", start))
    else if |parts| == 1 then (if parts[0].ExprPiece? then Built(parts[0].expr) else NotExpression)
    else match NextOperator(parts, ops)
      case None => Stuck
      case Some(k) =>
        match ReduceStep(parts, k, ops, po)
        case Reduced(next) =>
          var lo: nat, hi: nat, e :| Replaced(parts, next, k, lo, hi, e);
          ReplacedInRange(parts, next, k, lo, hi, e, ops);
          Fold(next, ops, po, start)
        case Reported(d) => Diagnosed(d)
        case Unsupported => NoSupport
  }

  /** `parse_expr_parts`: a lone piece is converted to an expression first. */
  function Reduce(parts: seq<Piece>, ops: OperatorTable, po: PieceOracles, start: Position): (r: Reduction)
    requires PiecesInRange(parts, ops)
    ensures |parts| == 1 ==> (r.Built? <==> ExpressionFromPiece(parts[0], po).Some?)
    ensures |parts| == 1 && r.Built? ==> r.e == ExpressionFromPiece(parts[0], po).value
  {
    if |parts| == 1 then
      match ExpressionFromPiece(parts[0], po)
      case Some(e) => Built(e)
      case None => NotExpression
    else Fold(parts, ops, po, start)
  }

  /** A value, an infix operator binding tighter than plain pieces, and a value fold to that operator's expression. */
  lemma InfixBetweenValuesFolds(a: string, pa: Position, id: nat, pos: Position, b: string, pb: Position, ops: OperatorTable, po: PieceOracles, start: Position)
    requires id < |ops.infix| && ops.infix[id].priority > -2
    ensures var parts := [ValuePiece(a, pa), InfixPiece(id, pos), ValuePiece(b, pb)];
      NextOperator(parts, ops) == Some(1) &&
      Reduce(parts, ops, po, start) == Built(ParseInfix(Some(ValuePiece(a, pa)), Some(ValuePiece(b, pb)), id, pos, po).value)
  {
    var parts := [ValuePiece(a, pa), InfixPiece(id, pos), ValuePiece(b, pb)];
    assert PiecesInRange(parts, ops) by {
      assert forall i :: 0 <= i < |parts| ==> PieceInRange(parts[i], ops);
    }
    var e := ParseInfix(Some(ValuePiece(a, pa)), Some(ValuePiece(b, pb)), id, pos, po).value;
    assert ReduceStep(parts, 1, ops, po) == Reduced([ExprPiece(e)]);
    assert Fold([ExprPiece(e)], ops, po, start) == Built(e);
  }

  /**
   * The operands of an infix operator as `parse_infix` reads them from the
   * list the operator was removed from, as written: the source indexes
   * `k - 1` and `k` unchecked, so `None` marks where it panics.
   */
  function InfixOperandsAsWritten(rest: seq<Piece>, k: nat): (r: Option<(Piece, Piece)>)
    ensures r.Some? <==> 1 <= k < |rest|
    ensures r.Some? ==> r.value.0 == rest[k - 1] && r.value.1 == rest[k]
  {
    if 1 <= k < |rest| then Some((rest[k - 1], rest[k])) else None
  }

  /**
   * An expression that ends on an infix operator (`a +` at the end of the
   * text or before an end character) leaves a value and the operator; the
   * operator is chosen, and the source's read of the operand after it is
   * out of range.
   */
  lemma TrailingInfixPanics(a: string, pa: Position, id: nat, pos: Position, ops: OperatorTable)
    requires id < |ops.infix| && ops.infix[id].priority > -2
    ensures var parts := [ValuePiece(a, pa), InfixPiece(id, pos)];
      PiecesInRange(parts, ops) && NextOperator(parts, ops) == Some(1) &&
      InfixOperandsAsWritten(parts[..1] + parts[2..], 1).None?
  {
    var parts := [ValuePiece(a, pa), InfixPiece(id, pos)];
    assert PiecesInRange(parts, ops) by {
      assert forall i :: 0 <= i < |parts| ==> PieceInRange(parts[i], ops);
    }
    assert Beats(parts, ops, 1, -3);
    assert PiecePriority(parts[0], ops).0 < PiecePriority(parts[1], ops).0;
  }

  /** With the checked reads, the same pieces report the missing operand at the operator. */
  lemma TrailingInfixReported(a: string, pa: Position, id: nat, pos: Position, ops: OperatorTable, po: PieceOracles, start: Position)
    requires id < |ops.infix| && ops.infix[id].priority > -2
    ensures var parts := [ValuePiece(a, pa), InfixPiece(id, pos)];
      PiecesInRange(parts, ops) &&
      Reduce(parts, ops, po, start) == Diagnosed(Diagnostic("Expected Expression (Infix)", "expected expressions to surrond this operator", pos))
  {
    TrailingInfixPanics(a, pa, id, pos, ops);
  }

  /**
   * The operand of a prefix operator as `parse_prefix` reads it from the
   * list the operator was removed from, as written: the source indexes `k`
   * unchecked, so `None` marks where it panics.
   */
  function PrefixOperandAsWritten(rest: seq<Piece>, k: nat): (r: Option<Piece>)
    ensures r.Some? <==> k < |rest|
    ensures r.Some? ==> r.value == rest[k]
  {
    if k < |rest| then Some(rest[k]) else None
  }

  /**
   * An expression that ends on a prefix operator after an infix one
   * (`a + !` before an end character) leaves a value and the two
   * operators; the prefix operator, binding tighter, is chosen, and the
   * source's read of the operand after it is out of range.
   */
  lemma TrailingPrefixPanics(a: string, pa: Position, i: nat, pi: Position, j: nat, pj: Position, ops: OperatorTable)
    requires i < |ops.infix| && j < |ops.prefix|
    requires -2 < ops.infix[i].priority < ops.prefix[j].priority
    ensures var parts := [ValuePiece(a, pa), InfixPiece(i, pi), PrefixPiece(j, pj)];
      PiecesInRange(parts, ops) && NextOperator(parts, ops) == Some(2) &&
      PrefixOperandAsWritten(parts[..2] + parts[3..], 2).None?
  {
    var parts := [ValuePiece(a, pa), InfixPiece(i, pi), PrefixPiece(j, pj)];
    assert PiecesInRange(parts, ops) by {
      assert forall n :: 0 <= n < |parts| ==> PieceInRange(parts[n], ops);
    }
    assert Beats(parts, ops, 2, -3);
    assert PiecePriority(parts[0], ops).0 < PiecePriority(parts[2], ops).0;
    assert PiecePriority(parts[1], ops).0 < PiecePriority(parts[2], ops).0;
  }

  /** With the checked read, the same pieces report the missing operand at the prefix operator. */
  lemma TrailingPrefixReported(a: string, pa: Position, i: nat, pi: Position, j: nat, pj: Position, ops: OperatorTable, po: PieceOracles, start: Position)
    requires i < |ops.infix| && j < |ops.prefix|
    requires -2 < ops.infix[i].priority < ops.prefix[j].priority
    ensures var parts := [ValuePiece(a, pa), InfixPiece(i, pi), PrefixPiece(j, pj)];
      PiecesInRange(parts, ops) &&
      Reduce(parts, ops, po, start) == Diagnosed(Diagnostic("Expected Expression (Prefix)", "expected expression after this operator", pj))
  {
    TrailingPrefixPanics(a, pa, i, pi, j, pj, ops);
  }

  /**
   * The first character `parse_next_suffix_operator` reads, at `i`, as
   * written: the read is unchecked, so `None` marks where it panics.
   */
  function SuffixStartAsWritten(s: string, i: nat): (r: Option<char>)
    ensures r.Some? <==> i < |s|
    ensures r.Some? ==> r.value == s[i]
  {
    if i < |s| then Some(s[i]) else None
  }

  /**
   * After the value `a` of the text "a ", the end-character check moves
   * over the trailing blank to the end of the text, and the suffix step
   * then reads one past the last character.
   */
  lemma TrailingBlankSuffixPanics(line: nat)
    ensures var w := Whitespace("a ", Cur(1, line, false)).0;
      w.index == 2 && w.oos && SuffixStartAsWritten("a ", w.index).None?
  {
    var c := Cur(1, line, false);
    assert OnSpace("a ", c);
    assert Inc("a ", c) == Cur(2, line, true);
  }

  class ExpressionParser {
    /** The text being parsed: the whole content of the cursor. */
    const exprStr: string
    const ops: OperatorTable
    /** `end_data.until_chars`: characters that end the expression. */
    const untilChars: seq<char>
    /** `position.start_position`. */
    const startPosition: Position
    /** `position.line_offset`: newlines skipped inside the expression. */
    var lineOffset: nat
    var parts: seq<Piece>
    /** `end_data.end_index`. */
    var endIndex: nat
    /** `end_data.reason`. */
    var reason: EndReason

    /**
     * The initial state `ExpressionParser::new` builds before it parses;
     * no end characters means none.
     */
    constructor(p: Parser, start: Position, table: OperatorTable, endChars: Option<seq<char>>)
      ensures exprStr == p.chars && ops == table && startPosition == start
      ensures untilChars == endChars.UnwrapOr([])
      ensures lineOffset == 0 && parts == [] && endIndex == 0 && reason == Unknown
    {
      exprStr := p.chars;
      ops := table;
      untilChars := endChars.UnwrapOr([]);
      startPosition := start;
      lineOffset := 0;
      parts := [];
      endIndex := 0;
      reason := Unknown;
    }

    /** `set_end_reason`: only the first reason sticks. */
    method SetEndReason(r: EndReason) returns (recorded: bool)
      modifies this`reason
      ensures recorded <==> old(reason) == Unknown
      ensures reason == if recorded then r else old(reason)
    {
      if reason == Unknown {
        reason := r;
        return true;
      }
      return false;
    }

    /** `index_within_bounds`: at the end of the text the end index and EndOfContent are recorded. */
    method IndexWithinBounds(p: Parser) returns (within: bool)
      modifies this`endIndex, this`reason
      ensures within <==> p.index < |exprStr|
      ensures within ==> endIndex == old(endIndex) && reason == old(reason)
      ensures !within ==> endIndex == p.index && reason == (if old(reason) == Unknown then EndOfContent else old(reason))
    {
      if p.index >= |exprStr| {
        endIndex := p.index;
        var _ := SetEndReason(EndOfContent);
        return false;
      }
      return true;
    }

    /**
     * `parse_next_whitespace`: how far blank text reaches, without moving
     * the cursor (its end flag keeps what the attempt left); the newlines
     * passed are added to the line offset.
     */
    method ParseNextWhitespace(p: Parser) returns (spaceOffset: nat)
      modifies this`lineOffset, p
      ensures p.index == old(p.index) && p.line == old(p.line)
      ensures old(p.index) >= |p.chars| ==> spaceOffset == 0 && lineOffset == old(lineOffset) && p.outOfSpace == old(p.outOfSpace)
      ensures old(p.index) < |p.chars| ==>
        var w := Whitespace(p.chars, old(p.State())).0;
        spaceOffset == w.index - old(p.index) && lineOffset == old(lineOffset) + (w.line - old(p.line)) && p.outOfSpace == w.oos
    {
      if p.index >= |p.chars| {
        return 0;
      }
      var oldIndex := p.index;
      var oldLine := p.line;
      var _ := p.ParseWhitespace();
      spaceOffset := p.index - oldIndex;
      lineOffset := lineOffset + (p.line - oldLine);
      p.line := oldLine;
      p.index := oldIndex;
    }

    /**
     * `check_for_end_char`: moves over blank text; on a character that ends
     * the expression, records it and where it is.
     */
    method CheckForEndChar(p: Parser) returns (reached: bool)
      requires p.Parked()
      modifies this`lineOffset, this`endIndex, this`reason, p
      ensures p.line == old(p.line) && p.Parked()
      ensures old(p.index) < |p.chars| ==> p.index == Whitespace(p.chars, old(p.State())).0.index
      ensures reached <==> p.Curr() in untilChars
      ensures reached ==> endIndex == p.index && reason == (if old(reason) == Unknown then ReachedChar(p.Curr()) else old(reason))
      ensures !reached ==> endIndex == old(endIndex) && reason == old(reason)
    {
      var space := ParseNextWhitespace(p);
      p.index := p.index + space;
      var c := p.Curr();
      if c in untilChars {
        endIndex := p.index;
        var _ := SetEndReason(ReachedChar(c));
        return true;
      }
      return false;
    }

    /**
     * `generate_pos`: a position in the source file. Until a newline has
     * been passed the start is offset by where the expression starts;
     * after one it is taken as it is (the source subtracts `line_start`,
     * which stays 0).
     */
    function GeneratePos(start: nat, end: Option<nat>): (r: Position)
      reads this
      ensures r.file == startPosition.file && r.line == Some(startPosition.line.UnwrapOr(1) + lineOffset)
      ensures r.end.Some? <==> end.Some?
    {
      Position(startPosition.file, Some(startPosition.line.UnwrapOr(1) + lineOffset),
        if lineOffset == 0 then start + startPosition.start else start,
        if end.None? then None else Some(if lineOffset == 0 then end.value + startPosition.start else end.value))
    }

    /** Positions keep the order and the distance of the indices they are made from. */
    lemma GeneratePosKeepsOrder(start: nat, end: nat)
      requires start <= end
      ensures var r := GeneratePos(start, Some(end));
        r.start <= r.end.value && r.end.value - r.start == end - start
      ensures lineOffset == 0 ==> GeneratePos(start, None).start - startPosition.start == start
    {
    }

    /**
     * `parse_next_operator`: after blank text, the operator of the group
     * spelled there, pushed as a piece, with the cursor moved past it. The
     * spelling consumed is exactly the operator's name. At the end of the
     * text it records EndOfContent (when no reason is known yet).
     */
    method ParseNextOperator(p: Parser, kind: OpKind) returns (ok: bool)
      requires p.chars == exprStr
      modifies this`parts, this`lineOffset, this`endIndex, this`reason, p
      ensures p.line == old(p.line)
      ensures reason == old(reason) || (old(reason) == Unknown && reason == EndOfContent)
      ensures old(p.index) < |exprStr| ==> reason == old(reason)
      ensures !ok ==> parts == old(parts) && p.index == old(p.index)
      ensures ok ==> old(p.index) < |exprStr|
      ensures old(parts) <= parts
      ensures ok ==>
        exists id: nat :: OperatorAt(exprStr, Whitespace(exprStr, old(p.State())).0.index, ops.Of(kind), id) &&
          var start := Whitespace(exprStr, old(p.State())).0.index;
          var len := |ops.Of(kind)[id].name.value|;
          p.index == start + len &&
          parts == old(parts) + OperatorPieces(kind, id, GeneratePos(start, Some(start + len)))
    {
      var within := IndexWithinBounds(p);
      if !within {
        return false;
      }
      ok := OperatorAfterSpace(p, kind);
    }

    /** The operator of the group spelled after the whitespace, from a cursor inside the text. */
    method OperatorAfterSpace(p: Parser, kind: OpKind) returns (ok: bool)
      requires p.chars == exprStr && p.index < |exprStr|
      modifies this`parts, this`lineOffset, p
      ensures p.line == old(p.line)
      ensures !ok ==> parts == old(parts) && p.index == old(p.index)
      ensures old(parts) <= parts
      ensures ok ==>
        exists id: nat :: OperatorAt(exprStr, Whitespace(exprStr, old(p.State())).0.index, ops.Of(kind), id) &&
          var start := Whitespace(exprStr, old(p.State())).0.index;
          var len := |ops.Of(kind)[id].name.value|;
          p.index == start + len &&
          parts == old(parts) + OperatorPieces(kind, id, GeneratePos(start, Some(start + len)))
    {
      var start := NextStart(p);
      if start > |exprStr| {
        // Only after a `//` comment that runs to the end of the text; the
        // source slices out of range here.
        return false;
      }
      ghost var id;
      ok, id := PushOperator(p, kind, start);
    }

    /** The operator of the group spelled at `start`, pushed as a piece, with the cursor moved past it. */
    method PushOperator(p: Parser, kind: OpKind, start: nat) returns (ok: bool, ghost id: nat)
      requires start <= |exprStr|
      modifies this`parts, p`index
      ensures !ok ==> parts == old(parts) && p.index == old(p.index)
      ensures old(parts) <= parts
      ensures ok ==> OperatorAt(exprStr, start, ops.Of(kind), id)
      ensures ok ==> var len := |ops.Of(kind)[id].name.value|;
        p.index == start + len &&
        parts == old(parts) + OperatorPieces(kind, id, GeneratePos(start, Some(start + len)))
    {
      var m := MatchOperator(exprStr, start, ops.Of(kind));
      if m.None? {
        return false, 0;
      }
      var (found, len) := m.value;
      id := found;
      assert OperatorAt(exprStr, start, ops.Of(kind), id);
      parts := parts + OperatorPieces(kind, found, GeneratePos(start, Some(start + len)));
      p.index := start + len;
      ok := true;
    }

    /**
     * `parse_next_suffix_operator`: a bracket after the value opens a call
     * or index group (parsed by the nested parser); anything else is looked
     * up as a suffix operator. At the end of the text there is none.
     */
    method ParseNextSuffixOperator(p: Parser, nested: NestedOracles) returns (ok: bool)
      requires p.chars == exprStr
      modifies this`parts, this`lineOffset, this`endIndex, this`reason, p
      ensures reason == old(reason) || (old(reason) == Unknown && reason == EndOfContent)
      ensures var w := Whitespace(exprStr, old(p.State())).0;
        old(p.index) < |exprStr| && w.index < |exprStr| && IsGroupChar(exprStr[w.index]) ==>
          var g := nested.group(exprStr, Cur(w.index + 1, old(p.line), w.oos));
          ok == g.parsed && p.State() == g.cursor && parts == old(parts) + g.pieces
      ensures var w := Whitespace(exprStr, old(p.State())).0;
        old(p.index) >= |exprStr| || w.index >= |exprStr| ==> !ok && parts == old(parts)
      ensures old(parts) <= parts
    {
      var i := NextStart(p);
      if i >= |exprStr| {
        return false;
      }
      var startChar := exprStr[i];
      if IsGroupChar(startChar) {
        p.index := i + 1;
        ok := ParseGroup(p, nested);
        return;
      }
      ok := ParseNextOperator(p, SuffixKind);
    }

    /** Where the next operator would start: past the whitespace, or the end of the text. */
    method NextStart(p: Parser) returns (i: nat)
      requires p.chars == exprStr
      modifies this`lineOffset, p
      ensures p.index == old(p.index) && p.line == old(p.line)
      ensures old(p.index) >= |exprStr| ==> i >= |exprStr| && p.outOfSpace == old(p.outOfSpace)
      ensures old(p.index) < |exprStr| ==>
        var w := Whitespace(exprStr, old(p.State())).0;
        i == w.index && p.State() == Cur(old(p.index), old(p.line), w.oos)
    {
      var space := ParseNextWhitespace(p);
      i := p.index + space;
    }

    /** The call or index group whose opening bracket was just passed, read by the nested parser. */
    method ParseGroup(p: Parser, nested: NestedOracles) returns (ok: bool)
      requires p.chars == exprStr
      modifies this`parts, p
      ensures var g := nested.group(exprStr, old(p.State()));
        ok == g.parsed && p.State() == g.cursor && parts == old(parts) + g.pieces
    {
      var g := nested.group(exprStr, p.State());
      p.MoveTo(g.cursor);
      parts := parts + g.pieces;
      return g.parsed;
    }

    /**
     * `parse_value`: at the end of the text there is none (EndOfContent is
     * recorded); otherwise the nested parsers read it.
     */
    method ParseValue(p: Parser, nested: NestedOracles) returns (ok: bool)
      modifies this`parts, this`endIndex, this`reason, p
      ensures reason == old(reason) || (old(reason) == Unknown && reason == EndOfContent)
      ensures old(p.index) >= |exprStr| ==> !ok && parts == old(parts)
      ensures old(p.index) < |exprStr| ==> reason == old(reason)
      ensures old(p.index) < |exprStr| ==>
        var v := nested.value(p.chars, old(p.State()));
        ok == v.parsed && p.State() == v.cursor && parts == old(parts) + v.pieces
    {
      var within := IndexWithinBounds(p);
      if !within {
        return false;
      }
      var v := nested.value(p.chars, p.State());
      p.MoveTo(v.cursor);
      parts := parts + v.pieces;
      return v.parsed;
    }

    /**
     * `parse`: one step of the state machine. A missing value ends it with
     * NoValueError; a missing infix operator ends it with EndOfExpression,
     * unless the end of the text was recorded first.
     */
    method Parse(p: Parser, state: ParseState, nested: NestedOracles) returns (next: ParseState, succeeded: bool)
      requires p.chars == exprStr && state != EndState
      modifies this`parts, this`lineOffset, this`endIndex, this`reason, p
      ensures next == NextState(state, succeeded).0
      ensures next == EndState ==> reason != Unknown
      ensures old(reason) != Unknown ==> reason == old(reason)
      ensures state == ValueState && !succeeded && old(reason) == Unknown ==> reason in {NoValueError, EndOfContent}
      ensures state == ValueState && !succeeded && old(reason) == Unknown && old(p.index) < |exprStr| ==> reason == NoValueError
      ensures state == InfixState && !succeeded && old(reason) == Unknown && old(p.index) < |exprStr| ==> reason == EndOfExpression
      ensures state == InfixState && !succeeded && old(reason) == Unknown ==> reason in {EndOfExpression, EndOfContent}
      ensures old(parts) <= parts
    {
      succeeded := false;
      match state {
        case PrefixState =>
          succeeded := ParseNextOperator(p, PrefixKind);
        case ValueState =>
          succeeded := ParseValue(p, nested);
          if !succeeded {
            var _ := SetEndReason(NoValueError);
          }
        case SuffixState =>
          succeeded := ParseNextSuffixOperator(p, nested);
        case InfixState =>
          succeeded := ParseNextOperator(p, InfixKind);
          if !succeeded {
            var _ := SetEndReason(EndOfExpression);
          }
      }
      next := NextState(state, succeeded).0;
    }

    /**
     * `parse_expr_str`: steps until the text runs out, an end character is
     * reached or the machine ends, within `fuel` steps. Whenever it stops
     * on its own, a reason is recorded.
     */
    method ParseExprStr(p: Parser, nested: NestedOracles, fuel: nat) returns (stopped: bool)
      requires p.chars == exprStr && p.Parked()
      modifies this`parts, this`lineOffset, this`endIndex, this`reason, p
      ensures stopped ==> reason != Unknown
      ensures old(reason) != Unknown ==> reason == old(reason)
      ensures old(parts) <= parts
    {
      var state := PrefixState;
      var steps := fuel;
      while steps > 0
        invariant p.chars == exprStr && state != EndState
        invariant old(reason) != Unknown ==> reason == old(reason)
        invariant old(parts) <= parts
        decreases steps
      {
        var within := IndexWithinBounds(p);
        if !within {
          return true;
        }
        var reached := CheckForEndChar(p);
        if reached {
          return true;
        }
        var succeeded;
        state, succeeded := Parse(p, state, nested);
        if state == EndState {
          return true;
        }
        steps := steps - 1;
      }
      return false;
    }

    /** `get_next_operator`: the piece the reducer folds next. */
    method GetNextOperator() returns (r: Option<nat>)
      requires PiecesInRange(parts, ops)
      ensures r == NextOperator(parts, ops)
      ensures r.Some? ==> IsNextOperator(parts, ops, r.value)
    {
      r := None;
      var priority := -3;
      for i := 0 to |parts|
        invariant ScanInv(parts, ops, i, r)
        invariant priority == BestPriority(parts, ops, r)
        invariant ScanFrom(parts, ops, i, r) == NextOperator(parts, ops)
      {
        ScanStep(parts, ops, i, r);
        var (p, reverse) := PiecePriority(parts[i], ops);
        if p > priority || (p == priority && reverse) {
          r := Some(i);
          priority := p;
        }
      }
    }

    /**
     * `parse_expr_parts`: folds the pieces into one expression, returning
     * it with how the reduction ended; anything but a built expression
     * yields `Invalid`. The last piece is taken out of the list.
     */
    method ReduceParts(po: PieceOracles) returns (e: Expression, outcome: Reduction)
      requires PiecesInRange(parts, ops)
      modifies this`parts
      ensures outcome == Reduce(old(parts), ops, po, startPosition)
      ensures e == ResultOf(outcome)
    {
      if |parts| == 1 {
        var single := ExpressionFromPiece(parts[0], po);
        if single.None? {
          return Invalid, NotExpression;
        }
        parts := [ExprPiece(single.value)];
      }
      while |parts| > 1
        invariant PiecesInRange(parts, ops)
        invariant Reduce(old(parts), ops, po, startPosition) == Fold(parts, ops, po, startPosition)
        decreases |parts|
      {
        var k := GetNextOperator();
        if k.None? {
          return Invalid, Stuck;
        }
        var step := ReduceStep(parts, k.value, ops, po);
        match step {
          case Reduced(next) =>
            ghost var lo: nat, hi: nat, x :| Replaced(parts, next, k.value, lo, hi, x);
            ReplacedInRange(parts, next, k.value, lo, hi, x, ops);
            parts := next;
          case Reported(d) =>
            return Invalid, Diagnosed(d);
          case Unsupported =>
            return Invalid, NoSupport;
        }
      }
      if |parts| == 0 {
        return Invalid, Diagnosed(Diagnostic("COULD NOT PRINT EXPR", "expression is broken", startPosition));
      }
      var last := parts[0];
      parts := parts[1..];
      if last.ExprPiece? {
        return last.expr, Built(last.expr);
      }
      return Invalid, NotExpression;
    }
  }
}
