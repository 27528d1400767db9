// The flat pieces an expression is tokenised into before the reducer folds
// them into a tree, and the rules for folding one operator
// (src/expression/expression_piece.rs).

module ExpressionPieces {
  import opened Text
  import opened Wrappers
  import opened Scan
  import opened ValueTypes
  import opened VariableTypes
  import opened Expressions

  /**
   * `ExpressionPiece`. Operator pieces carry their id in the operator
   * table; the bracketed groups carry the expressions already parsed inside
   * them. (The source's `Function` piece wraps a variant `Expression` does
   * not have and is not part of this model.)
   */
  datatype Piece =
    | ExprPiece(expr: Expression)
    | PrefixPiece(id: nat, pos: Position)
    | ValuePiece(text: string, pos: Position)
    | SuffixPiece(id: nat, pos: Position)
    | InfixPiece(id: nat, pos: Position)
    | TernaryPiece(id: nat, branch: Expression, pos: Position)
    | EncapsulatedPiece(items: seq<Expression>, pos: Position)
    | InitializerPiece(items: seq<Expression>, pos: Position)
    | CallParams(items: seq<Expression>, pos: Position)
    | IndexParams(items: seq<Expression>, pos: Position)
    | TypePiece(vt: VariableType, pos: Position)

  /**
   * The callees of the piece code that are not part of this model: number
   * literal classification (`NumberType::from_value_text`), the typing
   * context lookup of a name, `VariableType::to_cpp`, and the type queries
   * `check_accessor_content`, `is_inferred_style`, `is_inferred`, the class
   * field lookup after `resolve`, `compare_types`, the static extension
   * lookup, `resolve_quantum_function` and `get_function_call_return`.
   */
  datatype PieceOracles = PieceOracles(
    types: TypeOracle,
    numberType: string -> NumberType,
    lookup: string -> Option<VariableType>,
    typeToCpp: VariableType -> string,
    accessorContent: (VariableType, string) -> Option<VariableType>,
    isInferredStyle: VariableType -> bool,
    isInferred: VariableType -> bool,
    classField: (VariableType, string) -> Option<VariableType>,
    compareTypes: (VariableType, VariableType) -> Option<VariableType>,
    staticExtension: (string, VariableType) -> Option<(string, VariableType, VariableType)>,
    resolveCall: (VariableType, seq<Expression>) -> VariableType,
    callReturn: VariableType -> Option<VariableType>)

  // ----- types of bracketed groups -----

  /** The type of every item, in order. */
  function ItemTypes(items: seq<Expression>, to: TypeOracle): (r: seq<VariableType>)
    ensures |r| == |items| && forall i :: 0 <= i < |items| ==> r[i] == GetType(items[i], to)
  {
    seq(|items|, i requires 0 <= i < |items| => GetType(items[i], to))
  }

  /** Every item has type `t`. */
  predicate AllOfType(items: seq<Expression>, t: VariableType, to: TypeOracle) {
    forall i :: 0 <= i < |items| ==> GetType(items[i], to) == t
  }

  /**
   * `get_encapsulated_type`: a parenthesised group is a tuple of its item
   * types, or the type of its only item; an initializer list is
   * `initializer_list(T)` when all its items share T; an expression piece
   * has its expression's type; everything else has none.
   */
  function EncapsulatedType(p: Piece, to: TypeOracle): Option<VariableType> {
    match p
    case EncapsulatedPiece(items, _) =>
      if |items| > 1 then Some(to.tuple(ItemTypes(items, to)))
      else if |items| == 1 then Some(GetType(items[0], to))
      else None
    case InitializerPiece(items, _) =>
      if |items| > 0 && AllOfType(items, GetType(items[0], to), to) then Some(to.initializerList(GetType(items[0], to)))
      else None
    case ExprPiece(e) => Some(GetType(e, to))
    case _ => None
  }

  /** An initializer list has a type exactly when it is non-empty and uniform, and that type wraps the shared item type. */
  lemma InitializerListType(items: seq<Expression>, pos: Position, t: VariableType, to: TypeOracle)
    ensures |items| > 0 && AllOfType(items, t, to) ==> EncapsulatedType(InitializerPiece(items, pos), to) == Some(to.initializerList(t))
    ensures EncapsulatedType(InitializerPiece(items, pos), to).Some? <==> |items| > 0 && AllOfType(items, GetType(items[0], to), to)
  {
  }

  /** A group of two or more items is typed as the tuple of their types, in order. */
  lemma GroupIsTuple(items: seq<Expression>, pos: Position, to: TypeOracle)
    requires |items| > 1
    ensures EncapsulatedType(EncapsulatedPiece(items, pos), to).Some?
    ensures var t := EncapsulatedType(EncapsulatedPiece(items, pos), to).value;
      exists ts :: t == to.tuple(ts) && |ts| == |items| && forall i :: 0 <= i < |items| ==> ts[i] == GetType(items[i], to)
  {
    var ts := ItemTypes(items, to);
    assert EncapsulatedType(EncapsulatedPiece(items, pos), to).value == to.tuple(ts);
  }

  /** `get_encapsulated_type`, with the loops of the source. */
  method GetEncapsulatedType(p: Piece, to: TypeOracle) returns (r: Option<VariableType>)
    ensures r == EncapsulatedType(p, to)
  {
    match p {
      case EncapsulatedPiece(items, _) =>
        if |items| > 1 {
          var result: seq<VariableType> := [];
          for i := 0 to |items|
            invariant result == ItemTypes(items[..i], to)
          {
            result := result + [GetType(items[i], to)];
          }
          assert items[..|items|] == items;
          r := Some(to.tuple(result));
        } else if |items| == 1 {
          r := Some(GetType(items[0], to));
        } else {
          r := None;
        }
      case InitializerPiece(items, _) =>
        if |items| > 0 {
          var curr: Option<VariableType> := None;
          var i := 0;
          while i < |items|
            invariant 0 <= i <= |items|
            invariant i == 0 <==> curr.None?
            invariant i > 0 ==> curr == Some(GetType(items[0], to)) && AllOfType(items[..i], GetType(items[0], to), to)
          {
            if curr.None? {
              curr := Some(GetType(items[i], to));
            } else if curr.value != GetType(items[i], to) {
              curr := None;
              break;
            }
            i := i + 1;
          }
          if curr.None? {
            r := None;
          } else {
            assert items[..|items|] == items;
            r := Some(to.initializerList(curr.value));
          }
        } else {
          r := None;
        }
      case ExprPiece(e) =>
        r := Some(GetType(e, to));
      case _ =>
        r := None;
    }
  }

  // ----- values -----

  /** `check_if_string`: a string literal starts at the beginning of the text. */
  predicate IsStringLiteral(value: string) {
    StringLit(value, Cur(0, 1, false)).1
  }

  /** `infer_type_from_value_string`. */
  function InferTypeFromValueString(value: string, po: PieceOracles): (r: VariableType)
    ensures value == "" ==> r == po.types.inferred
    ensures value != "" && IsDigit(value[0]) ==> r == po.types.copy(Type.Number(po.numberType(value)))
    ensures value == "true" || value == "false" ==> r == po.types.boolean
    ensures value != "" && !IsDigit(value[0]) && value[0] !in {'"', 'u', 'L', 'U', 'R'} && value != "true" && value != "false" ==>
      r == po.lookup(value).UnwrapOr(po.types.inferred)
  {
    if value == "" then po.types.inferred
    else if IsDigit(value[0]) then po.types.copy(Type.Number(po.numberType(value)))
    else if IsStringLiteral(value) then po.types.copy(Type.String(ConstCharArray))
    else if value == "true" || value == "false" then po.types.boolean
    else po.lookup(value).UnwrapOr(po.types.inferred)
  }

  /** A quoted literal is typed as a constant character array. */
  lemma QuotedValueIsString(value: string, po: PieceOracles)
    requires |value| >= 2 && value[0] == '"' && value[|value| - 1] == '"'
    requires forall k :: 0 < k < |value| - 1 ==> value[k] != '"' && value[k] != '\\'
    ensures InferTypeFromValueString(value, po) == po.types.copy(Type.String(ConstCharArray))
  {
    var c := Cur(0, 1, false);
    var j := Span(value, 1, NotChar('"'));
    SpanStopsAtQuote(value, 1, |value| - 1);
    PlainStringEndsAtQuote(value, c);
  }

  /** The first quote after index `from` ends the span of non-quotes. */
  lemma {:induction false} SpanStopsAtQuote(s: string, from: nat, q: nat)
    requires from <= q < |s| && s[q] == '"'
    requires forall k :: from <= k < q ==> s[k] != '"'
    ensures Span(s, from, NotChar('"')) == q
    decreases q - from
  {
    if from < q {
      SpanStopsAtQuote(s, from + 1, q);
    }
  }

  /** `get_expression_from_piece`: the expression a piece stands for, if any. */
  function ExpressionFromPiece(p: Piece, po: PieceOracles): (r: Option<Expression>)
    ensures r.Some? <==> !(p.PrefixPiece? || p.SuffixPiece? || p.InfixPiece? || p.TernaryPiece? || p.CallParams? || p.IndexParams?)
    ensures p.ExprPiece? ==> r == Some(p.expr)
    ensures p.ValuePiece? ==> r == Some(Value(p.text, InferTypeFromValueString(p.text, po), p.pos))
  {
    match p
    case ValuePiece(text, pos) => Some(Value(text, InferTypeFromValueString(text, po), pos))
    case ExprPiece(e) => Some(e)
    case EncapsulatedPiece(items, pos) => Some(Expressions(items, EncapsulatedType(p, po.types).UnwrapOr(po.types.inferred), pos))
    case InitializerPiece(items, pos) => Some(InitializerList(items, EncapsulatedType(p, po.types).UnwrapOr(po.types.inferred), pos))
    case TypePiece(vt, pos) => Some(Value(po.typeToCpp(vt), vt, pos))
    case _ => None
  }

  /** `get_type_from_piece`. */
  function TypeFromPiece(p: Piece): (r: Option<VariableType>)
    ensures r.Some? <==> p.TypePiece?
  {
    if p.TypePiece? then Some(p.vt) else None
  }

  /** `get_access_from_piece`: the text of a value piece. */
  function AccessFromPiece(p: Piece): (r: Option<string>)
    ensures r.Some? <==> p.ValuePiece?
  {
    if p.ValuePiece? then Some(p.text) else None
  }

  // ----- priorities -----

  /** Operator pieces name an operator of their group. */
  predicate PieceInRange(p: Piece, ops: OperatorTable) {
    match p
    case PrefixPiece(id, _) => id < |ops.prefix|
    case SuffixPiece(id, _) => id < |ops.suffix|
    case InfixPiece(id, _) => id < |ops.infix|
    case TernaryPiece(id, _, _) => id < |ops.ternary|
    case _ => true
  }

  predicate PiecesInRange(parts: seq<Piece>, ops: OperatorTable) {
    forall i :: 0 <= i < |parts| ==> PieceInRange(parts[i], ops)
  }

  /**
   * `get_piece_priority`: operator pieces take their table entry's priority
   * and direction, call and index groups bind at 950, and every other
   * piece is at -2.
   */
  function PiecePriority(p: Piece, ops: OperatorTable): (r: (int, bool))
    requires PieceInRange(p, ops)
    ensures (p.CallParams? || p.IndexParams?) ==> r == (950, false)
    ensures p.PrefixPiece? ==> r == (ops.prefix[p.id].priority, ops.prefix[p.id].reversePriority)
    ensures p.SuffixPiece? ==> r == (ops.suffix[p.id].priority, ops.suffix[p.id].reversePriority)
    ensures p.InfixPiece? ==> r == (ops.infix[p.id].priority, ops.infix[p.id].reversePriority)
    ensures p.TernaryPiece? ==> r == (ops.ternary[p.id].priority, ops.ternary[p.id].reversePriority)
    ensures !(p.PrefixPiece? || p.SuffixPiece? || p.InfixPiece? || p.TernaryPiece? || p.CallParams? || p.IndexParams?) ==> r == (-2, false)
  {
    match p
    case PrefixPiece(id, _) => (ops.prefix[id].priority, ops.prefix[id].reversePriority)
    case SuffixPiece(id, _) => (ops.suffix[id].priority, ops.suffix[id].reversePriority)
    case InfixPiece(id, _) => (ops.infix[id].priority, ops.infix[id].reversePriority)
    case TernaryPiece(id, _, _) => (ops.ternary[id].priority, ops.ternary[id].reversePriority)
    case CallParams(_, _) => (950, false)
    case IndexParams(_, _) => (950, false)
    case _ => (-2, false)
  }

  /** Piece `i` would replace a running choice of priority `best`. */
  predicate Beats(parts: seq<Piece>, ops: OperatorTable, i: nat, best: int)
    requires i < |parts| && PiecesInRange(parts, ops)
  {
    var (priority, reverse) := PiecePriority(parts[i], ops);
    priority > best || (priority == best && reverse)
  }

  /**
   * The piece `get_next_operator` settles on: it beats the starting
   * priority -3, no piece has a higher priority, an earlier piece of equal
   * priority is passed over only when this one binds to the right, and no
   * later piece of equal priority binds to the right.
   */
  predicate IsNextOperator(parts: seq<Piece>, ops: OperatorTable, k: nat)
    requires PiecesInRange(parts, ops)
  {
    k < |parts| && Beats(parts, ops, k, -3) &&
    (forall j :: 0 <= j < |parts| ==> PiecePriority(parts[j], ops).0 <= PiecePriority(parts[k], ops).0) &&
    (forall j :: 0 <= j < k ==> PiecePriority(parts[j], ops).0 < PiecePriority(parts[k], ops).0 || PiecePriority(parts[k], ops).1) &&
    (forall j :: k < j < |parts| ==> !Beats(parts, ops, j, PiecePriority(parts[k], ops).0))
  }

  /** At most one piece is the next operator: once piece `a` is, no later piece is. */
  lemma NextOperatorUnique(parts: seq<Piece>, ops: OperatorTable, a: nat, b: nat)
    requires PiecesInRange(parts, ops)
    requires a < b < |parts| && IsNextOperator(parts, ops, a)
    ensures !IsNextOperator(parts, ops, b)
  {
    var pa := PiecePriority(parts[a], ops);
    var pb := PiecePriority(parts[b], ops);
    if pb.0 == pa.0 {
      assert !Beats(parts, ops, b, pa.0);
    }
  }

  /** `expect_type`: the prefix operators 8 and 9 and the infix operator 6 take a type operand. */
  function ExpectType(id: nat, isPrefix: bool): (r: bool)
    ensures r <==> (isPrefix && (id == 8 || id == 9)) || (!isPrefix && id == 6)
  {
    if isPrefix then id == 8 || id == 9 else id == 6
  }

  // ----- folding one operator -----

  /**
   * `parse_prefix`, given the piece after the operator (`None` when there
   * is none). The numeric prefixes 0 to 3 take a numeric operand's type;
   * 8 gives an unsigned int and 9 the operand's written type.
   */
  function ParsePrefix(operand: Option<Piece>, id: nat, pos: Position, po: PieceOracles): (r: Option<Expression>)
    ensures r.Some? <==> operand.Some? && ExpressionFromPiece(operand.value, po).Some?
    ensures r.Some? ==> r.value.Prefix? && r.value.operand == ExpressionFromPiece(operand.value, po).value && r.value.id == id && r.value.pos == pos
    ensures r.Some? && id == 8 ==> r.value.t == po.types.copy(Type.Number(UInt))
  {
    if operand.None? then None
    else
      var result := ExpressionFromPiece(operand.value, po);
      if result.None? then None
      else
        var operandType := GetType(result.value, po.types);
        if ExpectType(id, true) then
          var written := TypeFromPiece(operand.value);
          Some(Prefix(result.value, id,
            if id == 8 then po.types.copy(Type.Number(UInt))
            else if written.Some? then written.value
            else po.types.inferred, pos))
        else
          var finalType := if id <= 3 && po.types.isNumber(operandType) then operandType else po.types.inferred;
          Some(Prefix(result.value, id, finalType, pos))
  }

  /** `parse_suffix`, given the piece before the operator. */
  function ParseSuffix(operand: Option<Piece>, id: nat, pos: Position, po: PieceOracles): (r: Option<Expression>)
    ensures r.Some? <==> operand.Some? && ExpressionFromPiece(operand.value, po).Some?
    ensures r.Some? ==> r == Some(Suffix(ExpressionFromPiece(operand.value, po).value, id, po.types.inferred, pos))
  {
    if operand.None? then None
    else
      var result := ExpressionFromPiece(operand.value, po);
      if result.None? then None else Some(Suffix(result.value, id, po.types.inferred, pos))
  }

  /** The comparison ids `<`, `<=` (18, 19) and `>`, `>=` (20, 21), and the id of logical and. */
  predicate IsComparison(id: nat) { 18 <= id <= 21 }
  const AndId: nat := 27

  /** `op` compares in the same direction as `id`. */
  predicate SameDirection(id: nat, op: nat) {
    (id < 20 && 18 <= op < 20) || (id >= 20 && 20 <= op <= 21)
  }

  /** The comparison with its operands swapped: `<` and `>`, `<=` and `>=`. */
  function Mirrored(id: nat): (r: nat)
    requires IsComparison(id)
    ensures IsComparison(r) && r % 2 == id % 2 && !SameDirection(r, id)
  {
    if id < 20 then id + 2 else id - 2
  }

  /**
   * The type `parse_infix` gives a fold of `left` and `right` that is not a
   * comparison chain: member access looks the member up, casts take the
   * target type (keeping the source style when the target's is inferred),
   * class access takes the field's type, and arithmetic and assignment
   * take a numeric left operand's type when nothing else decided it.
   */
  function InfixType(left: Expression, right: Expression, rightPiece: Piece, id: nat, po: PieceOracles): VariableType {
    var leftType := GetType(left, po.types);
    var rightType := GetType(right, po.types);
    var accessName := AccessFromPiece(rightPiece);
    var t0 :=
      if id <= 5 && id != 1 && accessName.Some? then po.accessorContent(leftType, accessName.value).UnwrapOr(po.types.inferred)
      else po.types.inferred;
    var t1 :=
      if 6 <= id <= 9 then
        (if po.isInferredStyle(rightType) then VariableType(rightType.varType, leftType.style, rightType.props) else rightType)
      else t0;
    var t2 :=
      if 2 <= id <= 5 && right.Value? then po.classField(leftType, right.text).UnwrapOr(t1)
      else t1;
    if ((10 <= id <= 14) || (24 <= id <= 26)) && po.types.isNumber(leftType) && po.isInferred(t2) then leftType else t2
  }

  /** The truth of comparison `id` between two numbers. */
  predicate Compares(id: nat, x: int, y: int)
    requires IsComparison(id)
  {
    if id == 18 then x < y else if id == 19 then x <= y else if id == 20 then x > y else x >= y
  }

  /**
   * The truth of a comparison, or of a conjunction of comparisons, when
   * `v` gives each operand its number; anything else does not hold.
   */
  predicate Holds(e: Expression, v: Expression -> int) {
    e.Infix? &&
    ((IsComparison(e.id) && Compares(e.id, v(e.left), v(e.right))) ||
     (e.id == AndId && Holds(e.left, v) && Holds(e.right, v)))
  }

  /** Swapping the operands of a comparison and mirroring it keeps its truth. */
  lemma MirroredSwaps(id: nat, x: int, y: int)
    requires IsComparison(id)
    ensures Compares(Mirrored(id), y, x) == Compares(id, x, y)
  {
  }

  /**
   * The chain `parse_infix` builds, as written, for `l id right` where `l`
   * is a comparison in the same direction: the first half swaps `l`'s
   * operands but mirrors `id`, the outer operator, and so loses `l`'s own.
   */
  function ChainAsWritten(l: Expression, right: Expression, id: nat, pos: Position, po: PieceOracles): (r: Expression)
    requires l.Infix? && IsComparison(id)
    ensures r.Infix? && r.id == AndId && r.left.Infix? && r.left.id == Mirrored(id)
  {
    var b := po.types.boolean;
    Infix(Infix(l.right, l.left, Mirrored(id), b, pos), Infix(l.right, right, id, b, pos), AndId, b, pos)
  }

  /**
   * The discrepancy: "a <= b < c" with a and b equal and c larger holds,
   * but the chain as written states b > a, which does not.
   */
  lemma ChainAsWrittenDropsInner(a: Expression, b: Expression, c: Expression, t: VariableType, innerPos: Position, pos: Position, po: PieceOracles, v: Expression -> int)
    requires v(a) == 1 && v(b) == 1 && v(c) == 2
    ensures Compares(19, v(a), v(b)) && Compares(18, v(b), v(c))
    ensures !Holds(ChainAsWritten(Infix(a, b, 19, t, innerPos), c, 18, pos, po), v)
  {
    var l := Infix(a, b, 19, t, innerPos);
    assert ChainAsWritten(l, c, 18, pos, po).left == Infix(b, a, 20, po.types.boolean, pos);
  }

  /**
   * The chain as intended: the first half is `l` itself with its operands
   * swapped and its own operator mirrored, the second compares the shared
   * middle operand with `right`.
   */
  function Chain(l: Expression, right: Expression, id: nat, pos: Position, po: PieceOracles): (r: Expression)
    requires l.Infix? && IsComparison(l.id) && IsComparison(id)
    ensures r.Infix? && r.id == AndId && r.left.Infix? && r.left.id == Mirrored(l.id)
  {
    var b := po.types.boolean;
    Infix(Infix(l.right, l.left, Mirrored(l.id), b, pos), Infix(l.right, right, id, b, pos), AndId, b, pos)
  }

  /** The corrected chain holds exactly when both comparisons of `a op b id c` hold. */
  lemma ChainMeansBoth(a: Expression, b: Expression, c: Expression, op: nat, t: VariableType, innerPos: Position, id: nat, pos: Position, po: PieceOracles, v: Expression -> int)
    requires IsComparison(id) && SameDirection(id, op)
    ensures Holds(Chain(Infix(a, b, op, t, innerPos), c, id, pos, po), v) <==> Compares(op, v(a), v(b)) && Compares(id, v(b), v(c))
  {
    MirroredSwaps(op, v(a), v(b));
  }

  /**
   * `parse_infix`, given the pieces on either side of the operator. A
   * comparison whose left operand is a comparison in the same direction is
   * chained: `a < b < c` becomes `b > a && b < c`.
   */
  function ParseInfix(leftPiece: Option<Piece>, rightPiece: Option<Piece>, id: nat, pos: Position, po: PieceOracles): (r: Option<Expression>)
    ensures r.Some? <==> leftPiece.Some? && rightPiece.Some? && ExpressionFromPiece(leftPiece.value, po).Some? && ExpressionFromPiece(rightPiece.value, po).Some?
  {
    if leftPiece.None? || rightPiece.None? then None
    else
      var left := ExpressionFromPiece(leftPiece.value, po);
      var right := ExpressionFromPiece(rightPiece.value, po);
      if left.None? || right.None? then None
      else if IsComparison(id) && left.value.Infix? && SameDirection(id, left.value.id) then
        Some(Chain(left.value, right.value, id, pos, po))
      else
        Some(Infix(left.value, right.value, id, InfixType(left.value, right.value, rightPiece.value, id, po), pos))
  }

  /**
   * Chained comparisons share their middle operand: folding `<` onto
   * `a <= b` gives `(b >= a) && (b < c)`, every part typed boolean, and the
   * same holds for each same-direction pair.
   */
  lemma ComparisonChain(a: Expression, b: Expression, c: Expression, inner: nat, t: VariableType, innerPos: Position, id: nat, pos: Position, po: PieceOracles)
    requires IsComparison(id) && SameDirection(id, inner)
    requires c != Invalid
    ensures var bt := po.types.boolean;
      ParseInfix(Some(ExprPiece(Infix(a, b, inner, t, innerPos))), Some(ExprPiece(c)), id, pos, po) ==
        Some(Infix(Infix(b, a, Mirrored(inner), bt, pos), Infix(b, c, id, bt, pos), AndId, bt, pos))
  {
  }

  /** A comparison after one of the other direction is not chained: `a < b > c` folds as `(a < b) > c`. */
  lemma MixedComparisonsNest(l: Expression, c: Expression, id: nat, pos: Position, po: PieceOracles)
    requires IsComparison(id) && l.Infix? && IsComparison(l.id) && !SameDirection(id, l.id)
    ensures ParseInfix(Some(ExprPiece(l)), Some(ExprPiece(c)), id, pos, po) ==
      Some(Infix(l, c, id, InfixType(l, c, ExprPiece(c), id, po), pos))
  {
  }

  /** The outcome of `parse_ternary`: the folded expression, or the error code the reducer reports. */
  datatype TernaryOutcome = Folded(e: Expression) | TernaryError(code: nat)

  /**
   * `parse_ternary`, given the pieces on either side and the branch the
   * operator carries: the branches' types are compared, an inferred side
   * yields to the other, and anything else leaves it inferred. An absent
   * right-hand piece is error 3, an operand that is not an expression 2.
   */
  function ParseTernary(leftPiece: Option<Piece>, rightPiece: Option<Piece>, branch: Expression, id: nat, po: PieceOracles): (r: TernaryOutcome)
    ensures r.TernaryError? <==> rightPiece.None? || leftPiece.None? || ExpressionFromPiece(leftPiece.value, po).None? || ExpressionFromPiece(rightPiece.value, po).None?
    ensures r.TernaryError? ==> (r.code == 3 <==> rightPiece.None?) && r.code in {2, 3}
    ensures r.Folded? ==> r.e.Ternary? && r.e.whenTrue == branch && r.e.id == id
  {
    if rightPiece.None? then TernaryError(3)
    else if leftPiece.None? then TernaryError(2)
    else
      var left := ExpressionFromPiece(leftPiece.value, po);
      var right := ExpressionFromPiece(rightPiece.value, po);
      if left.None? || right.None? then TernaryError(2)
      else
        var leftType := GetType(branch, po.types);
        var rightType := GetType(right.value, po.types);
        var compared := po.compareTypes(leftType, rightType);
        var resultType :=
          if compared.Some? then compared.value
          else if po.isInferred(leftType) then rightType
          else if po.isInferred(rightType) then leftType
          else po.types.inferred;
        Folded(Ternary(left.value, branch, right.value, id, resultType))
  }

  /**
   * `parse_function_call`, given the piece before the argument group. A
   * call on a member access `x.f(...)` whose `f` is a static extension of
   * `x`'s type becomes a plain call of the extension with `x` as first
   * argument; a `new` call keeps the callee's type; any other call takes
   * the callee's return type.
   */
  function ParseFunctionCall(leftPiece: Option<Piece>, items: seq<Expression>, pos: Position, po: PieceOracles): (r: Option<Expression>)
    ensures r.Some? <==> leftPiece.Some? && ExpressionFromPiece(leftPiece.value, po).Some?
    ensures r.Some? ==> r.value.FunctionCall? && r.value.pos == pos
    ensures r.Some? ==> |r.value.items| == |items| || |r.value.items| == |items| + 1
  {
    if leftPiece.None? then None
    else
      var left := ExpressionFromPiece(leftPiece.value, po);
      if left.None? then None
      else
        var callee := left.value;
        var extension :=
          if callee.Infix? && 2 <= callee.id <= 5 && callee.right.Value? then po.staticExtension(callee.right.text, GetType(callee.left, po.types))
          else None;
        if extension.Some? then
          var (name, functionType, returnType) := extension.value;
          Some(FunctionCall(Value(name, functionType, callee.right.pos), [callee.left] + items, returnType, pos))
        else
          var calleeType := po.resolveCall(GetType(callee, po.types), items);
          var isNewCall := callee.Prefix? && callee.id == 9;
          Some(FunctionCall(callee, items, if isNewCall then calleeType else po.callReturn(calleeType).UnwrapOr(po.types.inferred), pos))
  }

  /** A static extension call passes the accessed object first, then the written arguments. */
  lemma StaticExtensionCall(x: Expression, f: string, fPos: Position, accessId: nat, t: VariableType, accessPos: Position, items: seq<Expression>, pos: Position, po: PieceOracles)
    requires 2 <= accessId <= 5
    requires po.staticExtension(f, GetType(x, po.types)).Some?
    ensures var (name, functionType, returnType) := po.staticExtension(f, GetType(x, po.types)).value;
      ParseFunctionCall(Some(ExprPiece(Infix(x, Value(f, t, fPos), accessId, t, accessPos))), items, pos, po) ==
        Some(FunctionCall(Value(name, functionType, fPos), [x] + items, returnType, pos))
  {
  }

  /** `parse_array_access`, given the piece before the index group. */
  function ParseArrayAccess(leftPiece: Option<Piece>, items: seq<Expression>, pos: Position, po: PieceOracles): (r: Option<Expression>)
    ensures r.Some? <==> leftPiece.Some? && ExpressionFromPiece(leftPiece.value, po).Some?
    ensures r.Some? ==> r == Some(ArrayAccess(ExpressionFromPiece(leftPiece.value, po).value, items, po.types.inferred, pos))
  {
    if leftPiece.None? then None
    else
      var left := ExpressionFromPiece(leftPiece.value, po);
      if left.None? then None else Some(ArrayAccess(left.value, items, po.types.inferred, pos))
  }
}
