// Expression trees and their C++ spelling (src/expression/mod.rs), with the
// operator table they index into (src/config_management/operator_data.rs).

module Expressions {
  import opened Text
  import opened Wrappers
  import opened VariableTypes

  /** `Position`: a file, an optional line, a start index and an optional end index. */
  datatype Position = Position(file: string, line: Option<nat>, start: nat, end: Option<nat>)

  /** What `print_code_error` is called with: a title, a message and where. */
  datatype Diagnostic = Diagnostic(title: string, msg: string, pos: Position)

  /** One entry of the operator table: its spelling (if any), its priority and whether ties bind to the right. */
  datatype Operator = Operator(name: Option<string>, priority: int, reversePriority: bool)

  /** The four groups of the operator table, which the source keys by "prefix", "suffix", "infix" and "ternary". */
  datatype OpKind = PrefixKind | SuffixKind | InfixKind | TernaryKind

  /** The operator table read from the configuration. */
  datatype OperatorTable = OperatorTable(prefix: seq<Operator>, suffix: seq<Operator>, infix: seq<Operator>, ternary: seq<Operator>)
  {
    /** `operators[kind]`. */
    function Of(kind: OpKind): seq<Operator> {
      match kind
      case PrefixKind => prefix
      case SuffixKind => suffix
      case InfixKind => infix
      case TernaryKind => ternary
    }

    /** The spelling of operator `id` of a group, "" when it has none. */
    function NameOf(kind: OpKind, id: nat): string
      requires id < |Of(kind)|
    {
      Of(kind)[id].name.UnwrapOr("")
    }
  }

  /**
   * The constructors and methods of `VariableType` that the expression code
   * calls and that are not part of this model: `inferred`, `boolean`, `copy`,
   * `tuple`, `initializer_list`, `is_number`, `access_operator` and
   * `convert_between_styles`.
   */
  datatype TypeOracle = TypeOracle(
    inferred: VariableType,
    boolean: VariableType,
    copy: Type -> VariableType,
    tuple: seq<VariableType> -> VariableType,
    initializerList: VariableType -> VariableType,
    isNumber: VariableType -> bool,
    accessOperator: (VariableType, string) -> string,
    convertBetweenStyles: (VariableType, VariableType, string) -> Option<string>)

  /**
   * `Expression`. Operator ids index the operator table; a ternary carries
   * no position of its own.
   */
  datatype Expression =
    | Invalid
    | Value(text: string, t: VariableType, pos: Position)
    | Prefix(operand: Expression, id: nat, t: VariableType, pos: Position)
    | Suffix(operand: Expression, id: nat, t: VariableType, pos: Position)
    | Infix(left: Expression, right: Expression, id: nat, t: VariableType, pos: Position)
    | Ternary(condition: Expression, whenTrue: Expression, whenFalse: Expression, id: nat, t: VariableType)
    | Expressions(items: seq<Expression>, t: VariableType, pos: Position)
    | InitializerList(items: seq<Expression>, t: VariableType, pos: Position)
    | FunctionCall(callee: Expression, items: seq<Expression>, t: VariableType, pos: Position)
    | ArrayAccess(callee: Expression, items: seq<Expression>, t: VariableType, pos: Position)

  /** `ExpressionEndReason` (src/expression/expression_parser.rs): why an expression parse stopped. */
  datatype EndReason = Unknown | ReachedChar(ch: char) | EndOfContent | EndOfExpression | NoValueError

  /** The infix id of the member access `.` (emitted through `access_operator`) and of assignment `=`. */
  const AccessId: nat := 1
  const AssignId: nat := 24

  /** `get_type`: the inferred type for `Invalid`, the stored type otherwise. */
  function GetType(e: Expression, to: TypeOracle): (r: VariableType)
    ensures e.Invalid? ==> r == to.inferred
    ensures !e.Invalid? ==> r == e.t
  {
    if e.Invalid? then to.inferred else e.t
  }

  /** `get_line_number`. */
  function LineNumber(e: Expression): (r: Option<nat>)
    decreases e
  {
    match e
    case Invalid => None
    case Ternary(c, _, _, _, _) => LineNumber(c)
    case Value(_, _, p) => Some(p.line.UnwrapOr(0))
    case Prefix(_, _, _, p) => Some(p.line.UnwrapOr(0))
    case Suffix(_, _, _, p) => Some(p.line.UnwrapOr(0))
    case Infix(_, _, _, _, p) => Some(p.line.UnwrapOr(0))
    case Expressions(_, _, p) => Some(p.line.UnwrapOr(0))
    case InitializerList(_, _, p) => Some(p.line.UnwrapOr(0))
    case FunctionCall(_, _, _, p) => Some(p.line.UnwrapOr(0))
    case ArrayAccess(_, _, _, p) => Some(p.line.UnwrapOr(0))
  }

  /** The expression a chain of ternaries starts with: follow the conditions down. */
  function Leftmost(e: Expression): (r: Expression)
    ensures !r.Ternary?
    decreases e
  {
    if e.Ternary? then Leftmost(e.condition) else e
  }

  /**
   * The line of an expression is the line of the first non-ternary it
   * starts with: none exactly when that is `Invalid`, its position's line
   * (0 when unknown) otherwise.
   */
  lemma {:induction false} LineNumberOfLeftmost(e: Expression)
    ensures LineNumber(e) == LineNumber(Leftmost(e))
    ensures LineNumber(e).None? <==> Leftmost(e).Invalid?
    ensures !Leftmost(e).Invalid? ==> LineNumber(e) == Some(Leftmost(e).pos.line.UnwrapOr(0))
    decreases e
  {
    if e.Ternary? {
      LineNumberOfLeftmost(e.condition);
    }
  }

  // ---------------------------------------------------------------------
  // Emission.

  /**
   * How many lines element `xs[0]` of a tuple lies below line `curr`: its
   * own line less `curr`, or nothing when its line is unknown.
   */
  function LineOr(e: Expression, curr: nat): nat {
    LineNumber(e).UnwrapOr(curr)
  }

  /**
   * The elements after the first lie on non-decreasing lines, starting from
   * `curr`: the source subtracts each line from the next in `usize`, which
   * would underflow otherwise.
   */
  predicate LinesAscendFrom(xs: seq<Expression>, curr: nat)
    decreases |xs|
  {
    |xs| == 0 || (LineOr(xs[0], curr) >= curr && LinesAscendFrom(xs[1..], LineOr(xs[0], curr)))
  }

  predicate LinesAscend(xs: seq<Expression>) {
    |xs| == 0 || LinesAscendFrom(xs[1..], LineOr(xs[0], 0))
  }

  /** The line gap in front of each element after the first, starting from line `curr`. */
  function GapsFrom(xs: seq<Expression>, curr: nat): (r: seq<nat>)
    requires LinesAscendFrom(xs, curr)
    ensures |r| == |xs|
    decreases |xs|
  {
    if |xs| == 0 then []
    else [LineOr(xs[0], curr) - curr] + GapsFrom(xs[1..], LineOr(xs[0], curr))
  }

  /** The gap in front of every element of a tuple; the first has none. */
  function Gaps(xs: seq<Expression>): (r: seq<nat>)
    requires LinesAscend(xs)
    ensures |r| == |xs|
    ensures |xs| > 0 ==> r[0] == 0
  {
    if |xs| == 0 then [] else [0] + GapsFrom(xs[1..], LineOr(xs[0], 0))
  }

  /** The line reached after walking through `xs` from line `curr`, skipping elements of unknown line. */
  function LastLine(xs: seq<Expression>, curr: nat): nat
    decreases |xs|
  {
    if |xs| == 0 then curr else LastLine(xs[1..], LineOr(xs[0], curr))
  }

  function Sum(ns: seq<nat>): nat {
    if |ns| == 0 then 0 else ns[0] + Sum(ns[1..])
  }

  /**
   * The gaps add up to the distance from the first line to the last: a
   * tuple spread over several source lines is spread over as many lines
   * of output.
   */
  lemma {:induction false} GapsSpanTheLines(xs: seq<Expression>, curr: nat)
    requires LinesAscendFrom(xs, curr)
    ensures LastLine(xs, curr) >= curr
    ensures Sum(GapsFrom(xs, curr)) == LastLine(xs, curr) - curr
    decreases |xs|
  {
    if |xs| > 0 {
      GapsSpanTheLines(xs[1..], LineOr(xs[0], curr));
      assert GapsFrom(xs, curr)[1..] == GapsFrom(xs[1..], LineOr(xs[0], curr));
    }
  }

  /** `n` copies of "\n\t". */
  function LineBreaks(n: nat): (r: string)
    ensures |r| == 2 * n
  {
    if n == 0 then "" else "\n\t" + LineBreaks(n - 1)
  }

  /**
   * What `to_string` needs so as not to panic: every operator id it looks
   * up is inside the table, and the elements of every tuple lie on
   * non-decreasing lines.
   */
  predicate Printable(e: Expression, ops: OperatorTable)
    decreases e
  {
    match e
    case Invalid => true
    case Value(_, _, _) => true
    case Prefix(x, id, _, _) => id < |ops.prefix| && Printable(x, ops)
    case Suffix(x, id, _, _) => id < |ops.suffix| && Printable(x, ops)
    case Infix(l, r, id, _, _) =>
      (id == AccessId || id == AssignId || id < |ops.infix|) && Printable(l, ops) && Printable(r, ops)
    case Ternary(a, b, c, _, _) => Printable(a, ops) && Printable(b, ops) && Printable(c, ops)
    case Expressions(xs, _, _) => LinesAscend(xs) && forall i :: 0 <= i < |xs| ==> Printable(xs[i], ops)
    case InitializerList(xs, _, _) => forall i :: 0 <= i < |xs| ==> Printable(xs[i], ops)
    case FunctionCall(f, xs, _, _) => Printable(f, ops) && forall i :: 0 <= i < |xs| ==> Printable(xs[i], ops)
    case ArrayAccess(f, xs, _, _) => Printable(f, ops) && forall i :: 0 <= i < |xs| ==> Printable(xs[i], ops)
  }

  /** `to_string`: the C++ text of an expression. */
  function ToCpp(e: Expression, ops: OperatorTable, to: TypeOracle): (r: string)
    requires Printable(e, ops)
    decreases e
  {
    match e
    case Invalid => "Invalid"
    case Value(s, _, _) => s
    case Prefix(x, id, _, _) => ops.NameOf(PrefixKind, id) + ToCpp(x, ops, to)
    case Suffix(x, id, _, _) => ToCpp(x, ops, to) + ops.NameOf(SuffixKind, id)
    case Infix(l, r, id, _, _) =>
      if id == AccessId then
        var rs := ToCpp(r, ops, to);
        ToCpp(l, ops, to) + to.accessOperator(GetType(l, to), rs) + rs
      else if id == AssignId then
        var rs := ToCpp(r, ops, to);
        ToCpp(l, ops, to) + " = " + to.convertBetweenStyles(GetType(r, to), GetType(l, to), rs).UnwrapOr(rs)
      else
        ToCpp(l, ops, to) + " " + ops.NameOf(InfixKind, id) + " " + ToCpp(r, ops, to)
    case Ternary(a, b, c, _, _) => ToCpp(a, ops, to) + " ? " + ToCpp(b, ops, to) + " : " + ToCpp(c, ops, to)
    case Expressions(xs, _, _) =>
      var gaps := Gaps(xs);
      var parts := seq(|xs|, i requires 0 <= i < |xs| => LineBreaks(gaps[i]) + ToCpp(xs[i], ops, to));
      if |parts| == 1 then "(" + parts[0] + ")" else "std::make_tuple(" + Join(parts, ", ") + ")"
    case InitializerList(xs, _, _) =>
      "{ " + Join(seq(|xs|, i requires 0 <= i < |xs| => ToCpp(xs[i], ops, to)), ", ") + " }"
    case FunctionCall(f, xs, _, _) =>
      ToCpp(f, ops, to) + "(" + Join(seq(|xs|, i requires 0 <= i < |xs| => ToCpp(xs[i], ops, to)), ", ") + ")"
    case ArrayAccess(f, xs, _, _) =>
      ToCpp(f, ops, to) + "[" + Join(seq(|xs|, i requires 0 <= i < |xs| => ToCpp(xs[i], ops, to)), ", ") + "]"
  }

  /** A tuple of one element is that element in parentheses, whatever its line. */
  lemma SingleElementIsParenthesised(x: Expression, t: VariableType, p: Position, ops: OperatorTable, to: TypeOracle)
    requires Printable(x, ops)
    ensures Printable(Expressions([x], t, p), ops)
    ensures ToCpp(Expressions([x], t, p), ops, to) == "(" + ToCpp(x, ops, to) + ")"
  {
    assert Gaps([x]) == [0];
  }

  /** Two elements on lines `a` <= `b` ascend, with a gap of `b - a` in front of the second. */
  lemma PairGaps(x: Expression, y: Expression)
    requires LineNumber(x).Some? && LineNumber(y).Some? && LineNumber(x).value <= LineNumber(y).value
    ensures LinesAscend([x, y])
    ensures Gaps([x, y]) == [0, LineNumber(y).value - LineNumber(x).value]
  {
    var xs := [x, y];
    assert xs[1..] == [y];
    assert LinesAscendFrom([y][1..], LineOr(y, LineOr(x, 0)));
  }

  /**
   * Two elements on lines `a` <= `b` are emitted as a `std::make_tuple` call
   * with `b - a` line breaks in front of the second.
   */
  lemma PairIsTuple(x: Expression, y: Expression, t: VariableType, p: Position, ops: OperatorTable, to: TypeOracle)
    requires Printable(x, ops) && Printable(y, ops)
    requires LineNumber(x).Some? && LineNumber(y).Some? && LineNumber(x).value <= LineNumber(y).value
    ensures Printable(Expressions([x, y], t, p), ops)
    ensures ToCpp(Expressions([x, y], t, p), ops, to) ==
      "std::make_tuple(" + ToCpp(x, ops, to) + ", " + LineBreaks(LineNumber(y).value - LineNumber(x).value) + ToCpp(y, ops, to) + ")"
  {
    var xs := [x, y];
    PairGaps(x, y);
    var gaps := Gaps(xs);
    var parts := seq(|xs|, i requires 0 <= i < |xs| => LineBreaks(gaps[i]) + ToCpp(xs[i], ops, to));
    assert LineBreaks(gaps[0]) == "";
    assert parts[0] == ToCpp(x, ops, to) && parts[1] == LineBreaks(gaps[1]) + ToCpp(y, ops, to);
    assert Join(parts, ", ") == parts[0] + ", " + parts[1] by {
      assert parts[1..] == [parts[1]];
    }
  }
}
