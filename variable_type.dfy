// Types, variable styles and variable properties
// (src/expression/variable_type.rs).

module VariableTypes {
  import opened Text
  import opened ValueTypes

  /** The keywords a variable style can be written with, in declaration order. */
  const Styles: seq<string> := ["copy", "ref", "borrow", "move", "ptr", "autoptr", "uniqueptr", "classptr"]

  /** The keywords a variable property can be written with, in declaration order. */
  const Properties: seq<string> := ["const", "constexpr", "constinit", "extern", "mutable", "static", "thread_local", "volatile"]

  /**
   * A Tasty Fresh type. `Class` keeps only the class name, the one part of
   * a class type that `to_cpp` and the extension lookup read. `Tuple` and
   * `Function` are not variants of the source's enum, although the type
   * parser builds a tuple and the header registration matches on both; they
   * are here so that those branches have a value to produce and inspect.
   */
  datatype Type =
    | Unknown(name: string)
    | Void
    | Boolean
    | Number(number: NumberType)
    | String(stringType: StringType)
    | Class(className: string)
    | Inferred
    | Undeclared(names: seq<string>)
    | UndeclaredWParams(names: seq<string>, params: seq<Type>)
    | Tuple(elements: seq<Type>)
    | Function

  /** The type contains none of the variants the source's `to_cpp` has no case for. */
  predicate Spellable(t: Type) {
    match t
    case Tuple(_) => false
    case Function => false
    case UndeclaredWParams(_, ps) => forall i :: 0 <= i < |ps| ==> Spellable(ps[i])
    case _ => true
  }

  /** The C++ spelling of a type. */
  function TypeToCpp(t: Type): (r: string)
    requires Spellable(t)
  {
    match t
    case Unknown(name) => name
    case Void => "void"
    case Boolean => "bool"
    case Number(n) => NumberToCpp(n)
    case String(s) => StringToCpp(s)
    case Class(name) => name
    case Inferred => "auto"
    case Undeclared(names) => Join(names, "::")
    case UndeclaredWParams(names, ps) =>
      var args := seq(|ps|, i requires 0 <= i < |ps| && Spellable(ps[i]) => TypeToCpp(ps[i]));
      Join(names, "::") + "<" + Join(args, ", ") + ">"
  }

  /** The primitive spellings: "auto", "void", "bool" and the number and string spellings. */
  lemma PrimitiveSpellings(n: NumberType, s: StringType)
    ensures TypeToCpp(Inferred) == "auto" && TypeToCpp(Void) == "void" && TypeToCpp(Type.Boolean) == "bool"
    ensures TypeToCpp(Type.Number(n)) == NumberToCpp(n) && TypeToCpp(Type.String(s)) == StringToCpp(s)
  {
  }

  /** A parameterised type is its plain name chain followed by "<", the arguments joined by ", ", and ">". */
  lemma ParamsFollowName(names: seq<string>, ps: seq<Type>)
    requires Spellable(UndeclaredWParams(names, ps))
    ensures |ps| == 0 ==> TypeToCpp(UndeclaredWParams(names, ps)) == TypeToCpp(Undeclared(names)) + "<>"
    ensures |ps| == 1 ==> TypeToCpp(UndeclaredWParams(names, ps)) == TypeToCpp(Undeclared(names)) + "<" + TypeToCpp(ps[0]) + ">"
  {
    if |ps| == 1 {
      var args := seq(|ps|, i requires 0 <= i < |ps| && Spellable(ps[i]) => TypeToCpp(ps[i]));
      assert args == [TypeToCpp(ps[0])];
    }
  }

  /** A name chain of two names is spelled with one "::" between them. */
  lemma QualifiedSpelling(outer: string, inner: string)
    ensures TypeToCpp(Undeclared([outer, inner])) == outer + "::" + inner
  {
    assert [outer, inner][1..] == [inner];
  }

  /** How a variable is held: by copy, reference, pointer and so on. */
  datatype VarStyle = Unknown | Copy | Ref | Borrow | Move | Ptr | AutoPtr | UniquePtr | ClassPtr
  {
    predicate IsUnknown() { this.Unknown? }

    /** Only `classptr` is restricted to classes. */
    predicate ClassOnly() { this.ClassPtr? }

    /** No style is restricted to modules. */
    predicate ModuleOnly() { false }
  }

  /** Reads a style keyword; anything not in `Styles` is `Unknown`. */
  function NewVarStyle(name: string): (s: VarStyle)
    ensures s.Unknown? <==> name !in Styles
    ensures !s.Unknown? ==> VarStyleName(s) == name
  {
    match name
    case "copy" => Copy
    case "ref" => Ref
    case "borrow" => Borrow
    case "move" => Move
    case "ptr" => Ptr
    case "autoptr" => AutoPtr
    case "uniqueptr" => UniquePtr
    case "classptr" => ClassPtr
    case _ => VarStyle.Unknown
  }

  /** The keyword of a style; `Unknown` has the empty name. */
  function VarStyleName(s: VarStyle): (name: string)
    ensures s.Unknown? <==> name == ""
    ensures !s.Unknown? ==> name in Styles
  {
    match s
    case Unknown => ""
    case Copy => "copy"
    case Ref => "ref"
    case Borrow => "borrow"
    case Move => "move"
    case Ptr => "ptr"
    case AutoPtr => "autoptr"
    case UniquePtr => "uniqueptr"
    case ClassPtr => "classptr"
  }

  /** Reading a style's own keyword gives the style back. */
  lemma VarStyleRoundTrip(s: VarStyle)
    requires !s.Unknown?
    ensures NewVarStyle(VarStyleName(s)) == s
  {
  }

  /** A variable property keyword. */
  datatype VarProps = Unknown | Const | Constexpr | Constinit | Extern | Mutable | Static | Threadlocal | Volatile

  /** Reads a property keyword; anything not in `Properties` is `Unknown`. */
  function NewVarProps(name: string): (p: VarProps)
    ensures p.Unknown? <==> name !in Properties
    ensures !p.Unknown? ==> VarPropsName(p) == name
  {
    match name
    case "const" => Const
    case "constexpr" => Constexpr
    case "constinit" => Constinit
    case "extern" => Extern
    case "mutable" => Mutable
    case "static" => Static
    case "thread_local" => Threadlocal
    case "volatile" => Volatile
    case _ => VarProps.Unknown
  }

  /** The keyword of a property; `Unknown` has the empty name. */
  function VarPropsName(p: VarProps): (name: string)
    ensures p.Unknown? <==> name == ""
    ensures !p.Unknown? ==> name in Properties
  {
    match p
    case Unknown => ""
    case Const => "const"
    case Constexpr => "constexpr"
    case Constinit => "constinit"
    case Extern => "extern"
    case Mutable => "mutable"
    case Static => "static"
    case Threadlocal => "thread_local"
    case Volatile => "volatile"
  }

  /** Reading a property's own keyword gives the property back. */
  lemma VarPropsRoundTrip(p: VarProps)
    requires !p.Unknown?
    ensures NewVarProps(VarPropsName(p)) == p
  {
  }

  /** A type together with how it is held and its properties. */
  datatype VariableType = VariableType(varType: Type, style: VarStyle, props: seq<VarProps>)
}
