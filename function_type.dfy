// Function style keywords (src/expression/function_type.rs).

module FunctionTypes {

  /** The keywords a function style can be written with, in declaration order. */
  const FunctionStyles: seq<string> := ["static", "extern", "virtual", "inline", "meta", "const", "override"]

  datatype FunStyle = Unknown | Static | Extern | Virtual | Inline | Meta | Const | Override
  {
    predicate IsExtern() { this.Extern? }
    predicate IsVirtual() { this.Virtual? }
    predicate IsUnknown() { this.Unknown? }

    /** Styles only a class member may carry. */
    predicate ClassOnly() { this.Virtual? }

    /** Styles only a module-level function may carry. */
    predicate ModuleOnly() { this.Meta? || this.Extern? }

    /** Styles kept when a class member is exported to the header. */
    predicate ClassExportable() { this in {Virtual, Inline, Static, Override, Const} }

    /** Styles kept when a module-level function is exported to the header. */
    predicate ModuleExportable() { this in {Extern, Inline, Static} }
  }

  /** Reads a style keyword; anything not in `FunctionStyles` is `Unknown`. */
  function NewFunStyle(name: string): (f: FunStyle)
    ensures f.Unknown? <==> name !in FunctionStyles
    ensures !f.Unknown? ==> FunStyleName(f) == name
  {
    match name
    case "static" => Static
    case "extern" => Extern
    case "virtual" => Virtual
    case "inline" => Inline
    case "meta" => Meta
    case "const" => Const
    case "override" => Override
    case _ => Unknown
  }

  /** The keyword of a style; `Unknown` has the empty name. */
  function FunStyleName(f: FunStyle): (name: string)
    ensures f.Unknown? <==> name == ""
    ensures !f.Unknown? ==> name in FunctionStyles
  {
    match f
    case Unknown => ""
    case Static => "static"
    case Extern => "extern"
    case Virtual => "virtual"
    case Inline => "inline"
    case Meta => "meta"
    case Const => "const"
    case Override => "override"
  }

  /** Reading a style's own keyword gives the style back. */
  lemma FunStyleRoundTrip(f: FunStyle)
    requires !f.Unknown?
    ensures NewFunStyle(FunStyleName(f)) == f
  {
  }

  /** No style is both class-only and module-only, and a class-only style is class-exportable but not module-exportable. */
  lemma ScopeRestrictionsDisjoint(f: FunStyle)
    ensures !(f.ClassOnly() && f.ModuleOnly())
    ensures f.ClassOnly() ==> f.ClassExportable() && !f.ModuleExportable()
    ensures f.ModuleExportable() && f.ClassExportable() <==> f == Inline || f == Static
  {
  }
}
