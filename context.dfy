// The context of one file: its typing contexts, headers and module
// attributes (src/context_management/context.rs).

module Contexts {
  import opened VariableTypes
  import opened TypingContexts
  import opened HeaderContexts

  /** The system header a type needs: "functional" for a function, "tuple" for a tuple. */
  function RequiredHeader(t: Type): (r: string)
    ensures r != "" <==> t.Function? || t.Tuple?
  {
    match t
    case Function => "functional"
    case Tuple(_) => "tuple"
    case _ => ""
  }

  /** `Context`: the full and module-only typing contexts, the header list and the line-alignment flag. */
  class Context {
    const typing: TypingContext
    const moduleTyping: TypingContext
    const headers: HeaderContext
    var alignLines: bool

    ghost predicate Valid()
      reads this, headers
    {
      headers.Valid()
    }

    /** `new`: a full typing context, a module-only one, no headers and no alignment. */
    constructor ()
      ensures Valid() && !alignLines && headers.headers == []
      ensures typing.knownData == [GlobalData(), map[]] && moduleTyping.knownData == [map[]]
      ensures fresh(typing) && fresh(moduleTyping) && fresh(headers)
    {
      typing := new TypingContext(false);
      moduleTyping := new TypingContext(true);
      headers := new HeaderContext();
      alignLines := false;
    }

    /** `add_header`: delegated, so a path is listed once. */
    method AddHeader(path: string, isSystem: bool)
      requires Valid()
      modifies headers
      ensures Valid()
      ensures headers.headers == WithHeader(old(headers.headers), path, isSystem)
    {
      headers.AddHeader(path, isSystem);
    }

    /** `register_type`: a function or tuple type needs its system header. */
    method RegisterType(v: VariableType)
      requires Valid()
      modifies headers
      ensures Valid()
      ensures RequiredHeader(v.varType) == "" ==> headers.headers == old(headers.headers)
      ensures RequiredHeader(v.varType) != "" ==>
        headers.headers == WithHeader(old(headers.headers), RequiredHeader(v.varType), true)
    {
      match v.varType
      case Function => AddHeader("functional", true);
      case Tuple(_) => AddHeader("tuple", true);
      case _ =>
    }

    /** `register_module_attribute`: only "TastyAlign" means anything, and it turns line alignment on. */
    method RegisterModuleAttribute(attribute: string)
      modifies this
      ensures alignLines == (old(alignLines) || attribute == "TastyAlign")
    {
      if attribute == "TastyAlign" {
        alignLines := true;
      }
    }
  }
}
