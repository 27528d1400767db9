// The declarations a file or a class body is made of
// (`DeclarationType` of src/declaration_parser/module_declaration.rs, with
// the records of the class, refurbish, function and variable declarations).

module DeclarationTypes {
  import opened Wrappers
  import opened Scan
  import opened VariableTypes
  import opened Declarations
  import opened AttributeDeclarations
  import opened AttributeLists
  import opened ModuleAttributeDeclarations
  import opened AssumeDeclarations
  import opened ImportDeclarations
  import opened IncludeDeclarations
  import opened InjectDeclarations
  import opened AttributeClassDeclarations

  /** Where an operator function's symbol goes: after, before or between its operands. */
  datatype OperatorKind = Suffix | Prefix | Infix

  /**
   * A parsed function declaration, as much of it as this model reads: its
   * name, the operator it defines (kind and operator id) if it is one, its
   * parameter types and its return type.
   */
  datatype FunctionDecl = FunctionDecl(name: string, operator: Option<(OperatorKind, nat)>, parameters: seq<VariableType>, returnType: VariableType)

  /** A parsed variable declaration. */
  datatype VariableDecl = VariableDecl(name: string, varType: VariableType, line: nat)

  /** `FunctionDeclarationType`: where a function is declared. */
  datatype FunctionKind = ModuleLevel | ClassLevel | Forward

  /** `ClassStyle`: the three class-like declarations. */
  datatype ClassStyle = Class | Abstract | Enum
  {
    /** `get_name`: the keyword of the style. */
    function Name(): (r: string)
      ensures r in {"class", "abstract", "enum"}
    {
      match this
      case Class => "class"
      case Abstract => "abstract"
      case Enum => "enum"
    }

    predicate IsAbstract() { this.Abstract? }
  }

  /** The style a class keyword stands for; any other word stands for none. */
  function StyleOf(keyword: string): (r: Option<ClassStyle>)
    ensures r.None? <==> keyword !in {"class", "abstract", "enum"}
  {
    match keyword
    case "class" => Some(ClassStyle.Class)
    case "abstract" => Some(Abstract)
    case "enum" => Some(Enum)
    case _ => None
  }

  /** `ClassStyle::new`: 0, 1 and 2 number the styles; any other number panics in the source. */
  function NewClassStyle(index: int): (r: ClassStyle)
    requires 0 <= index <= 2
  {
    if index == 0 then ClassStyle.Class else if index == 1 then Abstract else Enum
  }

  /** The number `new` maps to a style, in the order class, abstract, enum. */
  function StyleNumber(st: ClassStyle): (n: int)
    ensures 0 <= n <= 2
  {
    match st
    case Class => 0
    case Abstract => 1
    case Enum => 2
  }

  /** A style's keyword reads back as the style, and a keyword's style has that keyword as its name. */
  lemma StyleKeywordRoundTrip(st: ClassStyle, keyword: string)
    ensures StyleOf(st.Name()) == Some(st)
    ensures StyleOf(keyword).Some? ==> StyleOf(keyword).value.Name() == keyword
  {
  }

  /** `new` and the numbering of the styles are inverse to each other. */
  lemma StyleNumberRoundTrip(st: ClassStyle, index: int)
    requires 0 <= index <= 2
    ensures NewClassStyle(StyleNumber(st)) == st
    ensures StyleNumber(NewClassStyle(index)) == index
  {
  }

  /**
   * A class, abstract or enum: its members in `declarations`, and for an
   * abstract the non-forward members in `abstractDeclarations`.
   */
  datatype ClassDecl = ClassDecl(
    name: string,
    classType: ClassStyle,
    extensions: Option<seq<Type>>,
    declarations: seq<DeclarationType>,
    abstractDeclarations: Option<seq<DeclarationType>>,
    declarationId: nat)

  /** A refurbish: the type it adds functions to, and those functions. */
  datatype RefurbishDecl = RefurbishDecl(refurbishType: Type, declarations: seq<DeclarationType>)

  /** `DeclarationType`: a declaration with the attributes written before it. */
  datatype DeclarationType =
    | ModuleAttribute(moduleAttribute: ModuleAttributeDecl)
    | Assume(assumeDecl: AssumeDecl, attributes: Attributes)
    | Function(functionDecl: FunctionDecl, attributes: Attributes)
    | Import(importDecl: ImportDecl, attributes: Attributes)
    | Include(includeDecl: IncludeDecl, attributes: Attributes)
    | Variable(variable: VariableDecl, attributes: Attributes)
    | Class(classDecl: ClassDecl, attributes: Attributes)
    | Refurbish(refurbish: RefurbishDecl, attributes: Attributes)
    | AttributeClass(attributeClass: AttributeClassDecl, attributes: Attributes)
    | Injection(injection: InjectDecl, attributes: Attributes)

  /**
   * The attributes a declaration takes: `None` when none are pending,
   * otherwise all of them.
   */
  function Pending(attrs: seq<AttributeDecl>): (r: Attributes)
    ensures r.data.None? <==> attrs == []
    ensures r.data.Some? ==> r.data.value == attrs
  {
    if |attrs| == 0 then Attributes(None) else Attributes(Some(attrs))
  }

  /**
   * The function and variable declaration parsers, which are not part of
   * this model: each recogniser says whether a declaration starts at an
   * index, and each parser maps a cursor to the cursor it leaves and its
   * result.
   */
  datatype MemberParsers = MemberParsers(
    isFunction: (string, nat) -> bool,
    parseFunction: (string, Cur, FunctionKind) -> (Cur, DeclResult<FunctionDecl>),
    isVariable: (string, nat) -> bool,
    parseVariable: (string, Cur) -> (Cur, DeclResult<VariableDecl>))

  /**
   * What the loops around the member parsers rely on: a parser leaves the
   * cursor where `get_curr` is defined, and never moves it back.
   */
  ghost predicate Monotone(ps: MemberParsers, s: string) {
    (forall c: Cur, k: FunctionKind :: Parked(s, c) ==>
      Parked(s, ps.parseFunction(s, c, k).0) && ps.parseFunction(s, c, k).0.index >= c.index) &&
    (forall c: Cur :: Parked(s, c) ==>
      Parked(s, ps.parseVariable(s, c).0) && ps.parseVariable(s, c).0.index >= c.index)
  }

  /**
   * What the file-level loop relies on in addition: a parser started inside
   * the text consumes at least one character or reaches the end.
   */
  ghost predicate Advancing(ps: MemberParsers, s: string) {
    Monotone(ps, s) &&
    (forall c: Cur, k: FunctionKind :: Parked(s, c) && !c.oos ==>
      ps.parseFunction(s, c, k).0.oos || ps.parseFunction(s, c, k).0.index > c.index) &&
    (forall c: Cur :: Parked(s, c) && !c.oos ==>
      ps.parseVariable(s, c).0.oos || ps.parseVariable(s, c).0.index > c.index)
  }
}
