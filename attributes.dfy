// The attributes attached to one declaration, their lookups and their
// expansion through attribute classes (src/declaration_parser/attributes.rs,
// and `flatten_attributes` of src/declaration_parser/attribute_declaration.rs).

module AttributeLists {
  import opened Wrappers
  import opened Text
  import opened AttributeDeclarations
  import opened AttributeClassDeclarations
  import opened GlobalContexts

  /** `Attributes`: `None` when no attribute preceded the declaration. */
  datatype Attributes = Attributes(data: Option<seq<AttributeDecl>>)

  /** The names of the attributes, in order. */
  function AttributeNames(ds: seq<AttributeDecl>): (r: seq<string>)
    ensures |r| == |ds| && forall i :: 0 <= i < |r| ==> r[i] == ds[i].name
  {
    seq(|ds|, i requires 0 <= i < |ds| => ds[i].name)
  }

  /** Some attribute is named `name`. */
  predicate Has(attrs: Attributes, name: string) {
    attrs.data.Some? && exists i :: 0 <= i < |attrs.data.value| && attrs.data.value[i].name == name
  }

  /** The first attribute named `name`, if any. */
  function Find(attrs: Attributes, name: string): Option<AttributeDecl> {
    if attrs.data.None? then None
    else
      match FirstIndex(AttributeNames(attrs.data.value), name)
      case None => None
      case Some(i) => Some(attrs.data.value[i])
  }

  /**
   * `get_attribute` finds an attribute exactly when `has_attribute` holds,
   * and what it finds is named `name` with no earlier attribute so named.
   */
  lemma FindMeaning(attrs: Attributes, name: string)
    ensures Find(attrs, name).Some? <==> Has(attrs, name)
    ensures Find(attrs, name).Some? ==> exists i :: FirstAt(attrs.data.value, i, name) && attrs.data.value[i] == Find(attrs, name).value
  {
    if attrs.data.Some? {
      var r := FirstIndex(AttributeNames(attrs.data.value), name);
      if r.Some? {
        assert FirstAt(attrs.data.value, r.value, name);
      }
    }
  }

  /** Attribute `i` is named `name` and no earlier attribute is. */
  predicate FirstAt(ds: seq<AttributeDecl>, i: int, name: string) {
    0 <= i < |ds| && ds[i].name == name && forall k :: 0 <= k < i ==> ds[k].name != name
  }

  /** `has_attribute`. */
  method HasAttribute(attrs: Attributes, name: string) returns (b: bool)
    ensures b <==> Has(attrs, name)
  {
    if attrs.data.Some? {
      var ds := attrs.data.value;
      var i := 0;
      while i < |ds|
        invariant 0 <= i <= |ds|
        invariant forall k :: 0 <= k < i ==> ds[k].name != name
      {
        if ds[i].name == name {
          return true;
        }
        i := i + 1;
      }
    }
    return false;
  }

  /** `get_attribute`. */
  method GetAttribute(attrs: Attributes, name: string) returns (r: Option<AttributeDecl>)
    ensures r == Find(attrs, name)
  {
    if attrs.data.Some? {
      var ds := attrs.data.value;
      var i := 0;
      while i < |ds|
        invariant 0 <= i <= |ds|
        invariant forall k :: 0 <= k < i ==> ds[k].name != name
      {
        if ds[i].name == name {
          FirstAtIndex(ds, i, name);
          return Some(ds[i]);
        }
        i := i + 1;
      }
    }
    return None;
  }

  /** The first index found by name is the one `FirstAt` describes. */
  lemma FirstAtIndex(ds: seq<AttributeDecl>, i: nat, name: string)
    requires FirstAt(ds, i, name)
    ensures FirstIndex(AttributeNames(ds), name) == Some(i)
  {
    assert AttributeNames(ds)[i] == name;
  }

  /** `get_attribute_param_length`: the first match's parameter count, or 0 when there is none. */
  method GetAttributeParamLength(attrs: Attributes, name: string) returns (n: nat)
    ensures Find(attrs, name).None? ==> n == 0
    ensures Find(attrs, name).Some? ==> n == ParamsLength(Find(attrs, name).value)
  {
    var a := GetAttribute(attrs, name);
    if a.Some? {
      return ParamsLength(a.value);
    }
    return 0;
  }

  /** Every attribute's span parameters lie within `content`. */
  predicate AllWithin(ds: seq<AttributeDecl>, content: string) {
    forall i :: 0 <= i < |ds| ==> ParamsWithin(ds[i], content)
  }

  /** What `get_attribute_parameters` yields: the parameter texts of the first match, or none. */
  function ParameterTexts(attrs: Attributes, name: string, content: string): (r: seq<string>)
    requires attrs.data.Some? ==> AllWithin(attrs.data.value, content)
    ensures Find(attrs, name).None? ==> r == []
    ensures Find(attrs, name).Some? ==> |r| == ParamsLength(Find(attrs, name).value)
  {
    FindWithin(attrs, name, content);
    match Find(attrs, name)
    case None => []
    case Some(a) => ParamTexts(a, content)
  }

  /** A found attribute is one of the list, so its spans lie within `content`. */
  lemma FindWithin(attrs: Attributes, name: string, content: string)
    requires attrs.data.Some? ==> AllWithin(attrs.data.value, content)
    ensures Find(attrs, name).Some? ==> ParamsWithin(Find(attrs, name).value, content)
  {
  }

  /** `get_attribute_parameters`. */
  method GetAttributeParameters(attrs: Attributes, name: string, content: string) returns (result: seq<string>)
    requires attrs.data.Some? ==> AllWithin(attrs.data.value, content)
    ensures result == ParameterTexts(attrs, name, content)
  {
    result := [];
    if attrs.data.Some? {
      var ds := attrs.data.value;
      var i := 0;
      while i < |ds|
        invariant 0 <= i <= |ds|
        invariant forall k :: 0 <= k < i ==> ds[k].name != name
      {
        var a := ds[i];
        if a.name == name {
          FirstAtIndex(ds, i, name);
          var j := 0;
          while j < ParamsLength(a)
            invariant 0 <= j <= ParamsLength(a)
            invariant result == ParamTexts(a, content)[..j]
          {
            result := result + [GetParam(a, j, content)];
            j := j + 1;
          }
          assert ParamTexts(a, content)[..j] == ParamTexts(a, content);
          return;
        }
        i := i + 1;
      }
    }
  }

  // ----- flattening -----

  /**
   * The attributes that the uses in `ds` of registered classes expand to,
   * use by use in order.
   */
  function Expansions(ds: seq<AttributeDecl>, classes: seq<AttributeClassDecl>, content: string): seq<AttributeDecl>
    requires AllWithin(ds, content)
    requires forall i :: 0 <= i < |classes| ==> StoredTemplates(classes[i])
  {
    if |ds| == 0 then []
    else
      var d := ds[|ds| - 1];
      Expansions(ds[..|ds| - 1], classes, content) +
        match FindClass(classes, d.name)
        case None => []
        case Some(cls) =>
          FoundClassStored(classes, d.name);
          StoredTemplatesWithin(cls, content);
          NewAttributes(cls, d, content)
  }

  /** A class found in the registry is one of its classes. */
  lemma FoundClassStored(classes: seq<AttributeClassDecl>, name: string)
    requires forall i :: 0 <= i < |classes| ==> StoredTemplates(classes[i])
    ensures FindClass(classes, name).Some? ==> StoredTemplates(FindClass(classes, name).value)
  {
  }

  /** `flatten_attributes` on a list: the expansions are appended after the attributes. */
  method FlattenList(ds: seq<AttributeDecl>, global: GlobalContext, content: string) returns (r: seq<AttributeDecl>)
    requires global.Valid() && AllWithin(ds, content)
    ensures r == ds + Expansions(ds, global.attributeClasses, content)
  {
    var added: seq<AttributeDecl> := [];
    var i := 0;
    while i < |ds|
      invariant 0 <= i <= |ds|
      invariant added == Expansions(ds[..i], global.attributeClasses, content)
    {
      var a := ds[i];
      var cls := global.FindAttribute(a.name);
      assert ds[..i + 1][..i] == ds[..i];
      if cls.Some? {
        FoundClassStored(global.attributeClasses, a.name);
        StoredTemplatesWithin(cls.value, content);
        var more := OutputNewAttributes(cls.value, a, content);
        added := added + more;
      }
      i := i + 1;
    }
    assert ds[..i] == ds;
    r := ds + added;
  }

  /** `Attributes::flatten_attributes`: `None` stays `None`. */
  method Flatten(attrs: Attributes, global: GlobalContext, content: string) returns (r: Attributes)
    requires global.Valid() && (attrs.data.Some? ==> AllWithin(attrs.data.value, content))
    ensures attrs.data.None? ==> r == attrs
    ensures attrs.data.Some? ==> r.data == Some(attrs.data.value + Expansions(attrs.data.value, global.attributeClasses, content))
  {
    if attrs.data.None? {
      return attrs;
    }
    var ds := FlattenList(attrs.data.value, global, content);
    return Attributes(Some(ds));
  }

  /**
   * Only uses of registered classes expand: when no attribute names a
   * registered class, flattening adds nothing.
   */
  lemma {:induction false} NoClassNoExpansion(ds: seq<AttributeDecl>, classes: seq<AttributeClassDecl>, content: string)
    requires AllWithin(ds, content)
    requires forall i :: 0 <= i < |classes| ==> StoredTemplates(classes[i])
    requires forall i :: 0 <= i < |ds| ==> FindClass(classes, ds[i].name).None?
    ensures Expansions(ds, classes, content) == []
  {
    if |ds| > 0 {
      NoClassNoExpansion(ds[..|ds| - 1], classes, content);
    }
  }

  /**
   * Each use of a registered class expands to as many attributes as the
   * class has templates, so the expansion of a list is the sum of those.
   */
  lemma {:induction false} ExpansionsCount(ds: seq<AttributeDecl>, classes: seq<AttributeClassDecl>, content: string)
    requires AllWithin(ds, content)
    requires forall i :: 0 <= i < |classes| ==> StoredTemplates(classes[i])
    ensures |Expansions(ds, classes, content)| == TemplateCount(ds, classes)
  {
    if |ds| > 0 {
      ExpansionsCount(ds[..|ds| - 1], classes, content);
      var d := ds[|ds| - 1];
      var f := FindClass(classes, d.name);
      if f.Some? {
        FoundClassStored(classes, d.name);
        StoredTemplatesWithin(f.value, content);
        ExpansionKeepsTemplates(f.value, d, content);
      }
    }
  }

  /** The number of templates of the classes the attributes use. */
  function TemplateCount(ds: seq<AttributeDecl>, classes: seq<AttributeClassDecl>): nat {
    if |ds| == 0 then 0
    else
      TemplateCount(ds[..|ds| - 1], classes) +
        match FindClass(classes, ds[|ds| - 1].name)
        case None => 0
        case Some(cls) => |cls.attributes|
  }

  // ----- required includes -----

  /** What `get_required_includes` yields: at most one include, from the first `RequireInclude`. */
  function RequiredIncludes(attrs: Attributes): (r: seq<(string, bool)>)
  {
    match Find(attrs, "RequireInclude")
    case None => []
    case Some(a) =>
      if a.parameters.None? || |a.parameters.value| == 0 || !a.parameters.value[0].Right? then []
      else [(a.parameters.value[0].right, |a.parameters.value| <= 1)]
  }

  /**
   * At most one include is required. There is one exactly when the first
   * `RequireInclude` has a first parameter stored as text; the path is that
   * text, and the include is a system one exactly when it has no second
   * parameter.
   */
  lemma RequiredIncludesMeaning(attrs: Attributes)
    ensures |RequiredIncludes(attrs)| <= 1
    ensures |RequiredIncludes(attrs)| == 1 <==>
      Find(attrs, "RequireInclude").Some? && Find(attrs, "RequireInclude").value.parameters.Some? &&
      |Find(attrs, "RequireInclude").value.parameters.value| > 0 &&
      Find(attrs, "RequireInclude").value.parameters.value[0].Right?
    ensures |RequiredIncludes(attrs)| == 1 ==>
      var ps := Find(attrs, "RequireInclude").value.parameters.value;
      RequiredIncludes(attrs)[0] == (ps[0].right, |ps| <= 1)
    ensures !Has(attrs, "RequireInclude") ==> RequiredIncludes(attrs) == []
  {
    FindMeaning(attrs, "RequireInclude");
  }

  /** `get_required_includes`. */
  method GetRequiredIncludes(attrs: Attributes) returns (result: seq<(string, bool)>)
    ensures result == RequiredIncludes(attrs)
  {
    result := [];
    var has := HasAttribute(attrs, "RequireInclude");
    if has {
      var a := GetAttribute(attrs, "RequireInclude");
      if a.Some? && a.value.parameters.Some? {
        var p := a.value.parameters.value;
        if |p| > 0 && p[0].Right? {
          result := result + [(p[0].right, |p| <= 1)];
        }
      }
    } else {
      FindMeaning(attrs, "RequireInclude");
    }
  }
}
