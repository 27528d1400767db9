// The registry of globally available attribute classes
// (src/context_management/global_context.rs).

module GlobalContexts {
  import opened Wrappers
  import opened Text
  import opened AttributeClassDeclarations

  /** The names of the classes, in registration order. */
  function ClassNames(classes: seq<AttributeClassDecl>): (r: seq<string>)
    ensures |r| == |classes| && forall i :: 0 <= i < |r| ==> r[i] == classes[i].name
  {
    seq(|classes|, i requires 0 <= i < |classes| => classes[i].name)
  }

  /** The first class registered under `name`, if any. */
  function FindClass(classes: seq<AttributeClassDecl>, name: string): (r: Option<AttributeClassDecl>)
  {
    match FirstIndex(ClassNames(classes), name)
    case None => None
    case Some(i) => Some(classes[i])
  }

  /** Class `i` is named `name` and no earlier class is. */
  predicate FirstNamedAt(classes: seq<AttributeClassDecl>, i: int, name: string) {
    0 <= i < |classes| && classes[i].name == name && forall k :: 0 <= k < i ==> classes[k].name != name
  }

  /**
   * `find_attribute` finds a class exactly when one has the name, and the
   * one it finds is the earliest registered under it.
   */
  lemma FindClassMeaning(classes: seq<AttributeClassDecl>, name: string)
    ensures FindClass(classes, name).None? <==> forall i :: 0 <= i < |classes| ==> classes[i].name != name
    ensures FindClass(classes, name).Some? ==> exists i :: FirstNamedAt(classes, i, name) && classes[i] == FindClass(classes, name).value
  {
    var r := FirstIndex(ClassNames(classes), name);
    if r.Some? {
      assert FirstNamedAt(classes, r.value, name);
    }
  }

  /**
   * Registering a class never hides one registered earlier under the same
   * name; it is found only when no earlier class has its name.
   */
  lemma AddedClassFound(classes: seq<AttributeClassDecl>, cls: AttributeClassDecl, name: string)
    ensures FindClass(classes + [cls], name) ==
      if FindClass(classes, name).Some? then FindClass(classes, name)
      else if cls.name == name then Some(cls) else None
  {
    assert ClassNames(classes + [cls]) == ClassNames(classes) + [cls.name];
    FirstIndexAppend(ClassNames(classes), cls.name, name);
  }

  /** `GlobalContext`: the attribute classes seen so far, in registration order. */
  class GlobalContext {
    var attributeClasses: seq<AttributeClassDecl>

    /** Every registered class keeps its templates as stored text. */
    ghost predicate Valid()
      reads this
    {
      forall i :: 0 <= i < |attributeClasses| ==> StoredTemplates(attributeClasses[i])
    }

    constructor ()
      ensures attributeClasses == [] && Valid()
    {
      attributeClasses := [];
    }

    /** `add_attribute_class`. */
    method AddAttributeClass(cls: AttributeClassDecl)
      requires Valid() && StoredTemplates(cls)
      modifies this
      ensures attributeClasses == old(attributeClasses) + [cls] && Valid()
    {
      attributeClasses := attributeClasses + [cls];
    }

    /** `find_attribute`. */
    method FindAttribute(name: string) returns (r: Option<AttributeClassDecl>)
      ensures r == FindClass(attributeClasses, name)
    {
      var i := 0;
      while i < |attributeClasses|
        invariant 0 <= i <= |attributeClasses|
        invariant forall k :: 0 <= k < i ==> attributeClasses[k].name != name
      {
        if attributeClasses[i].name == name {
          ghost var names := ClassNames(attributeClasses);
          assert names[i] == name;
          return Some(attributeClasses[i]);
        }
        i := i + 1;
      }
      return None;
    }
  }
}
