// Static extensions registered by refurbish and abstract declarations
// (src/context_management/static_extension.rs).

module StaticExtensions {
  import opened Wrappers
  import opened VariableTypes
  import opened Members

  datatype StaticExtension = StaticExtension(name: string, func: FunctionSignature, extendType: VariableType)

  /**
   * `is_type`. `VariableType::is_equal` and `VarStyle::is_inferred` are not
   * part of this model and are passed in as `isEqual` and `isInferred`.
   */
  predicate IsType(e: StaticExtension, t: VariableType,
                   isEqual: (VariableType, VariableType) -> bool, isInferred: VarStyle -> bool)
  {
    if isEqual(e.extendType, t) then true
    else if isInferred(e.extendType.style) && e.extendType.varType == t.varType then true
    else if e.extendType.varType.Undeclared? && |e.extendType.varType.names| == 1 && t.varType.Class? then
      t.varType.className == e.extendType.varType.names[0]
    else false
  }

  /** An extension written for a one-name type also matches a class value of that name, whatever the oracles say. */
  lemma SingleNameMatchesClass(e: StaticExtension, t: VariableType,
                               isEqual: (VariableType, VariableType) -> bool, isInferred: VarStyle -> bool)
    requires t.varType.Class? && e.extendType.varType == Undeclared([t.varType.className])
    ensures IsType(e, t, isEqual, isInferred)
  {
  }

  /** With neither oracle holding, only the one-name rule can match. */
  lemma IsTypeWithoutOracles(e: StaticExtension, t: VariableType,
                             isEqual: (VariableType, VariableType) -> bool, isInferred: VarStyle -> bool)
    requires !isEqual(e.extendType, t) && !isInferred(e.extendType.style)
    ensures IsType(e, t, isEqual, isInferred) <==>
      t.varType.Class? && e.extendType.varType == Undeclared([t.varType.className])
  {
  }

  /** The first extension in `list` that matches `t`. */
  function FirstMatch(list: seq<StaticExtension>, t: VariableType,
                      isEqual: (VariableType, VariableType) -> bool, isInferred: VarStyle -> bool): (r: Option<StaticExtension>)
    ensures r.None? <==> forall i :: 0 <= i < |list| ==> !IsType(list[i], t, isEqual, isInferred)
    ensures r.Some? ==>
      exists i :: (0 <= i < |list| && list[i] == r.value && IsType(list[i], t, isEqual, isInferred) &&
        forall j :: 0 <= j < i ==> !IsType(list[j], t, isEqual, isInferred))
  {
    if |list| == 0 then None
    else if IsType(list[0], t, isEqual, isInferred) then Some(list[0])
    else
      var r := FirstMatch(list[1..], t, isEqual, isInferred);
      assert forall i :: 1 <= i < |list| ==> list[i] == list[1..][i - 1];
      if r.Some? then
        ghost var k :| 0 <= k < |list[1..]| && list[1..][k] == r.value && IsType(list[1..][k], t, isEqual, isInferred) &&
          forall j :: 0 <= j < k ==> !IsType(list[1..][j], t, isEqual, isInferred);
        assert list[k + 1] == r.value;
        assert forall j :: 0 <= j < k + 1 ==> !IsType(list[j], t, isEqual, isInferred) by {
          forall j | 0 <= j < k + 1 ensures !IsType(list[j], t, isEqual, isInferred) {
            if j > 0 {
              assert list[j] == list[1..][j - 1];
            }
          }
        }
        r
      else r
  }

  /** The list of extensions under a name after one more is inserted. */
  function Inserted(exts: map<string, seq<StaticExtension>>, name: string, e: StaticExtension): map<string, seq<StaticExtension>> {
    exts[name := (if name in exts then exts[name] else []) + [e]]
  }

  /**
   * Inserting keeps every earlier extension where it was, so a lookup that
   * succeeded before finds the same extension afterwards.
   */
  lemma {:induction false} InsertKeepsEarlierMatches(list: seq<StaticExtension>, e: StaticExtension, t: VariableType,
                                                     isEqual: (VariableType, VariableType) -> bool, isInferred: VarStyle -> bool)
    requires FirstMatch(list, t, isEqual, isInferred).Some?
    ensures FirstMatch(list + [e], t, isEqual, isInferred) == FirstMatch(list, t, isEqual, isInferred)
  {
    assert |list| > 0;
    if !IsType(list[0], t, isEqual, isInferred) {
      assert (list + [e])[1..] == list[1..] + [e];
      InsertKeepsEarlierMatches(list[1..], e, t, isEqual, isInferred);
    }
  }

  /** `StaticExtensionContext`: the extensions registered under each function name, in registration order. */
  class StaticExtensionContext {
    var extensions: map<string, seq<StaticExtension>>

    constructor ()
      ensures extensions == map[]
    {
      extensions := map[];
    }

    /** `insert`: appends to the name's list, creating it when absent. */
    method Insert(name: string, e: StaticExtension)
      modifies this
      ensures extensions == Inserted(old(extensions), name, e)
      ensures forall n :: n in old(extensions) ==> n in extensions && old(extensions)[n] <= extensions[n]
    {
      if name in extensions {
        extensions := extensions[name := extensions[name] + [e]];
      } else {
        assert [] + [e] == [e];
        extensions := extensions[name := [e]];
      }
    }

    /** `find`: the first extension registered under the name that matches `t`, or `None`. */
    function Find(name: string, t: VariableType,
                  isEqual: (VariableType, VariableType) -> bool, isInferred: VarStyle -> bool): (r: Option<StaticExtension>)
      reads this
      ensures name !in extensions ==> r.None?
      ensures name in extensions ==> r == FirstMatch(extensions[name], t, isEqual, isInferred)
    {
      if name in extensions then FirstMatch(extensions[name], t, isEqual, isInferred) else None
    }
  }
}
