// The scope stack of known names (src/context_management/typing_context.rs).

module TypingContexts {
  import opened Wrappers
  import opened VariableTypes
  import opened Members

  /**
   * What a name is bound to. `QuantumFunction` (a set of overloads) is
   * stored by the context manager although the enum in the typing context
   * does not list it; it is here so that both files have one type.
   */
  datatype ContextType =
    | Variable(varType: VariableType)
    | Function(func: FunctionSignature)
    | Class(cls: ClassType)
    | Namespace(members: map<string, ContextType>)
    | QuantumFunction(overloads: seq<FunctionSignature>)

  type Scope = map<string, ContextType>

  /** The global scope: "std" is an empty namespace. */
  function GlobalData(): (g: Scope)
    ensures "std" in g && g["std"] == Namespace(map[]) && |g.Keys| == 1
  {
    assert map["std" := Namespace(map[])].Keys == {"std"};
    map["std" := Namespace(map[])]
  }

  /** The binding of `name` in the innermost (last) scope that has one. */
  function Lookup(scopes: seq<Scope>, name: string): Option<ContextType>
  {
    if |scopes| == 0 then None
    else if name in scopes[|scopes| - 1] then Some(scopes[|scopes| - 1][name])
    else Lookup(scopes[..|scopes| - 1], name)
  }

  /**
   * `Lookup` finds a binding exactly when some scope binds the name, and
   * the one it finds is that of the last such scope: no later scope binds it.
   */
  lemma {:induction false} LookupInnermost(scopes: seq<Scope>, name: string)
    ensures Lookup(scopes, name).Some? <==> exists i :: 0 <= i < |scopes| && name in scopes[i]
    ensures Lookup(scopes, name).Some? ==>
      exists i :: 0 <= i < |scopes| && name in scopes[i] && Lookup(scopes, name).value == scopes[i][name] &&
        forall j :: i < j < |scopes| ==> name !in scopes[j]
    decreases |scopes|
  {
    if |scopes| > 0 {
      var n := |scopes| - 1;
      if name !in scopes[n] {
        var front := scopes[..n];
        LookupInnermost(front, name);
        if Lookup(scopes, name).Some? {
          var i :| 0 <= i < |front| && name in front[i] && Lookup(front, name).value == front[i][name] &&
            forall j :: i < j < |front| ==> name !in front[j];
          assert name in scopes[i] && Lookup(scopes, name).value == scopes[i][name];
          assert forall j :: i < j < |scopes| ==> name !in scopes[j] by {
            forall j | i < j < |scopes| ensures name !in scopes[j] {
              if j < n {
                assert scopes[j] == front[j];
              }
            }
          }
        }
        if exists i :: 0 <= i < |scopes| && name in scopes[i] {
          var i :| 0 <= i < |scopes| && name in scopes[i];
          assert i < n && front[i] == scopes[i];
        }
      }
    }
  }

  /** Stacking scopes on top: a name the upper scopes bind shadows the lower ones. */
  lemma {:induction false} LookupStacked(lower: seq<Scope>, upper: seq<Scope>, name: string)
    ensures Lookup(lower + upper, name) == if Lookup(upper, name).Some? then Lookup(upper, name) else Lookup(lower, name)
    decreases |upper|
  {
    if |upper| > 0 {
      var n := |upper| - 1;
      assert (lower + upper)[..|lower + upper| - 1] == lower + upper[..n];
      assert (lower + upper)[|lower + upper| - 1] == upper[n];
      LookupStacked(lower, upper[..n], name);
    } else {
      assert lower + upper == lower;
    }
  }

  /** The stack after binding `name` in the innermost scope. */
  function Bound(scopes: seq<Scope>, name: string, v: ContextType): (r: seq<Scope>)
    requires |scopes| > 0
    ensures |r| == |scopes| && r[..|r| - 1] == scopes[..|scopes| - 1]
  {
    scopes[..|scopes| - 1] + [scopes[|scopes| - 1][name := v]]
  }

  /** After binding, the name resolves to the new value and every other name resolves as before. */
  lemma BoundLookup(scopes: seq<Scope>, name: string, v: ContextType, other: string)
    requires |scopes| > 0
    ensures Lookup(Bound(scopes, name, v), name) == Some(v)
    ensures other != name ==> Lookup(Bound(scopes, name, v), other) == Lookup(scopes, other)
  {
    var r := Bound(scopes, name, v);
    assert r[|r| - 1] == scopes[|scopes| - 1][name := v];
  }

  /** `TypingContext`: a stack of scopes, innermost last. */
  class TypingContext {
    var knownData: seq<Scope>

    /** `new`: the global scope (unless module-only) and one empty scope on top. */
    constructor (moduleOnly: bool)
      ensures knownData == (if moduleOnly then [] else [GlobalData()]) + [map[]]
    {
      knownData := (if moduleOnly then [] else [GlobalData()]) + [map[]];
    }

    /** `add`: the other context's scopes are stacked on top of these. */
    method Add(other: TypingContext)
      modifies this
      ensures knownData == old(knownData) + old(other.knownData)
    {
      var added := other.knownData;
      var i := 0;
      while i < |added|
        invariant 0 <= i <= |added|
        invariant knownData == old(knownData) + added[..i]
      {
        knownData := knownData + [added[i]];
        assert added[..i + 1] == added[..i] + [added[i]];
        i := i + 1;
      }
      assert added[..i] == added;
    }

    /** `get_item`: the scopes are searched from the innermost outwards. */
    method GetItem(name: string) returns (r: Option<ContextType>)
      ensures r == Lookup(knownData, name)
    {
      var i := |knownData|;
      assert knownData[..i] == knownData;
      while i > 0
        invariant 0 <= i <= |knownData|
        invariant Lookup(knownData, name) == Lookup(knownData[..i], name)
      {
        if name in knownData[i - 1] {
          return Some(knownData[i - 1][name]);
        }
        assert knownData[..i - 1] == knownData[..i][..i - 1];
        i := i - 1;
      }
      return None;
    }

    /** `push_context`: a new empty innermost scope. */
    method PushContext()
      modifies this
      ensures knownData == old(knownData) + [map[]]
    {
      knownData := knownData + [map[]];
    }

    /** `pop_context`: the innermost scope is dropped; an empty stack stays empty. */
    method PopContext()
      modifies this
      ensures knownData == if |old(knownData)| == 0 then [] else old(knownData)[..|old(knownData)| - 1]
    {
      if |knownData| > 0 {
        knownData := knownData[..|knownData| - 1];
      }
    }

    /**
     * `add_variable`: binds the name in the innermost scope only. With no
     * scope at all the source's unwrap panics; `added` is false there and
     * nothing changes.
     */
    method AddVariable(name: string, t: VariableType) returns (added: bool)
      modifies this
      ensures added <==> |old(knownData)| > 0
      ensures added ==> knownData == Bound(old(knownData), name, Variable(t))
      ensures !added ==> knownData == old(knownData)
    {
      if |knownData| == 0 {
        return false;
      }
      knownData := knownData[..|knownData| - 1] + [knownData[|knownData| - 1][name := Variable(t)]];
      return true;
    }

    /**
     * `add_function`: binds the name in the innermost scope only. With no
     * scope at all the source's unwrap panics; `added` is false there and
     * nothing changes.
     */
    method AddFunction(name: string, f: FunctionSignature) returns (added: bool)
      modifies this
      ensures added <==> |old(knownData)| > 0
      ensures added ==> knownData == Bound(old(knownData), name, ContextType.Function(f))
      ensures !added ==> knownData == old(knownData)
    {
      if |knownData| == 0 {
        return false;
      }
      knownData := knownData[..|knownData| - 1] + [knownData[|knownData| - 1][name := ContextType.Function(f)]];
      return true;
    }
  }

  /** Pushing a scope and popping it again leaves the stack as it was, and an empty scope hides nothing. */
  lemma PushPopRestores(scopes: seq<Scope>, name: string)
    ensures var pushed := scopes + [map[]]; pushed[..|pushed| - 1] == scopes
    ensures Lookup(scopes + [map[]], name) == Lookup(scopes, name)
  {
    var pushed := scopes + [map[]];
    assert pushed[..|pushed| - 1] == scopes;
  }

  /** In a fresh full context "std" names the empty namespace; a module-only context knows nothing. */
  lemma FreshContextLookup(name: string)
    ensures Lookup([GlobalData(), map[]], "std") == Some(Namespace(map[]))
    ensures Lookup([map[]], name) == None
  {
    var s: seq<Scope> := [GlobalData(), map[]];
    assert s[..1] == [GlobalData()];
    assert [GlobalData()][..0] == [];
    var m: seq<Scope> := [map[]];
    assert m[..0] == [];
  }
}
