// The per-file contexts and the registry of typed declarations
// (src/context_management/context_manager.rs).

module ContextManagers {
  import opened Wrappers
  import opened VariableTypes
  import opened Members
  import opened TypingContexts
  import opened Contexts

  /** Every id in use lies between 1 and `maxId`. */
  predicate IdsBelow(refs: map<nat, ContextType>, maxId: nat) {
    forall id :: id in refs ==> 1 <= id <= maxId
  }

  /** The registry after `add_context_type`: the next id and the registry with that id bound. */
  function Registered(refs: map<nat, ContextType>, maxId: nat, t: ContextType): (nat, map<nat, ContextType>) {
    (maxId + 1, refs[maxId + 1 := t])
  }

  /**
   * Registering hands out an id not in use, larger than every id in use,
   * and keeps every earlier entry.
   */
  lemma RegisteredIsFresh(refs: map<nat, ContextType>, maxId: nat, t: ContextType)
    requires IdsBelow(refs, maxId)
    ensures var (id, r) := Registered(refs, maxId, t);
      id !in refs && (forall k :: k in refs ==> k < id) && IdsBelow(r, id) &&
      r[id] == t && (forall k :: k in refs ==> k in r && r[k] == refs[k]) && r.Keys == refs.Keys + {id}
  {
  }

  /** The registry after an `update_*`: rebound only if the id is in use. */
  function Updated(refs: map<nat, ContextType>, id: nat, t: ContextType): (bool, map<nat, ContextType>) {
    if id in refs then (true, refs[id := t]) else (false, refs)
  }

  /** An update never adds an id, and it succeeds exactly for an id in use. */
  lemma UpdatedKeepsIds(refs: map<nat, ContextType>, maxId: nat, id: nat, t: ContextType)
    requires IdsBelow(refs, maxId)
    ensures var (ok, r) := Updated(refs, id, t);
      r.Keys == refs.Keys && IdsBelow(r, maxId) && (ok <==> id in refs) && (ok ==> r[id] == t)
  {
  }

  /** `ContextManager`: the contexts of every file, and the registry of typed declarations by id. */
  class ContextManager {
    var contexts: map<string, Context>
    var dataRefs: map<nat, ContextType>
    var maxId: nat

    ghost predicate Valid()
      reads this
    {
      IdsBelow(dataRefs, maxId)
    }

    constructor ()
      ensures contexts == map[] && dataRefs == map[] && maxId == 0 && Valid()
    {
      contexts := map[];
      dataRefs := map[];
      maxId := 0;
    }

    /** `add_context`: inserts or overwrites the file's context. */
    method AddContext(id: string, ctx: Context)
      modifies this
      ensures contexts == old(contexts)[id := ctx]
      ensures dataRefs == old(dataRefs) && maxId == old(maxId)
    {
      contexts := contexts[id := ctx];
    }

    /** `module_exists`. */
    predicate ModuleExists(file: string)
      reads this
    {
      file in contexts
    }

    /** `take_context`: removes the file's context, which must be there (the source unwraps). */
    method TakeContext(file: string) returns (ctx: Context)
      requires file in contexts
      modifies this
      ensures ctx == old(contexts)[file] && contexts == old(contexts) - {file}
      ensures dataRefs == old(dataRefs) && maxId == old(maxId)
    {
      ctx := contexts[file];
      contexts := contexts - {file};
    }

    /** `get_context_type`. */
    function GetContextType(id: nat): (r: Option<ContextType>)
      reads this
      ensures r.Some? <==> id in dataRefs
      ensures r.Some? ==> r.value == dataRefs[id]
    {
      if id in dataRefs then Some(dataRefs[id]) else None
    }

    /** `add_context_type`: stores the entry under the next id and returns that id. */
    method AddContextType(t: ContextType) returns (id: nat)
      requires Valid()
      modifies this
      ensures Valid()
      ensures (id, dataRefs) == Registered(old(dataRefs), old(maxId), t) && maxId == id
      ensures contexts == old(contexts)
    {
      maxId := maxId + 1;
      dataRefs := dataRefs[maxId := t];
      id := maxId;
    }

    /** The shared body of the four `update_*` methods. */
    method Update(id: nat, t: ContextType) returns (ok: bool)
      requires Valid()
      modifies this
      ensures Valid()
      ensures (ok, dataRefs) == Updated(old(dataRefs), id, t)
      ensures contexts == old(contexts) && maxId == old(maxId)
    {
      if id in dataRefs {
        dataRefs := dataRefs[id := t];
        return true;
      }
      return false;
    }

    /** `update_var`. */
    method UpdateVar(id: nat, v: VariableType) returns (ok: bool)
      requires Valid()
      modifies this
      ensures Valid()
      ensures (ok, dataRefs) == Updated(old(dataRefs), id, Variable(v))
      ensures contexts == old(contexts) && maxId == old(maxId)
    {
      ok := Update(id, Variable(v));
    }

    /** `update_func`. */
    method UpdateFunc(id: nat, f: FunctionSignature) returns (ok: bool)
      requires Valid()
      modifies this
      ensures Valid()
      ensures (ok, dataRefs) == Updated(old(dataRefs), id, ContextType.Function(f))
      ensures contexts == old(contexts) && maxId == old(maxId)
    {
      ok := Update(id, ContextType.Function(f));
    }

    /** `update_quantum_func`. */
    method UpdateQuantumFunc(id: nat, fs: seq<FunctionSignature>) returns (ok: bool)
      requires Valid()
      modifies this
      ensures Valid()
      ensures (ok, dataRefs) == Updated(old(dataRefs), id, QuantumFunction(fs))
      ensures contexts == old(contexts) && maxId == old(maxId)
    {
      ok := Update(id, QuantumFunction(fs));
    }

    /** `update_class`. */
    method UpdateClass(id: nat, c: ClassType) returns (ok: bool)
      requires Valid()
      modifies this
      ensures Valid()
      ensures (ok, dataRefs) == Updated(old(dataRefs), id, ContextType.Class(c))
      ensures contexts == old(contexts) && maxId == old(maxId)
    {
      ok := Update(id, ContextType.Class(c));
    }
  }
}
