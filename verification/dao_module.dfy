/**
 * The persistence gateway: one record per module name. The database engine
 * is replaced by a finite map.
 */
module DaoModule {
  import ModuleBase
  import opened Modules

  type Store = map<string, ModuleBase.Record>

  /** `save(module)`: the module's exported record under its name, every other record untouched. */
  function Save(store: Store, m: AnyModule): (store': Store)
    ensures Name(m) in store' && store'[Name(m)] == ToData(m)
    ensures forall k :: k != Name(m) ==> (k in store' <==> k in store)
    ensures forall k :: k != Name(m) && k in store ==> store'[k] == store[k]
  {
    store[Name(m) := ToData(m)]
  }

  /**
   * `load(module)`: the stored record is imported when there is one; with
   * none the module keeps its values. The store itself is only read.
   */
  function Load(store: Store, m: AnyModule): (m': AnyModule)
    ensures Name(m) !in store ==> m' == m
    ensures Name(m) in store ==> m' == FromData(m, store[Name(m)])
    ensures SameIdentity(m, m')
    ensures Valid(m) ==> Valid(m')
  {
    if Name(m) in store then FromData(m, store[Name(m)]) else m
  }

  /** Loading a valid module right after saving it gives the same module back. */
  lemma LoadAfterSave(store: Store, m: AnyModule)
    requires Valid(m)
    ensures Load(Save(store, m), m) == m
  {
    DataRoundTrip(m);
  }

  /** Saving one module does not affect what another module loads. */
  lemma LoadAfterOtherSave(store: Store, m: AnyModule, other: AnyModule)
    requires Name(other) != Name(m)
    ensures Load(Save(store, other), m) == Load(store, m)
  {
  }
}
