/** The glue every registry shares: `r[k]` is `withdraw`, `r[k] = v` is
    `deposit` under `k`, and a registrar's `register` deposits into its
    registry, or writes the mapping directly when the registry has no
    `deposit`. */
module Base {
  import opened Common
  import opened Registration

  /** An `AbstractRegistry`: a plain `Registry` or an `Anthology`. */
  datatype AbstractRegistry = Plain(registry: Registry) | Chained(anthology: Anthology)
  {
    ghost predicate Valid()
      reads if Chained? then {anthology} else {}
    {
      Chained? ==> anthology.Valid()
    }

    /** The objects a deposit may write. */
    ghost function Footprint(): set<object>
      requires Valid()
      reads if Chained? then {anthology} else {}
    {
      if Plain? then {registry} else {anthology.contents[0], anthology.contents[1]}
    }
  }

  /** A mapping that has no `deposit` method, used as a registrar's registry. */
  class Mapping {
    var contents: map<string, Item>

    constructor ()
      ensures contents == map[]
    {
      contents := map[];
    }
  }

  /** What a registrar keeps in its `registry` attribute. */
  datatype RegistrarStore = WithDeposit(target: AbstractRegistry) | WithoutDeposit(mapping: Mapping)

  /** A plain registry's single item, in the shape an anthology returns. */
  function AsFound(r: Result<Item>): Result<Found>
  {
    match r
    case Ok(v) => Ok(Single(v))
    case Err(e) => Err(e)
  }

  /** `AbstractRegistry.__getitem__`: exactly `withdraw(key)`. */
  method GetItem(r: AbstractRegistry, key: string) returns (found: Result<Found>)
    requires r.Valid()
    ensures r.Plain? ==> found == AsFound(Withdrawn(r.registry.Value(), key))
    ensures r.Chained? ==> found == Search(r.anthology.View(), key, r.anthology.returnFirst)
  {
    match r
    case Plain(registry) =>
      var item := registry.Withdraw(key);
      found := AsFound(item);
    case Chained(anthology) =>
      found := anthology.Withdraw(key);
  }

  /** `AbstractRegistry.__setitem__`: exactly `deposit(value, name = key)`. */
  method SetItem(r: AbstractRegistry, key: string, value: Item, namer: Namer)
    requires r.Valid()
    modifies r.Footprint()
    ensures r.Valid()
    ensures r.Plain? ==> r.registry.Value() == Deposited(old(r.registry.Value()), value, Some(key), namer)
    ensures r.Chained? ==> r.anthology.View() == ChainDeposited(old(r.anthology.View()), value, Some(key), namer)
  {
    match r
    case Plain(registry) =>
      registry.Deposit(value, Some(key), namer);
    case Chained(anthology) =>
      anthology.Deposit(value, Some(key), namer);
  }

  /** `AbstractRegistrar.register`: `deposit(item, name)` when the registry
      has one, else the item is stored under `name or NAMER(item)`. */
  method Register(store: RegistrarStore, item: Item, name: Option<string>, namer: Namer)
    requires store.WithDeposit? ==> store.target.Valid()
    modifies if store.WithDeposit? then store.target.Footprint() else {store.mapping}
    ensures store.WithDeposit? ==> store.target.Valid()
    ensures store.WithDeposit? && store.target.Plain? ==>
      store.target.registry.Value() == Deposited(old(store.target.registry.Value()), item, name, namer)
    ensures store.WithDeposit? && store.target.Chained? ==>
      store.target.anthology.View() == ChainDeposited(old(store.target.anthology.View()), item, name, namer)
    ensures store.WithoutDeposit? ==>
      store.mapping.contents == old(store.mapping.contents)[KeyFor(item, name, namer) := item]
  {
    match store
    case WithDeposit(target) =>
      match target {
        case Plain(registry) =>
          registry.Deposit(item, name, namer);
        case Chained(anthology) =>
          anthology.Deposit(item, name, namer);
      }
    case WithoutDeposit(mapping) =>
      var key := KeyFor(item, name, namer);
      mapping.contents := mapping.contents[key := item];
  }
}
