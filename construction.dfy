/** Factory dispatch: `SourceFactory` and `TypeFactory` pick a `from_<suffix>`
    class method from the source's type; the registry-backed factories
    deep-copy what they withdraw before finishing it. */
module Construction {
  import opened Common
  import opened Registration

  /** Keyword arguments for a creation method. */
  type Parameters = map<string, Item>

  /** `parameters or {}`. */
  function Resolve(parameters: Option<Parameters>): (p: Parameters)
  {
    if parameters.None? then map[] else parameters.value
  }

  /** The call a dispatching factory makes: `method(source, **parameters)`. */
  datatype Call = Call(methodName: string, source: Item, parameters: Parameters)

  /** How names are made: `KEYER` on items, and `KEYER` applied to a string
      (a type's suffix), from which `METHOD_NAMER` builds `from_<key>`. */
  datatype Naming = Naming(keyer: Namer, textKeyer: string -> string)

  const MethodPrefix: string := "from_"

  /** `METHOD_NAMER(suffix)`. */
  function MethodName(suffix: string, naming: Naming): (name: string)
    ensures |name| == |MethodPrefix| + |naming.textKeyer(suffix)|
    ensures name[..|MethodPrefix|] == MethodPrefix && name[|MethodPrefix|..] == naming.textKeyer(suffix)
  {
    MethodPrefix + naming.textKeyer(suffix)
  }

  /** Two suffixes dispatch to the same `from_...` method exactly when
      `KEYER` gives them the same key: the prefix never blurs two keys. */
  lemma MethodNamesMatchKeys(a: string, b: string, naming: Naming)
    ensures MethodName(a, naming) == MethodName(b, naming) <==> naming.textKeyer(a) == naming.textKeyer(b)
  {
    if MethodName(a, naming) == MethodName(b, naming) {
      assert MethodName(a, naming)[|MethodPrefix|..] == MethodName(b, naming)[|MethodPrefix|..];
    }
  }

  /** The message of the `KeyError` raised when no source type matches. */
  const NoMatch: string := "source does not match any recognized types"

  /** The position of the first `(kind, suffix)` pair whose kind the source is
      an instance of, or `|sources|`. */
  function FirstKind(sources: seq<(ClassId, string)>, source: Item, isInstance: (Item, ClassId) -> bool): (k: nat)
    ensures k <= |sources|
    ensures k < |sources| ==> isInstance(source, sources[k].0)
    ensures forall j | 0 <= j < k :: !isInstance(source, sources[j].0)
    decreases |sources|
  {
    if sources == [] then 0
    else if isInstance(source, sources[0].0) then 0
    else 1 + FirstKind(sources[1..], source, isInstance)
  }

  /** `SourceFactory.create`: `sources` is the class's ordered `sources`
      mapping, `methods` the class attributes that exist. */
  function SourceCreated(sources: seq<(ClassId, string)>, methods: set<string>, source: Item,
                         parameters: Option<Parameters>, isInstance: (Item, ClassId) -> bool,
                         naming: Naming): Result<Call>
  {
    var k := FirstKind(sources, source, isInstance);
    if k == |sources| then Err(KeyError(NoMatch))
    else
      var name := MethodName(sources[k].1, naming);
      if name in methods then Ok(Call(name, source, Resolve(parameters))) else Err(AttributeError(name))
  }

  /** `create` dispatches on the first kind, in declaration order, that the
      source is an instance of; if its method is missing it raises
      `AttributeError` naming the method and tries no later kind. */
  lemma SourceDispatchesOnFirstKind(sources: seq<(ClassId, string)>, methods: set<string>, source: Item,
                                    parameters: Option<Parameters>, isInstance: (Item, ClassId) -> bool,
                                    naming: Naming, k: nat)
    requires k < |sources| && isInstance(source, sources[k].0)
    requires forall j | 0 <= j < k :: !isInstance(source, sources[j].0)
    ensures var name := MethodName(sources[k].1, naming);
      SourceCreated(sources, methods, source, parameters, isInstance, naming)
        == if name in methods then Ok(Call(name, source, Resolve(parameters))) else Err(AttributeError(name))
  {
  }

  /** `create` raises `KeyError` exactly when the source is an instance of
      none of the kinds. */
  lemma SourceNoMatch(sources: seq<(ClassId, string)>, methods: set<string>, source: Item,
                      parameters: Option<Parameters>, isInstance: (Item, ClassId) -> bool, naming: Naming)
    ensures SourceCreated(sources, methods, source, parameters, isInstance, naming) == Err(KeyError(NoMatch))
      <==> forall j | 0 <= j < |sources| :: !isInstance(source, sources[j].0)
  {
  }

  /** The chosen method gets the source itself and the parameters, an empty
      mapping when none were passed. */
  lemma SourceForwardsArguments(sources: seq<(ClassId, string)>, methods: set<string>, source: Item,
                                parameters: Option<Parameters>, isInstance: (Item, ClassId) -> bool, naming: Naming)
    requires SourceCreated(sources, methods, source, parameters, isInstance, naming).Ok?
    ensures var call := SourceCreated(sources, methods, source, parameters, isInstance, naming).value;
      && call.source == source
      && call.methodName in methods
      && (parameters.None? ==> call.parameters == map[])
      && (parameters.Some? ==> call.parameters == parameters.value)
  {
  }

  /** `TypeFactory.create`: the method is `METHOD_NAMER(NAMER(type(source)))`;
      `typeOf` is Python's `type`. */
  function TypeCreated(methods: set<string>, source: Item, parameters: Option<Parameters>,
                       typeOf: Item -> ClassId, naming: Naming): Result<Call>
  {
    var name := MethodName(naming.keyer(Class(typeOf(source))), naming);
    if name in methods then Ok(Call(name, source, Resolve(parameters))) else Err(AttributeError(name))
  }

  /** The method depends only on the source's type: it succeeds iff the
      derived `from_...` method exists, and otherwise raises `AttributeError`
      naming it; two sources of one type reach the same method. */
  lemma TypeDispatch(methods: set<string>, source: Item, other: Item, parameters: Option<Parameters>,
                     typeOf: Item -> ClassId, naming: Naming)
    ensures var name := MethodPrefix + naming.textKeyer(naming.keyer(Class(typeOf(source))));
      && (TypeCreated(methods, source, parameters, typeOf, naming).Ok? <==> name in methods)
      && (name !in methods ==> TypeCreated(methods, source, parameters, typeOf, naming) == Err(AttributeError(name)))
      && (TypeCreated(methods, source, parameters, typeOf, naming).Ok? ==>
            TypeCreated(methods, source, parameters, typeOf, naming).value == Call(name, source, Resolve(parameters)))
    ensures typeOf(other) == typeOf(source) ==>
      TypeCreated(methods, other, parameters, typeOf, naming).Ok? == TypeCreated(methods, source, parameters, typeOf, naming).Ok?
  {
  }

  /** `copy.deepcopy`: a class copies to itself; an instance copies to a new
      object (identity `copyId`) of the same class. */
  function DeepCopy(item: Item, copyId: nat): Item
  {
    match item
    case Class(_) => item
    case Instance(_, cls) => Instance(copyId, cls)
  }

  /** A deep copy keeps the class, and a copied instance is never the stored
      object when the new identity is unused. */
  lemma DeepCopyIsDetached(item: Item, copyId: nat)
    ensures DeepCopy(item, copyId).Testable() == item.Testable()
    ensures DeepCopy(item, copyId).Class? == item.Class?
    ensures item.Class? ==> DeepCopy(item, copyId) == item
    ensures item.Instance? && copyId != item.oid ==> DeepCopy(item, copyId) != item
  {
  }

  /** `_finalize_product(item, parameters)`, abstract in the factories. */
  type Finalizer = (Item, Option<Parameters>) -> Item

  /** `InstanceFactory.create` and `SubclassFactory.create`: withdraw the
      source, deep-copy it, then finalise the copy. */
  function RegistryCreated(r: RegistryValue, source: string, parameters: Option<Parameters>,
                           copyId: nat, finalize: Finalizer): Result<Item>
  {
    match Withdrawn(r, source)
    case Err(e) => Err(e)
    case Ok(item) => Ok(finalize(DeepCopy(item, copyId), parameters))
  }

  /** What the finaliser receives is a copy of the stored item: the same
      class, but for an instance never the stored object itself; a miss
      without a default is the registry's `KeyError`. */
  lemma RegistryCreateCopies(r: RegistryValue, source: string, parameters: Option<Parameters>,
                             copyId: nat, finalize: Finalizer)
    ensures source in r.contents ==>
      RegistryCreated(r, source, parameters, copyId, finalize)
        == Ok(finalize(DeepCopy(r.contents[source], copyId), parameters))
    ensures source !in r.contents && r.fallback.None? ==>
      RegistryCreated(r, source, parameters, copyId, finalize) == Err(KeyError(source))
    ensures source in r.contents && r.contents[source].Instance? && copyId != r.contents[source].oid ==>
      DeepCopy(r.contents[source], copyId) != r.contents[source]
  {
  }

  /** `CombinedFactory.create`: like the others, then a class product is
      instantiated (as a new object `instance`). */
  function CombinedCreated(r: RegistryValue, source: string, parameters: Option<Parameters>,
                           copyId: nat, newId: nat, finalize: Finalizer): Result<Item>
  {
    match RegistryCreated(r, source, parameters, copyId, finalize)
    case Err(e) => Err(e)
    case Ok(product) => if product.Class? then Ok(Instance(newId, product.id)) else Ok(product)
  }

  /** `CombinedFactory.create` never returns a class: a class product becomes
      an instance of that class, anything else is returned as is. */
  lemma CombinedNeverClass(r: RegistryValue, source: string, parameters: Option<Parameters>,
                           copyId: nat, newId: nat, finalize: Finalizer)
    ensures var c := CombinedCreated(r, source, parameters, copyId, newId, finalize);
      var p := RegistryCreated(r, source, parameters, copyId, finalize);
      && (c.Ok? <==> p.Ok?)
      && (c.Ok? ==> c.value.Instance? && c.value.Testable() == p.value.Testable())
      && (c.Ok? && p.value.Instance? ==> c.value == p.value)
  {
  }
}
