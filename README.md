# ashford registries, librarian, factories and validators in Dafny

This project models the in-memory registration layer of the Python package
ashford, and proves properties of that model:

- `Registry`: a key -> item store with a `default_factory` fallback.
- `Anthology`: an instance registry chained before a subclass registry.
- The registration hooks of `Instancer`, `Subclasser` and `Curator`.
- The `AbstractRegistry` / `AbstractRegistrar` glue: `r[k]`, `r[k] = v` and `register`.
- `Library` and `Librarian`, the registry of registries that files each item
  into the library of its base type.
- The dispatching factories `SourceFactory` and `TypeFactory`, and the
  deep-copying registry-backed factories.
- The bound validators `BonafideMaximum`, `BonafideMinimum` and `BonafideRange`.
- `DefaultValidator.__get__` and `FactoryValidator.validate`.
- The `TypeValidator` setter descriptor.

Items are values: a class is an id, and an instance is an object id plus its
class id (`Common.Item`). The parts of Python that the code relies on but
does not define are parameters of the model:

- the key function (`KEYER`, also called `NAMER`), from item to string;
- `issubclass`, `isinstance` and `inspect.isabstract`;
- `type(...)`;
- what calling a stored `default_factory` does;
- `_finalize_product`;
- which class methods exist.

Each source object that is updated in place is a Dafny class. These are
`Registry`, `Anthology`, `Library`, `Librarian`, the `TypeValidator`
descriptor and the object it writes to. Each class has a value view
(`Registry.Value()`, `Anthology.View()`, `Library.Value()`,
`Librarian.View()`). Every state-changing method states its new view as a
pure function of the old one, and the lemmas are proved about those pure
functions.

The two validator modules (`ashford/validators.py`, `src/ashford/validators.py`)
are identical, and so are the two setter modules (`ashford/setters.py`,
`src/ashford/setters.py`). The bound validators in all four files share the
same code, so one definition in module `Validators` models all four copies.
The table cites each copy at least once.

Behaviour worth knowing, modelled as the code has it:

- `Anthology.withdraw` with `return_first` off returns a one-element list, not
  the item, when only one slot holds the key (`Registration.AllMatches`).
- `Librarian.libraries` is a dict built from `contents`. When two libraries
  share a name, the later one wins, while the name keeps the dict position of
  its first occurrence (`Unified.NameOrderByFirstOccurrence`). `classify` walks that dict, so a library shadowed by a
  later namesake is never consulted (`Unified.ShadowedLibraryIsSkipped`). With
  distinct names, `classify` finds the first library in contents order
  (`Unified.ClassifyInContentsOrder`).
- `_get_name` calls `str.dropprefix`, which does not exist. A name that starts
  with a removable prefix (`project_`) therefore raises `AttributeError`
  instead of being shortened (`Unified.FiledPrefixedRaises`).

## Model

| member | source | states |
|---|---|---|
| `Registration.DepositThenWithdraw` | ashford/registration.py:83-84 | after `deposit(x, n)`, `withdraw(n)` returns `x`; with no or an empty name, `withdraw(NAMER(x))` returns `x` |
| `Registration.LastWriteWins` | ashford/registration.py:83-84 | two deposits whose keys coincide, explicit or inferred by `NAMER`, leave the later item under that key; every other key reads as before |
| `Registration.MissWithoutDefault` | ashford/registration.py:100-104 | a stored key yields its item; an absent key without a default raises `KeyError` |
| `Registration.MissWithDefault` | ashford/registration.py:102-108 | an absent key with a default yields `default_factory()`, or `default_factory` itself when calling it raises `TypeError` |
| `Registration.Registry.constructor` | ashford/base.py:123-125 | a new registry has empty contents and no default |
| `Registration.Registry.WithDefault` | ashford/registration.py:64-66 | a registry created with a default starts empty with that default |
| `Registration.Registry.Deposit` | ashford/registration.py:70-85 | the registry's new state stores the item under name-or-inferred key, all else unchanged |
| `Registration.Registry.Withdraw` | ashford/registration.py:87-108 | the result is the stored item, else `KeyError`, else the default's outcome, and the registry is not changed |
| `Registration.SearchTwo` | ashford/registration.py:256-269 | the two-slot search, spelled out from each slot's own withdraw result, instance slot first |
| `Registration.InstancesFirst` | ashford/registration.py:256-261 | with `return_first`, a key in the instance slot yields that item, and otherwise the subclass slot's item |
| `Registration.MissIffAbsent` | ashford/registration.py:264-265 | without defaults, `withdraw` raises `KeyError` exactly when neither slot holds the key, in either mode |
| `Registration.AllMatches` | ashford/registration.py:266-269 | with `return_first` off: two hits yield the instance-slot item; a single hit yields a one-element list |
| `Registration.ClassDeposit` | ashford/registration.py:199-200 | depositing a class writes only the subclass slot, under the given name |
| `Registration.InstanceDeposit` | ashford/registration.py:201-203 | depositing an instance writes it under name-or-key in the instance slot and its class under the class's own key in the subclass slot; both keys are then found |
| `Registration.Anthology.constructor` | ashford/registration.py:145-173 | a new anthology holds exactly two distinct, new, empty registries: `instances` is slot 0, `subclasses` slot 1 |
| `Registration.Anthology.DepositInstance` | ashford/registration.py:206-224 | the instance slot receives the deposit |
| `Registration.Anthology.DepositSubclass` | ashford/registration.py:226-244 | the subclass slot receives the deposit |
| `Registration.Anthology.Deposit` | ashford/registration.py:177-204 | the two slots change as the chained deposit says (class: subclass slot; instance: both slots) |
| `Registration.ChainDepositKeepsDefaults` | ashford/registration.py:177-204 | a deposit into an anthology keeps each slot's `default_factory`, so an anthology without defaults keeps having none |
| `Registration.Anthology.Withdraw` | ashford/registration.py:246-269 | the loop over the slots returns what the chained search specifies, including its early returns |
| `Registration.InstancerCreated` | ashford/registration.py:308-315 | a new instance is stored in the shared registry under its inferred key |
| `Registration.SubclasserDefined` | ashford/registration.py:331-339 | a new subclass is stored in the shared registry under its inferred key |
| `Registration.CuratorCreated` | ashford/registration.py:343-351 | the anthology's new view is the old one with the instance deposited in the instance slot and its class in the subclass slot; both `default_factory`s are kept |
| `Registration.CuratorDefined` | ashford/registration.py:343-351 | the anthology's new view is the old one with the subclass deposited in the subclass slot only; both `default_factory`s are kept |
| `Base.GetItem` | ashford/base.py:159-169 | `r[k]` is exactly `r.withdraw(k)`, for a registry and for an anthology |
| `Base.SetItem` | ashford/base.py:171-180 | `r[k] = v` is exactly `r.deposit(v, name = k)` |
| `Base.Register` | ashford/base.py:104-108 | `register` is `deposit(item, name)` when the registry has one; otherwise it stores the item under name-or-key |
| `Unified.ShelvedStores` | ashford/unified.py:91-93 | a library deposit stores the item under its key and keeps the name; the default is set only when absent and the item is concrete |
| `Unified.DefaultIsFirstConcrete` | ashford/unified.py:92-93 | after any series of deposits the default is the first concrete item deposited, and once set it never changes |
| `Unified.Library.constructor` | ashford/unified.py:63-66 | a new library is empty and has no default |
| `Unified.Library.Deposit` | ashford/unified.py:78-95 | the library's new state is the deposit applied to its old state |
| `Unified.Libraries` | ashford/unified.py:174-183 | every library name is a key, mapped to a position at or after each library carrying it; every key maps to a library of that name |
| `Unified.LastLibraryOwnsName` | ashford/unified.py:183 | the most recently added library is the one its name maps to |
| `Unified.Defaults` | ashford/unified.py:163-172 | `defaults` has exactly the keys of `libraries` |
| `Unified.DefaultsFollowLibraries` | ashford/unified.py:163-183 | every name's default is the default of the library `libraries` gives for it |
| `Unified.NameOrder` | ashford/unified.py:229 | the keys of `libraries` in dict order: at most one entry per library |
| `Unified.NamesAreOrdered` | ashford/unified.py:183 | every library's name becomes a key of the dict |
| `Unified.OrderedNameIsKey` | ashford/unified.py:183-229 | every name `items()` lists is a key `libraries` can look up |
| `Unified.NameOrderKeys` | ashford/unified.py:174-229 | the keys `libraries.items()` walks are the library names, each exactly once, all of them keys of `libraries` |
| `Unified.FirstAt` | ashford/unified.py:183 | a position carrying the name, or the end when none does |
| `Unified.FirstAtIsFirst` | ashford/unified.py:183 | no library before that position carries the name, so it is the first occurrence |
| `Unified.NameOrderByFirstOccurrence` | ashford/unified.py:183-229 | the dict lists the names in the order of their first occurrence in `contents` |
| `Unified.DistinctNames` | ashford/unified.py:174-194 | with distinct names, the dict order is the contents order and each name maps to its own library |
| `Unified.FirstHolder` | ashford/unified.py:229-237 | the first position, in dict order, whose library passes the test, or the end when none does |
| `Unified.Classified` | ashford/unified.py:209-238 | `classify` returns the name of a library that holds the probe, or raises `ValueError` |
| `Unified.ClassifyFindsAny` | ashford/unified.py:229-238 | `classify` succeeds whenever some library that `libraries` gives holds the probe, so it raises only when none does |
| `Unified.ClassifyInContentsOrder` | ashford/unified.py:229-237 | with distinct names, `classify` returns the first library in contents order that holds the key or a superclass of the item's class |
| `Unified.SameNamesSameOrder` | ashford/unified.py:183 | the dict order of `libraries` depends only on the library names |
| `Unified.ShadowedLibraryIsSkipped` | ashford/unified.py:183-237 | for any library followed by a namesake, no dict entry is that library, and replacing its contents never changes what `classify` returns |
| `Unified.ShadowedItemsUnchanged` | ashford/unified.py:183-229 | replacing a library followed by a namesake leaves `libraries.items()` unchanged |
| `Unified.Librarian.Tests` | ashford/unified.py:230-237 | the per-library test: a key is present, or a stored class is a superclass of the item's class (an instance is tested by its class) |
| `Unified.Librarian.Scan` | ashford/unified.py:229-238 | the nested search loop over the dict's items returns the first holder's name, or `ValueError` when none holds |
| `Unified.Librarian.Classify` | ashford/unified.py:209-238 | `classify` on the librarian's current libraries is the specified classification |
| `Unified.LastHolder` | ashford/unified.py:159-160 | the last library that stores a key, or none |
| `Unified.Librarian.Bases` | ashford/unified.py:148-161 | every stored key maps to the name of the last library storing it, and there are no other keys |
| `Unified.FiledPrefixedRaises` | ashford/unified.py:384-388 | `Librarian.deposit` raises exactly when the name `_get_name` gives (the explicit name, else the item's key) starts with `project_`, and the error is the `AttributeError` of the missing `str.dropprefix` |
| `Unified.Librarian.constructor` | ashford/unified.py:140-141 | a new librarian has no libraries |
| `Unified.Librarian.AddLibrary` | ashford/unified.py:198-207 | exactly one new, empty library with the given name is appended; the earlier ones are untouched |
| `Unified.Librarian.DepositInto` | ashford/unified.py:341-342 | only the chosen library receives the deposit |
| `Unified.Librarian.DepositToExisting` | ashford/unified.py:326-343 | the item goes into the library the base name maps to, under `_get_name` |
| `Unified.Librarian.DepositToNew` | ashford/unified.py:345-360 | one library named `_get_name(item, name)` is appended, holding the item under that name |
| `Unified.Librarian.Deposit` | ashford/unified.py:240-258 | the librarian's new state is the specified filing, or unchanged with the `_get_name` error |
| `Unified.FiledIntoExisting` | ashford/unified.py:253-255 | a classifiable item lands in the classified library under its name; the number of libraries is unchanged and the others are untouched |
| `Unified.FiledIntoNew` | ashford/unified.py:256-257 | an unclassifiable item appends exactly one library named after it and holding only it |
| `Unified.SameNamesSameLibraries` | ashford/unified.py:183 | `libraries` depends only on the library names |
| `Unified.FiledClassIsClassified` | ashford/unified.py:240-258 | a class filed by the librarian is classifiable afterwards |
| `Construction.FirstKind` | ashford/construction.py:263-264 | the first source kind, in declaration order, that the source is an instance of, or none |
| `Construction.SourceDispatchesOnFirstKind` | ashford/construction.py:263-270 | `create` calls the method of the first matching kind; if that method is missing it raises `AttributeError` naming it and tries no later kind |
| `Construction.SourceNoMatch` | ashford/construction.py:271-272 | `create` raises `KeyError` exactly when no kind matches |
| `Construction.SourceForwardsArguments` | ashford/construction.py:262-270 | the method receives the source and the parameters, an empty mapping when none were passed |
| `Construction.TypeDispatch` | ashford/construction.py:366-373 | the method is `METHOD_NAMER(NAMER(type(source)))`; a missing method raises `AttributeError` naming it; sources of one type dispatch alike |
| `Construction.MethodNamesMatchKeys` | src/ashford/configuration.py:35 | two suffixes name the same `from_...` method exactly when `KEYER` gives them the same key |
| `Construction.DeepCopyIsDetached` | ashford/construction.py:128 | a deep copy keeps the class; a copied instance is a new object, never the stored one |
| `Construction.RegistryCreateCopies` | ashford/construction.py:167-168 | the finaliser receives a deep copy of the withdrawn item; a miss without default is the registry's `KeyError` |
| `Construction.CombinedNeverClass` | ashford/construction.py:205-210 | `CombinedFactory.create` never returns a class: a class product is instantiated, an instance is returned as is |
| `Validators.BonafideMaximum.Validate` | ashford/validators.py:420-434 | an in-bound item (strictly below unless `allow_equal`) passes unchanged; otherwise `ValueError`, or the maximum without `raise_error`; a result is never above the maximum |
| `Validators.BonafideMinimum.Validate` | ashford/validators.py:477-491 | the mirror image: in bound passes, otherwise `ValueError` or the minimum; a result is never below the minimum |
| `Validators.DescriptorFallsBackLikeRegistry` | ashford/validators.py:85-91 | the descriptor returns its stored value as a registry hit does, and on a miss falls back exactly as a registry with the same `default_factory` does: `default_factory()`, or the factory itself when calling it raises `TypeError` |
| `Validators.RegistryGet` | ashford/validators.py:573 | `registry.get(key)`: the stored item, `None` for a plain miss; only non-`KeyError` exceptions escape |
| `Validators.FactoryValidated` | src/ashford/validators.py:573 | a string is looked up in the owner's registry; anything else passes through unchanged |
| `Validators.MaximumIdempotent` | src/ashford/validators.py:420-434 | without `raise_error`, validating the result again changes nothing |
| `Validators.MinimumIdempotent` | src/ashford/validators.py:477-491 | without `raise_error`, validating the result again changes nothing |
| `Validators.InvertedRangeRejectsAll` | src/ashford/validators.py:532-545 | a range whose minimum exceeds its maximum rejects every item |
| `Validators.StrictBoundIsOutOfRange` | ashford/setters.py:387-458 | with `allow_equal` off the bound itself is out of range: rejected when raising, answered with the bound otherwise |
| `Validators.RangeIsBothBounds` | src/ashford/setters.py:499-512 | a range accepts exactly what its raising maximum and minimum validators both accept |
| `Setters.PrivateName` | ashford/setters.py:91 | the private name is `_` followed by the attribute name, so it never equals it |
| `Setters.ReadAfterAssign` | src/ashford/setters.py:68-79 | after a successful assignment the slot reads back the validated value, and other attributes are unchanged |
| `Setters.TypeValidator.SetName` | ashford/setters.py:82-93 | records `attribute_name = name`, `private_name = '_' + name` and the owner |
| `Setters.TypeValidator.Set` | ashford/setters.py:70-80 | the validated value is stored under the private name; a raising validation changes nothing and reports its error |
| `Setters.TypeValidator.Get` | src/ashford/setters.py:55-68 | the result is the private slot's value, or `AttributeError` |

## Left out

- Keys are strings. Python keys are any hashable value, and the `TypeError` that `Registry.withdraw` catches for unhashable keys cannot arise here.
- `Registry.withdraw` first tries `contents.withdraw`. `contents` is a plain dict here, so that attempt always falls through to the dict lookup, which is what is modelled.
- The `AttributeError` fallbacks of `Anthology.deposit_instance` and `deposit_subclass` are unreachable here, because both slots are always `Registry` objects that have `deposit`.
- `Anthology.default_factory` is never consulted by `Anthology.withdraw`, so the anthology model has no default of its own.
- `Anthology.__iter__` and `__len__` are left out. They refer to a nonexistent `classes` attribute and iterate the `None` that `update` returns.
- `Unified.Library.Deposit`: a library's inner `Anthology` is flattened to one key -> item map. In Python, depositing an instance into a library also stores its class in the inner subclass slot, and lookups follow the anthology's rules. The model stores the item under its key only.
- `Unified.Classified`: a stored instance counts as not matching. In Python, `issubclass` with an instance as its second argument raises `TypeError`.
- `Library._validate_name` is left out. The librarian always names its libraries, and the method's `self.default` branch refers to an undefined attribute.
- A `Librarian` starts with no libraries, as its field default declares. The two unnamed libraries that the inherited `Anthology.__post_init__` would add are not modelled.
- `Librarian.withdraw` and `get`, which are inherited from `Anthology`, and the commented-out `validate` and `__getattr__` are left out.
- `Keystone.set_registry` and the `Keystone` mixins are left out. `issubclass` on an instance raises, so the `isinstance` branch is unreachable, and the class-level registry sharing is Python hook mechanics.
- Python's hooks (`__init_subclass__`, cooperative `__post_init__`) are modelled as explicit calls (`Registration.InstancerCreated` and the methods after it).
- `StealthFactory.create` is left out. It iterates `cls.__subclasses__` without calling it.
- `RegistrarFactory.create` is left out. It passes `parameters` to a `withdraw` that takes none.
- `_finalize_product` is called by the factories but defined in no module of the package, so it is a parameter. Parameter injection and the effect of the dispatched `from_...` method are not modelled; the factories return the call they make.
- `framework.NAMER` and `framework.METHOD_NAMER` are not defined in ashford/framework.py. They are taken as the key function and as `from_` plus the key (src/ashford/configuration.py:34-35).
- `Construction.TypeDispatch`: `METHOD_NAMER(item = suffix)` is modelled as a positional call. The configured lambda's parameter is named `x`, so the keyword call itself would raise `TypeError` in Python.
- `Construction.SourceDispatchesOnFirstKind`: `SourceFactory.create` makes the same keyword call `METHOD_NAMER(item = suffix)` (ashford/construction.py:265), modelled as a positional call; in Python it would raise `TypeError` as well.
- `Construction.RegistryCreateCopies`: the factories' registries `registration.InstanceRegistry`, `SubclassRegistry` and `CombinedRegistry` are defined nowhere in the package. The model takes each to be a plain `Registry`, so in `Construction.CombinedCreated` too the withdraw is a `Registry`'s single lookup, not an anthology's two-slot search.
- `Validators.RegistryGet`: `registry.get` is defined in neither registration.py nor base.py; it would come from the foreign `camina.Dictionary`. The model assumes it is `withdraw` with `KeyError` turned into `None`.
- `copy.deepcopy` is modelled as keeping a class and giving an instance a new identity. Copying the instance's attributes is not modelled.
- `Setters.TypeValidator.Set`: the check is a parameter. `__set__` calls `validate(item = value, parent = owner)`, but no `validate` in the setter modules accepts `parent`, so with those subclasses Python raises `TypeError`.
- `Validators.FactoryValidated`: the owner's registry is taken to be a plain `Registry`. The keystone classes use a `Librarian` there.
- Numbers are real numbers. Floating-point rounding, NaN and mixed numeric types are not modelled.
- The type-conversion validators (`BonafideDict`, `Float`, `Integer`, `Iterable`, `List`, `Number`, `Path`, `String`, `Tuple`) and `BonafideName` are left out. They wrap foreign `camina` functions.
- The global configuration setters `set_keyer` and `set_method_keyer` are left out. The key function is a parameter instead.
- The registrar modules, the descriptor base classes and `base.Validator` are not part of this model.
- Thread safety is not modelled. The code provides none.
