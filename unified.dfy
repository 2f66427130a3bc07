/** `Library` (a named store that remembers its first concrete item as its
    default) and `Librarian` (an ordered list of libraries that files each new
    item into the library of its base type, or opens a new library for it). */
module Unified {
  import opened Common

  /** What Python's reflection and the configured `KEYER` answer. */
  datatype Runtime = Runtime(keyer: Namer, isSubclass: (ClassId, ClassId) -> bool, isAbstract: ClassId -> bool)

  /** `inspect.isabstract`: only a class with abstract members is abstract. */
  predicate IsAbstract(rt: Runtime, item: Item)
  {
    item.Class? && rt.isAbstract(item.id)
  }

  /** The state of one `Library`: its name, its key -> item contents and its
      `default_factory`. */
  datatype Shelf = Shelf(name: string, contents: map<string, Item>, default: Option<Item>)

  /** `Library.deposit` on the library's state. */
  function Shelved(s: Shelf, item: Item, key: string, rt: Runtime): Shelf
  {
    Shelf(s.name, s.contents[key := item], if !IsAbstract(rt, item) && s.default.None? then Some(item) else s.default)
  }

  /** A deposit stores the item under its key, keeps the library's name, and
      sets the default only when there was none and the item is concrete. */
  lemma ShelvedStores(s: Shelf, item: Item, key: string, rt: Runtime)
    ensures var after := Shelved(s, item, key, rt);
      && after.name == s.name
      && after.contents[key] == item
      && (forall k | k in s.contents && k != key :: k in after.contents && after.contents[k] == s.contents[k])
      && (s.default.Some? ==> after.default == s.default)
      && (s.default.None? ==> after.default == if IsAbstract(rt, item) then None else Some(item))
  {
  }

  /** A library after a series of deposits, oldest first. */
  function ShelveAll(s: Shelf, deposits: seq<(string, Item)>, rt: Runtime): Shelf
    decreases |deposits|
  {
    if deposits == [] then s
    else ShelveAll(Shelved(s, deposits[0].1, deposits[0].0, rt), deposits[1..], rt)
  }

  /** The first concrete item of a series of deposits. */
  function FirstConcrete(deposits: seq<(string, Item)>, rt: Runtime): Option<Item>
    decreases |deposits|
  {
    if deposits == [] then None
    else if !IsAbstract(rt, deposits[0].1) then Some(deposits[0].1)
    else FirstConcrete(deposits[1..], rt)
  }

  /** The default is one-shot: a library that starts without one ends with
      the first concrete item deposited, and one that has a default keeps it
      through any later deposits. */
  lemma {:induction false} DefaultIsFirstConcrete(s: Shelf, deposits: seq<(string, Item)>, rt: Runtime)
    ensures ShelveAll(s, deposits, rt).default == if s.default.Some? then s.default else FirstConcrete(deposits, rt)
    decreases |deposits|
  {
    if deposits != [] {
      DefaultIsFirstConcrete(Shelved(s, deposits[0].1, deposits[0].0, rt), deposits[1..], rt);
    }
  }

  /** A stored library. */
  class Library {
    const name: string
    var contents: map<string, Item>
    var defaultFactory: Option<Item>

    function Value(): Shelf
      reads this
    {
      Shelf(name, contents, defaultFactory)
    }

    /** A new library is empty, without a default. */
    constructor (name: string)
      ensures Value() == Shelf(name, map[], None)
    {
      this.name := name;
      contents := map[];
      defaultFactory := None;
    }

    method Deposit(item: Item, key: string, rt: Runtime)
      modifies this
      ensures Value() == Shelved(old(Value()), item, key, rt)
    {
      contents := contents[key := item];
      if !IsAbstract(rt, item) && defaultFactory.None? {
        defaultFactory := Some(contents[key]);
      }
    }
  }

  /** `Librarian.names`: the library names in contents order. */
  function Names(v: seq<Shelf>): (names: seq<string>)
    ensures |names| == |v|
    ensures forall i | 0 <= i < |v| :: names[i] == v[i].name
  {
    seq(|v|, i requires 0 <= i < |v| => v[i].name)
  }

  /** `Librarian.libraries`, a dict from name to library (here its index): a
      name maps to the last library that carries it. */
  function Libraries(v: seq<Shelf>): (lib: map<string, nat>)
    ensures forall i | 0 <= i < |v| :: v[i].name in lib && i <= lib[v[i].name]
    ensures forall n | n in lib :: lib[n] < |v| && v[lib[n]].name == n
    decreases |v|
  {
    if v == [] then map[]
    else
      var w := v[..|v| - 1];
      var before := Libraries(w);
      assert forall i | 0 <= i < |w| :: v[i] == w[i];
      before[v[|v| - 1].name := |v| - 1]
  }

  /** Adding a library overwrites its name's entry in `libraries`. */
  lemma LibrariesStep(v: seq<Shelf>)
    requires v != []
    ensures Libraries(v) == Libraries(v[..|v| - 1])[v[|v| - 1].name := |v| - 1]
  {
  }

  /** The last library always owns its name in `libraries`. */
  lemma LastLibraryOwnsName(v: seq<Shelf>)
    requires v != []
    ensures v[|v| - 1].name in Libraries(v) && Libraries(v)[v[|v| - 1].name] == |v| - 1
  {
  }

  /** `Librarian.defaults`: each library name mapped to the default of the
      last library carrying that name. */
  function Defaults(v: seq<Shelf>): (defaults: map<string, Option<Item>>)
    ensures defaults.Keys == Libraries(v).Keys
    decreases |v|
  {
    if v == [] then map[]
    else
      var w := v[..|v| - 1];
      LibrariesStep(v);
      Defaults(w)[v[|v| - 1].name := v[|v| - 1].default]
  }

  /** `defaults` and `libraries` agree: a name's default is the default of
      the library `libraries` gives for it. */
  lemma {:induction false} DefaultsFollowLibraries(v: seq<Shelf>, n: string)
    requires n in Defaults(v)
    ensures Defaults(v)[n] == v[Libraries(v)[n]].default
    decreases |v|
  {
    var w := v[..|v| - 1];
    var last := v[|v| - 1].name;
    LibrariesStep(v);
    if n != last {
      DefaultsFollowLibraries(w, n);
      assert v[Libraries(w)[n]] == w[Libraries(w)[n]];
    }
  }

  /** The keys of `Librarian.libraries` in dict order: each name once, at its
      first occurrence. */
  function NameOrder(v: seq<Shelf>): (order: seq<string>)
    ensures |order| <= |v|
    decreases |v|
  {
    if v == [] then []
    else
      var before := NameOrder(v[..|v| - 1]);
      if v[|v| - 1].name in before then before else before + [v[|v| - 1].name]
  }

  /** Every library's name is a key of the dict. */
  lemma {:induction false} NamesAreOrdered(v: seq<Shelf>, i: nat)
    requires i < |v|
    ensures v[i].name in NameOrder(v)
    decreases |v|
  {
    NameOrderStep(v);
    if i < |v| - 1 {
      var w := v[..|v| - 1];
      NamesAreOrdered(w, i);
      assert v[i] == w[i];
    }
  }

  /** Every key of the dict order is a key of `libraries`. */
  lemma {:induction false} OrderedNameIsKey(v: seq<Shelf>, n: string)
    requires n in NameOrder(v)
    ensures n in Libraries(v)
    decreases |v|
  {
    var w := v[..|v| - 1];
    NameOrderStep(v);
    LibrariesStep(v);
    if n != v[|v| - 1].name {
      OrderedNameIsKey(w, n);
    }
  }

  /** The dict's keys are exactly the library names, each once. */
  lemma {:induction false} NameOrderKeys(v: seq<Shelf>)
    ensures forall i | 0 <= i < |v| :: v[i].name in NameOrder(v)
    ensures forall n | n in NameOrder(v) :: n in Libraries(v)
    ensures forall i, j | 0 <= i < j < |NameOrder(v)| :: NameOrder(v)[i] != NameOrder(v)[j]
    decreases |v|
  {
    forall i | 0 <= i < |v|
      ensures v[i].name in NameOrder(v)
    {
      NamesAreOrdered(v, i);
    }
    forall n | n in NameOrder(v)
      ensures n in Libraries(v)
    {
      OrderedNameIsKey(v, n);
    }
    if v != [] {
      var w := v[..|v| - 1];
      NameOrderKeys(w);
      NameOrderStep(v);
    }
  }

  /** The position of the first library named `n`, or `|v|` when none is. */
  function FirstAt(v: seq<Shelf>, n: string): (i: nat)
    ensures i <= |v|
    ensures i < |v| ==> v[i].name == n
    decreases |v|
  {
    if v == [] then 0
    else
      var first := FirstAt(v[..|v| - 1], n);
      if first < |v| - 1 || v[|v| - 1].name == n then first else |v|
  }

  /** No library before the first one named `n` carries that name. */
  lemma {:induction false} FirstAtIsFirst(v: seq<Shelf>, n: string)
    ensures forall j | 0 <= j < FirstAt(v, n) :: v[j].name != n
    decreases |v|
  {
    if v != [] {
      var w := v[..|v| - 1];
      FirstAtIsFirst(w, n);
      assert forall j | 0 <= j < |w| :: v[j] == w[j];
    }
  }

  /** The first occurrence is the only position where a name follows no
      earlier occurrence of it. */
  lemma FirstAtIs(v: seq<Shelf>, n: string, k: nat)
    requires k <= |v| && (k < |v| ==> v[k].name == n)
    requires forall j | 0 <= j < k :: v[j].name != n
    ensures FirstAt(v, n) == k
  {
    FirstAtIsFirst(v, n);
  }

  /** A name already present before the last library keeps its first
      occurrence when that library is added. */
  lemma FirstAtBeforeLast(v: seq<Shelf>, n: string)
    requires v != [] && n in NameOrder(v[..|v| - 1])
    ensures FirstAt(v, n) == FirstAt(v[..|v| - 1], n) < |v| - 1
  {
    var w := v[..|v| - 1];
    OrderedNameIsKey(w, n);
    var k := Libraries(w)[n];
    assert w[k].name == n;
    FirstAtIsFirst(w, n);
    var f := FirstAt(w, n);
    assert f <= k && v[f] == w[f];
    forall j | 0 <= j < f
      ensures v[j].name != n
    {
      assert v[j] == w[j];
    }
    FirstAtIs(v, n, f);
  }

  /** A name new to `libraries` is inserted after every earlier name. */
  lemma FirstAtOfNewName(v: seq<Shelf>)
    requires v != [] && v[|v| - 1].name !in NameOrder(v[..|v| - 1])
    ensures FirstAt(v, v[|v| - 1].name) == |v| - 1
  {
    NotNamedBefore(v, v[|v| - 1].name);
    FirstAtIs(v, v[|v| - 1].name, |v| - 1);
  }

  /** A name that the dict order of the earlier libraries lacks is none of
      their names. */
  lemma NotNamedBefore(v: seq<Shelf>, n: string)
    requires v != [] && n !in NameOrder(v[..|v| - 1])
    ensures forall k | 0 <= k < |v| - 1 :: v[k].name != n
  {
    var w := v[..|v| - 1];
    forall k | 0 <= k < |w|
      ensures v[k].name != n
    {
      NamesAreOrdered(w, k);
      assert v[k] == w[k];
    }
  }

  /** Adding a library appends its name to the dict order unless the name
      is already there. */
  lemma NameOrderStep(v: seq<Shelf>)
    requires v != []
    ensures var before := NameOrder(v[..|v| - 1]);
      && |before| <= |NameOrder(v)| <= |before| + 1
      && (forall k | 0 <= k < |before| :: NameOrder(v)[k] == before[k])
      && (|NameOrder(v)| > |before| ==> v[|v| - 1].name !in before && NameOrder(v)[|before|] == v[|v| - 1].name)
  {
  }

  /** One step of the induction below: adding a library keeps two names of
      the dict in the order of their first occurrences. */
  lemma OrderedPair(v: seq<Shelf>, i: nat, j: nat)
    requires v != [] && i < j < |NameOrder(v)|
    requires var before := NameOrder(v[..|v| - 1]);
      j < |before| ==> FirstAt(v[..|v| - 1], before[i]) < FirstAt(v[..|v| - 1], before[j])
    ensures FirstAt(v, NameOrder(v)[i]) < FirstAt(v, NameOrder(v)[j])
  {
    var before, after := NameOrder(v[..|v| - 1]), NameOrder(v);
    NameOrderStep(v);
    assert after[i] == before[i];
    if j < |before| {
      assert after[j] == before[j];
      KeptPair(v, before[i], before[j]);
    } else {
      assert after[j] == v[|v| - 1].name;
      NewLast(v, before[i]);
    }
  }

  /** Two names already in the dict keep their first occurrences. */
  lemma KeptPair(v: seq<Shelf>, a: string, b: string)
    requires v != [] && a in NameOrder(v[..|v| - 1]) && b in NameOrder(v[..|v| - 1])
    ensures FirstAt(v, a) == FirstAt(v[..|v| - 1], a) && FirstAt(v, b) == FirstAt(v[..|v| - 1], b)
  {
    FirstAtBeforeLast(v, a);
    FirstAtBeforeLast(v, b);
  }

  /** A name new to the dict first occurs after every name already in it. */
  lemma NewLast(v: seq<Shelf>, a: string)
    requires v != [] && a in NameOrder(v[..|v| - 1]) && v[|v| - 1].name !in NameOrder(v[..|v| - 1])
    ensures FirstAt(v, a) < FirstAt(v, v[|v| - 1].name)
  {
    FirstAtBeforeLast(v, a);
    FirstAtOfNewName(v);
  }

  /** A dict keeps each key where it was first inserted: `libraries` lists
      the names in the order of their first occurrence in `contents`. */
  lemma {:induction false} NameOrderByFirstOccurrence(v: seq<Shelf>)
    ensures forall i, j | 0 <= i < j < |NameOrder(v)| :: FirstAt(v, NameOrder(v)[i]) < FirstAt(v, NameOrder(v)[j])
    decreases |v|
  {
    if v != [] {
      NameOrderByFirstOccurrence(v[..|v| - 1]);
      forall i, j | 0 <= i < j < |NameOrder(v)|
        ensures FirstAt(v, NameOrder(v)[i]) < FirstAt(v, NameOrder(v)[j])
      {
        OrderedPair(v, i, j);
      }
    }
  }

  /** What `classify` is asked about: a key, or a class or instance. */
  datatype Probe = Named(key: string) | Entity(item: Item)

  /** The test `classify` makes of one library: the key is stored in it, or
      it stores a class of which the item's class is a subclass. */
  predicate Holds(s: Shelf, probe: Probe, rt: Runtime)
  {
    match probe
    case Named(key) => key in s.contents
    case Entity(item) =>
      exists x | x in s.contents.Values :: x.Class? && rt.isSubclass(item.Testable(), x.id)
  }

  /** `libraries.items()`: each name in dict order with its library. */
  function Items(v: seq<Shelf>): (items: seq<(string, Shelf)>)
    ensures |items| == |NameOrder(v)|
    ensures forall j | 0 <= j < |items| ::
      && items[j].0 == NameOrder(v)[j]
      && items[j].0 in Libraries(v)
      && items[j].1 == v[Libraries(v)[items[j].0]]
  {
    forall n | n in NameOrder(v)
      ensures n in Libraries(v)
    {
      OrderedNameIsKey(v, n);
    }
    var order, lib := NameOrder(v), Libraries(v);
    seq(|order|, j requires 0 <= j < |order| => (order[j], v[lib[order[j]]]))
  }

  /** The position of the first entry whose library holds the probe, or
      `|items|` when none does. */
  function FirstHolder(items: seq<(string, Shelf)>, probe: Probe, rt: Runtime): (k: nat)
    ensures k <= |items|
    ensures k < |items| ==> Holds(items[k].1, probe, rt)
    ensures forall j | 0 <= j < k :: !Holds(items[j].1, probe, rt)
    decreases |items|
  {
    if items == [] then 0
    else if Holds(items[0].1, probe, rt) then 0
    else 1 + FirstHolder(items[1..], probe, rt)
  }

  /** The first holder is the only position where a holder follows no holder. */
  lemma FirstHolderAt(items: seq<(string, Shelf)>, probe: Probe, rt: Runtime, k: nat)
    requires k <= |items|
    requires k < |items| ==> Holds(items[k].1, probe, rt)
    requires forall j | 0 <= j < k :: !Holds(items[j].1, probe, rt)
    ensures FirstHolder(items, probe, rt) == k
  {
  }

  /** `Librarian.classify` on the libraries' states: the name of the first
      library, in dict order, that holds the probe; `ValueError` if none. */
  function Classified(v: seq<Shelf>, probe: Probe, rt: Runtime): (r: Result<string>)
    ensures r.Ok? ==> r.value in Libraries(v) && Holds(v[Libraries(v)[r.value]], probe, rt)
    ensures r.Err? ==> r.error == ValueError
  {
    Matched(Items(v), probe, rt)
  }

  /** The outcome of searching `items` in order: the name of the first
      entry whose library holds the probe, else `ValueError`. */
  function Matched(items: seq<(string, Shelf)>, probe: Probe, rt: Runtime): Result<string>
  {
    var k := FirstHolder(items, probe, rt);
    if k < |items| then Ok(items[k].0) else Err(ValueError)
  }

  /** `classify` raises only when no library it can reach holds the probe:
      any library that `libraries` names and that holds it is enough. */
  lemma ClassifyFindsAny(v: seq<Shelf>, probe: Probe, rt: Runtime, n: string)
    requires n in Libraries(v) && Holds(v[Libraries(v)[n]], probe, rt)
    ensures Classified(v, probe, rt).Ok?
  {
    var order, items := NameOrder(v), Items(v);
    assert v[Libraries(v)[n]].name == n;
    NamesAreOrdered(v, Libraries(v)[n]);
    assert n in order;
    var p :| 0 <= p < |order| && order[p] == n;
    assert items[p].1 == v[Libraries(v)[n]];
    assert FirstHolder(items, probe, rt) <= p;
  }

  /** A stored class that is its own subclass makes its library hold it. */
  lemma HoldsStoredClass(s: Shelf, key: string, item: Item, rt: Runtime)
    requires key in s.contents && s.contents[key] == item
    requires item.Class? && rt.isSubclass(item.id, item.id)
    ensures Holds(s, Entity(item), rt)
  {
    assert item in s.contents.Values;
  }

  const RemovablePrefixes: seq<string> := ["project_"]

  predicate StartsWith(s: string, prefix: string)
  {
    |prefix| <= |s| && s[..|prefix|] == prefix
  }

  /** `Librarian._get_name`: the explicit name, else the item's key. A name
      starting with a removable prefix reaches a call of the nonexistent
      `str.dropprefix`, which raises `AttributeError`. */
  function GetName(item: Item, name: Option<string>, keyer: Namer): (r: Result<string>)
    ensures r.Ok? ==> r.value == KeyFor(item, name, keyer)
    ensures r.Err? <==> exists p | p in RemovablePrefixes :: StartsWith(KeyFor(item, name, keyer), p)
    ensures r.Err? ==> r.error == AttributeError("dropprefix")
  {
    var n := KeyFor(item, name, keyer);
    if exists p | p in RemovablePrefixes :: StartsWith(n, p) then Err(AttributeError("dropprefix"))
    else Ok(n)
  }

  /** `Librarian.deposit` on the libraries' states: the item goes to the
      library `classify` names, or to a new library named after it. */
  function Filed(v: seq<Shelf>, item: Item, name: Option<string>, rt: Runtime): Result<seq<Shelf>>
  {
    var base := Classified(v, Entity(item), rt);
    match GetName(item, name, rt.keyer)
    case Err(e) => Err(e)
    case Ok(key) =>
      if base.Ok? then
        var i := Libraries(v)[base.value];
        Ok(v[i := Shelved(v[i], item, key, rt)])
      else
        Ok(v + [Shelved(Shelf(key, map[], None), item, key, rt)])
  }

  /** `Librarian.deposit` raises exactly when the name `_get_name` would
      return starts with `project_`, and then it raises the
      `AttributeError` of the missing `str.dropprefix`. */
  lemma FiledPrefixedRaises(v: seq<Shelf>, item: Item, name: Option<string>, rt: Runtime)
    ensures Filed(v, item, name, rt).Err? <==> StartsWith(KeyFor(item, name, rt.keyer), "project_")
    ensures Filed(v, item, name, rt).Err? ==> Filed(v, item, name, rt).error == AttributeError("dropprefix")
  {
    assert RemovablePrefixes == ["project_"];
  }

  /** Filing a classifiable item changes only the library `classify` chose:
      the item is stored there under its name, and no library is added. */
  lemma FiledIntoExisting(v: seq<Shelf>, item: Item, name: Option<string>, rt: Runtime)
    requires Classified(v, Entity(item), rt).Ok? && GetName(item, name, rt.keyer).Ok?
    ensures var i, key := Libraries(v)[Classified(v, Entity(item), rt).value], GetName(item, name, rt.keyer).value;
      && Filed(v, item, name, rt).Ok?
      && |Filed(v, item, name, rt).value| == |v|
      && Filed(v, item, name, rt).value[i].name == v[i].name
      && Filed(v, item, name, rt).value[i].contents[key] == item
      && forall j | 0 <= j < |v| && j != i :: Filed(v, item, name, rt).value[j] == v[j]
  {
  }

  /** Filing an item no library holds appends exactly one library, named
      after the item and holding it under that same name. */
  lemma FiledIntoNew(v: seq<Shelf>, item: Item, name: Option<string>, rt: Runtime)
    requires Classified(v, Entity(item), rt).Err? && GetName(item, name, rt.keyer).Ok?
    ensures var key := GetName(item, name, rt.keyer).value;
      && Filed(v, item, name, rt).Ok?
      && |Filed(v, item, name, rt).value| == |v| + 1
      && Filed(v, item, name, rt).value[..|v|] == v
      && Filed(v, item, name, rt).value[|v|].name == key
      && Filed(v, item, name, rt).value[|v|].contents == map[key := item]
  {
    var key := GetName(item, name, rt.keyer).value;
    assert Filed(v, item, name, rt).value == v + [Shelved(Shelf(key, map[], None), item, key, rt)];
  }

  /** `libraries` depends only on the library names. */
  lemma {:induction false} SameNamesSameLibraries(v: seq<Shelf>, w: seq<Shelf>)
    requires |v| == |w| && forall i | 0 <= i < |v| :: v[i].name == w[i].name
    ensures Libraries(v) == Libraries(w)
    decreases |v|
  {
    if v != [] {
      SameNamesSameLibraries(v[..|v| - 1], w[..|w| - 1]);
    }
  }

  /** A class that is its own subclass (as every Python class is) can be
      classified right after the librarian files it: its base library, or
      the new library named after it, now stores it. */
  lemma FiledClassIsClassified(v: seq<Shelf>, item: Item, name: Option<string>, rt: Runtime)
    requires item.Class? && rt.isSubclass(item.id, item.id)
    requires Filed(v, item, name, rt).Ok?
    ensures Classified(Filed(v, item, name, rt).value, Entity(item), rt).Ok?
  {
    var after := Filed(v, item, name, rt).value;
    var key := GetName(item, name, rt.keyer).value;
    var base := Classified(v, Entity(item), rt);
    if base.Ok? {
      var i := Libraries(v)[base.value];
      assert after == v[i := Shelved(v[i], item, key, rt)];
      SameNamesSameLibraries(v, after);
      HoldsStoredClass(after[i], key, item, rt);
      ClassifyFindsAny(after, Entity(item), rt, base.value);
    } else {
      assert after == v + [Shelved(Shelf(key, map[], None), item, key, rt)];
      LastLibraryOwnsName(after);
      HoldsStoredClass(after[|v|], key, item, rt);
      ClassifyFindsAny(after, Entity(item), rt, key);
    }
  }

  /** The dict order, like `libraries`, depends only on the library names. */
  lemma {:induction false} SameNamesSameOrder(v: seq<Shelf>, w: seq<Shelf>)
    requires |v| == |w| && forall i | 0 <= i < |v| :: v[i].name == w[i].name
    ensures NameOrder(v) == NameOrder(w)
    decreases |v|
  {
    if v != [] {
      SameNamesSameOrder(v[..|v| - 1], w[..|w| - 1]);
    }
  }

  /** A library followed by a later namesake is no entry of
      `libraries.items()`. */
  lemma ShadowedIsNotListed(v: seq<Shelf>, i: nat, j: nat, k: nat)
    requires i < j < |v| && v[i].name == v[j].name && k < |Items(v)|
    ensures Libraries(v)[Items(v)[k].0] != i
  {
    var n := Items(v)[k].0;
    assert v[Libraries(v)[n]].name == n;
    assert j <= Libraries(v)[v[j].name];
  }

  /** A library followed by a later namesake is never consulted: no entry of
      `libraries.items()` is that library, so replacing its contents (or its
      default) changes nothing `classify` can return. */
  lemma ShadowedLibraryIsSkipped(v: seq<Shelf>, i: nat, j: nat, s: Shelf, probe: Probe, rt: Runtime)
    requires i < j < |v| && v[i].name == v[j].name && s.name == v[i].name
    ensures forall k | 0 <= k < |Items(v)| :: Libraries(v)[Items(v)[k].0] != i
    ensures Classified(v[i := s], probe, rt) == Classified(v, probe, rt)
  {
    forall k | 0 <= k < |Items(v)|
      ensures Libraries(v)[Items(v)[k].0] != i
    {
      ShadowedIsNotListed(v, i, j, k);
    }
    ShadowedItemsUnchanged(v, i, j, s);
  }

  /** Replacing a library followed by a namesake leaves `libraries.items()`
      as it was. */
  lemma ShadowedItemsUnchanged(v: seq<Shelf>, i: nat, j: nat, s: Shelf)
    requires i < j < |v| && v[i].name == v[j].name && s.name == v[i].name
    ensures Items(v[i := s]) == Items(v)
  {
    var u := v[i := s];
    SameNamesSameLibraries(u, v);
    SameNamesSameOrder(u, v);
    forall k | 0 <= k < |Items(v)|
      ensures Items(u)[k] == Items(v)[k]
    {
      ShadowedIsNotListed(v, i, j, k);
    }
  }

  /** Every library's keys, each mapped to the name of the last library that
      stores it (or -1). */
  function LastHolder(v: seq<Shelf>, key: string): (i: int)
    ensures -1 <= i < |v|
    ensures i >= 0 ==> key in v[i].contents && forall j | i < j < |v| :: key !in v[j].contents
    ensures i == -1 ==> forall j | 0 <= j < |v| :: key !in v[j].contents
    decreases |v|
  {
    if v == [] then -1
    else if key in v[|v| - 1].contents then |v| - 1
    else LastHolder(v[..|v| - 1], key)
  }

  /** When library names are distinct, the dict `libraries` holds every
      library at its own index and iterates in contents order. */
  lemma {:induction false} DistinctNames(v: seq<Shelf>)
    requires forall i, j | 0 <= i < j < |v| :: v[i].name != v[j].name
    ensures NameOrder(v) == Names(v)
    ensures forall i | 0 <= i < |v| :: Libraries(v)[v[i].name] == i
    decreases |v|
  {
    if v != [] {
      var w := v[..|v| - 1];
      var last := v[|v| - 1].name;
      assert forall i | 0 <= i < |w| :: v[i] == w[i];
      DistinctNames(w);
      forall n | n in Libraries(w)
        ensures n != last
      {
        var j := Libraries(w)[n];
        assert w[j].name == n && v[j] == w[j];
      }
      assert last !in NameOrder(w);
      assert NameOrder(v) == NameOrder(w) + [last];
      assert Names(v) == Names(w) + [last];
      LibrariesStep(v);
    }
  }

  /** With distinct library names, `classify` returns the name of the first
      library in contents order that holds the probe. */
  lemma ClassifyInContentsOrder(v: seq<Shelf>, probe: Probe, rt: Runtime, i: nat)
    requires forall i, j | 0 <= i < j < |v| :: v[i].name != v[j].name
    requires i < |v| && Holds(v[i], probe, rt)
    requires forall j | 0 <= j < i :: !Holds(v[j], probe, rt)
    ensures Classified(v, probe, rt) == Ok(v[i].name)
  {
    DistinctNames(v);
    var items := Items(v);
    assert |items| == |v|;
    forall j | 0 <= j < |v|
      ensures items[j] == (v[j].name, v[j])
    {
    }
    FirstHolderAt(items, probe, rt, i);
  }

  /** A registry of libraries, searched in order. */
  class Librarian {
    var contents: seq<Library>

    ghost predicate Valid()
      reads this
    {
      forall i, j | 0 <= i < j < |contents| :: contents[i] != contents[j]
    }

    /** The libraries' states, in contents order. */
    function View(): (v: seq<Shelf>)
      reads this, contents
      ensures |v| == |contents|
      ensures forall i | 0 <= i < |contents| :: v[i] == contents[i].Value()
    {
      seq(|contents|, i reads this, contents requires 0 <= i < |contents| => contents[i].Value())
    }

    /** A new librarian has no libraries. */
    constructor ()
      ensures Valid() && View() == []
    {
      contents := [];
    }

    /** `add_library`: appends a new, empty library with the given name. */
    method AddLibrary(name: string)
      requires Valid()
      modifies this
      ensures Valid() && |contents| == |old(contents)| + 1 && contents[..|old(contents)|] == old(contents)
      ensures fresh(contents[|contents| - 1])
      ensures View() == old(View()) + [Shelf(name, map[], None)]
    {
      var library := new Library(name);
      contents := contents + [library];
      assert View()[..|contents| - 1] == old(View());
    }

    /** The test `classify` makes of one library. */
    static method Tests(shelf: Shelf, probe: Probe, rt: Runtime) returns (holds: bool)
      ensures holds == Holds(shelf, probe, rt)
    {
      match probe {
        case Named(key) =>
          return key in shelf.contents;
        case Entity(item) =>
          var testable := item.Testable();
          var values := shelf.contents.Values;
          while values != {}
            invariant values <= shelf.contents.Values
            invariant forall x | x in shelf.contents.Values - values :: !(x.Class? && rt.isSubclass(testable, x.id))
          {
            var value :| value in values;
            if value.Class? && rt.isSubclass(testable, value.id) {
              return true;
            }
            values := values - {value};
          }
          return false;
      }
    }

    /** The search loop of `classify`, over the libraries' states. */
    static method Scan(items: seq<(string, Shelf)>, probe: Probe, rt: Runtime) returns (r: Result<string>)
      ensures r == Matched(items, probe, rt)
    {
      var k := 0;
      while k < |items|
        invariant k <= |items|
        invariant forall j | 0 <= j < k :: !Holds(items[j].1, probe, rt)
      {
        var holds := Tests(items[k].1, probe, rt);
        if holds {
          FirstHolderAt(items, probe, rt, k);
          return Ok(items[k].0);
        }
        k := k + 1;
      }
      FirstHolderAt(items, probe, rt, k);
      return Err(ValueError);
    }

    /** `classify(item)`: the name of the first library, in the order of
        the `libraries` dict, that holds the probe, else `ValueError`. */
    method Classify(probe: Probe, rt: Runtime) returns (r: Result<string>)
      ensures r == Classified(View(), probe, rt)
    {
      var v := View();
      r := Scan(Items(v), probe, rt);
      assert View() == v;
    }

    method Bases() returns (bases: map<string, string>)
      ensures forall key :: key in bases <==> LastHolder(View(), key) >= 0
      ensures forall key | key in bases :: bases[key] == View()[LastHolder(View(), key)].name
    {
      ghost var v := View();
      bases := map[];
      var i := 0;
      while i < |contents|
        invariant 0 <= i <= |contents|
        invariant forall key :: key in bases <==> LastHolder(v[..i], key) >= 0
        invariant forall key | key in bases :: bases[key] == v[LastHolder(v[..i], key)].name
      {
        var library := contents[i];
        assert v[..i + 1][..i] == v[..i];
        bases := bases + map key | key in library.contents :: library.name;
        i := i + 1;
      }
      assert v[..i] == v;
    }

    /** `self.libraries[base][key] = item`: a deposit into one library. */
    method DepositInto(i: nat, item: Item, key: string, rt: Runtime)
      requires Valid() && i < |contents|
      modifies contents[i]
      ensures contents == old(contents)
      ensures View() == old(View())[i := Shelved(old(View())[i], item, key, rt)]
    {
      ghost var before := View();
      contents[i].Deposit(item, key, rt);
      assert forall j | 0 <= j < |contents| && j != i :: contents[j].Value() == before[j];
    }

    method DepositToExisting(item: Item, name: Option<string>, base: string, rt: Runtime) returns (raised: Option<Error>)
      requires Valid() && base in Libraries(View())
      modifies contents
      ensures Valid()
      ensures match GetName(item, name, rt.keyer) {
        case Err(e) => raised == Some(e) && View() == old(View())
        case Ok(key) =>
          var i := Libraries(old(View()))[base];
          raised == None && View() == old(View())[i := Shelved(old(View())[i], item, key, rt)]
      }
    {
      var key := GetName(item, name, rt.keyer);
      if key.Err? {
        return Some(key.error);
      }
      DepositInto(Libraries(View())[base], item, key.value, rt);
      raised := None;
    }

    method DepositToNew(item: Item, name: Option<string>, rt: Runtime) returns (raised: Option<Error>)
      requires Valid()
      modifies this, contents
      ensures Valid()
      ensures match GetName(item, name, rt.keyer) {
        case Err(e) => raised == Some(e) && View() == old(View())
        case Ok(key) => raised == None && View() == old(View()) + [Shelved(Shelf(key, map[], None), item, key, rt)]
      }
    {
      var key := GetName(item, name, rt.keyer);
      if key.Err? {
        return Some(key.error);
      }
      ghost var start := View();
      AddLibrary(key.value);
      ghost var before := View();
      LastLibraryOwnsName(before);
      var i := Libraries(View())[key.value];
      assert i == |start| && before[i] == Shelf(key.value, map[], None);
      DepositInto(i, item, key.value, rt);
      assert View() == before[i := Shelved(before[i], item, key.value, rt)];
      raised := None;
    }

    method Deposit(item: Item, name: Option<string>, rt: Runtime) returns (raised: Option<Error>)
      requires Valid()
      modifies this, contents
      ensures Valid()
      ensures match Filed(old(View()), item, name, rt) {
        case Err(e) => raised == Some(e) && View() == old(View())
        case Ok(after) => raised == None && View() == after
      }
    {
      var base := Classify(Entity(item), rt);
      if base.Ok? {
        raised := DepositToExisting(item, name, base.value, rt);
      } else {
        raised := DepositToNew(item, name, rt);
      }
    }
  }
}
