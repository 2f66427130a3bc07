/** `Registry` (a key -> item store with a default fallback), `Anthology`
    (an instance registry chained before a subclass registry) and the
    registration hooks of `Instancer`, `Subclasser` and `Curator`. */
module Registration {
  import opened Common

  /** The state of one `Registry`: its `contents` and its `default_factory`. */
  datatype RegistryValue = RegistryValue(contents: map<string, Item>, fallback: Option<Default<Item>>)

  const Empty := RegistryValue(map[], None)

  /** `Registry.deposit` on the registry's state. */
  function Deposited(r: RegistryValue, item: Item, name: Option<string>, namer: Namer): RegistryValue
  {
    r.(contents := r.contents[KeyFor(item, name, namer) := item])
  }

  /** `Registry.withdraw` on the registry's state: the stored item, else a
      `KeyError` when there is no default, else the default's fallback. */
  function Withdrawn(r: RegistryValue, key: string): Result<Item>
  {
    if key in r.contents then Ok(r.contents[key])
    else if r.fallback.None? then Err(KeyError(key))
    else Invoke(r.fallback.value)
  }

  /** A deposit is found again under the key it was stored with: the explicit
      name when one is given, else the inferred key. */
  lemma DepositThenWithdraw(r: RegistryValue, item: Item, name: Option<string>, namer: Namer)
    ensures name.Some? && name.value != "" ==> Withdrawn(Deposited(r, item, name, namer), name.value) == Ok(item)
    ensures name.None? || name.value == "" ==> Withdrawn(Deposited(r, item, name, namer), namer(item)) == Ok(item)
  {
  }

  /** Two deposits whose keys coincide, whether given explicitly or inferred
      (two instances with the same `NAMER` key, say): the later item replaces
      the earlier one, and every other key reads as before. */
  lemma LastWriteWins(r: RegistryValue, first: Item, second: Item, n1: Option<string>, n2: Option<string>,
                      other: string, namer: Namer)
    requires KeyFor(first, n1, namer) == KeyFor(second, n2, namer)
    ensures Withdrawn(Deposited(Deposited(r, first, n1, namer), second, n2, namer), KeyFor(second, n2, namer)) == Ok(second)
    ensures other != KeyFor(second, n2, namer) ==>
      Withdrawn(Deposited(Deposited(r, first, n1, namer), second, n2, namer), other) == Withdrawn(r, other)
  {
  }

  /** A stored key is always found; a missing key raises `KeyError` when no
      default is configured. */
  lemma MissWithoutDefault(r: RegistryValue, key: string)
    ensures key in r.contents ==> Withdrawn(r, key) == Ok(r.contents[key])
    ensures key !in r.contents && r.fallback.None? ==> Withdrawn(r, key) == Err(KeyError(key))
  {
  }

  /** A missing key with a default yields the factory's product when it can be
      called, and the factory itself when calling it raises `TypeError`. */
  lemma MissWithDefault(r: RegistryValue, key: string, d: Default<Item>)
    requires key !in r.contents && r.fallback == Some(d)
    ensures d.call.Returns? ==> Withdrawn(r, key) == Ok(d.call.value)
    ensures d.call == Raises(TypeError) ==> Withdrawn(r, key) == Ok(d.factory)
  {
  }

  /** A stored registry. */
  class Registry {
    var contents: map<string, Item>
    var defaultFactory: Option<Default<Item>>

    function Value(): RegistryValue
      reads this
    {
      RegistryValue(contents, defaultFactory)
    }

    /** A new registry is empty and has no default. */
    constructor ()
      ensures Value() == Empty
    {
      contents := map[];
      defaultFactory := None;
    }

    constructor WithDefault(d: Default<Item>)
      ensures Value() == RegistryValue(map[], Some(d))
    {
      contents := map[];
      defaultFactory := Some(d);
    }

    method Deposit(item: Item, name: Option<string>, namer: Namer)
      modifies this
      ensures Value() == Deposited(old(Value()), item, name, namer)
    {
      var key := KeyFor(item, name, namer);
      contents := contents[key := item];
    }

    method Withdraw(key: string) returns (r: Result<Item>)
      ensures r == Withdrawn(Value(), key)
    {
      if key in contents {
        r := Ok(contents[key]);
      } else if defaultFactory.None? {
        r := Err(KeyError(key));
      } else {
        r := Invoke(defaultFactory.value);
      }
    }
  }

  /** What `Anthology.withdraw` returns: one item, or the one-element list it
      returns when `return_first` is off and only one slot matched. */
  datatype Found = Single(item: Item) | Matches(items: seq<Item>)

  /** `Anthology.deposit` on the two slots (instances, then subclasses): a
      class goes to the subclass slot under the given name; an instance goes
      to the instance slot and its class to the subclass slot under the
      inferred key. */
  function ChainDeposited(slots: seq<RegistryValue>, item: Item, name: Option<string>, namer: Namer): seq<RegistryValue>
    requires |slots| == 2
  {
    if item.Class? then [slots[0], Deposited(slots[1], item, name, namer)]
    else [Deposited(slots[0], item, name, namer), Deposited(slots[1], Class(item.cls), None, namer)]
  }

  /** The end of `Anthology.withdraw` once every slot has been tried. */
  function Conclude(matches: seq<Item>, key: string): Result<Found>
  {
    if |matches| == 0 then Err(KeyError(key))
    else if |matches| > 1 then Ok(Single(matches[0]))
    else Ok(Matches(matches))
  }

  /** The loop of `Anthology.withdraw` over the slots still to try, with the
      matches collected so far. */
  function Collect(slots: seq<RegistryValue>, key: string, returnFirst: bool, matches: seq<Item>): Result<Found>
    decreases |slots|
  {
    if slots == [] then Conclude(matches, key)
    else match Withdrawn(slots[0], key)
      case Ok(v) =>
        if returnFirst then Ok(Single((matches + [v])[0]))
        else Collect(slots[1..], key, returnFirst, matches + [v])
      case Err(e) =>
        if e.KeyError? then Collect(slots[1..], key, returnFirst, matches)
        else Err(e)
  }

  /** `Anthology.withdraw` on the slots' states. */
  function Search(slots: seq<RegistryValue>, key: string, returnFirst: bool): Result<Found>
  {
    Collect(slots, key, returnFirst, [])
  }

  predicate NoDefaults(slots: seq<RegistryValue>)
  {
    forall i | 0 <= i < |slots| :: slots[i].fallback.None?
  }

  /** Depositing into an anthology never touches a slot's `default_factory`,
      so an anthology without defaults keeps having none. */
  lemma ChainDepositKeepsDefaults(slots: seq<RegistryValue>, item: Item, name: Option<string>, namer: Namer)
    requires |slots| == 2
    ensures var after := ChainDeposited(slots, item, name, namer);
      |after| == 2 && forall i | 0 <= i < 2 :: after[i].fallback == slots[i].fallback
    ensures NoDefaults(slots) ==> NoDefaults(ChainDeposited(slots, item, name, namer))
  {
  }

  /** The search over two slots spelled out: each slot's own withdraw result,
      instance slot first. */
  lemma {:induction false} SearchTwo(slots: seq<RegistryValue>, key: string, returnFirst: bool)
    requires |slots| == 2
    ensures var a, b := Withdrawn(slots[0], key), Withdrawn(slots[1], key);
      Search(slots, key, returnFirst) ==
        if a.Ok? && returnFirst then Ok(Single(a.value))
        else if a.Err? && !a.error.KeyError? then Err(a.error)
        else if b.Ok? && returnFirst then Ok(Single(b.value))
        else if b.Err? && !b.error.KeyError? then Err(b.error)
        else Conclude((if a.Ok? then [a.value] else []) + (if b.Ok? then [b.value] else []), key)
  {
    var a, b := Withdrawn(slots[0], key), Withdrawn(slots[1], key);
    var m: seq<Item> := if a.Ok? then [a.value] else [];
    var rest := slots[1..];
    assert rest[0] == slots[1] && rest[1..] == [];
    if (a.Ok? && !returnFirst) || (a.Err? && a.error.KeyError?) {
      assert [] + m == m;
      assert Search(slots, key, returnFirst) == Collect(rest, key, returnFirst, m);
      var m' := m + (if b.Ok? then [b.value] else []);
      if (b.Ok? && !returnFirst) || (b.Err? && b.error.KeyError?) {
        assert m + [] == m;
        assert Collect(rest, key, returnFirst, m) == Collect(rest[1..], key, returnFirst, m');
      }
    }
  }

  /** With `return_first` the instance slot is searched first and the first
      hit is returned. */
  lemma InstancesFirst(slots: seq<RegistryValue>, key: string)
    requires |slots| == 2 && NoDefaults(slots)
    ensures key in slots[0].contents ==> Search(slots, key, true) == Ok(Single(slots[0].contents[key]))
    ensures key !in slots[0].contents && key in slots[1].contents ==>
      Search(slots, key, true) == Ok(Single(slots[1].contents[key]))
  {
    SearchTwo(slots, key, true);
  }

  /** Without defaults, `KeyError` is raised exactly when no slot holds the
      key, whatever `return_first` is. */
  lemma MissIffAbsent(slots: seq<RegistryValue>, key: string, returnFirst: bool)
    requires |slots| == 2 && NoDefaults(slots)
    ensures Search(slots, key, returnFirst).Err? <==> key !in slots[0].contents && key !in slots[1].contents
    ensures Search(slots, key, returnFirst).Err? ==> Search(slots, key, returnFirst).error == KeyError(key)
  {
    SearchTwo(slots, key, returnFirst);
  }

  /** With `return_first` off, two hits yield the instance-slot item, but a
      single hit yields a one-element list instead of the item. */
  lemma AllMatches(slots: seq<RegistryValue>, key: string)
    requires |slots| == 2 && NoDefaults(slots)
    ensures key in slots[0].contents && key in slots[1].contents ==>
      Search(slots, key, false) == Ok(Single(slots[0].contents[key]))
    ensures key in slots[0].contents && key !in slots[1].contents ==>
      Search(slots, key, false) == Ok(Matches([slots[0].contents[key]]))
    ensures key !in slots[0].contents && key in slots[1].contents ==>
      Search(slots, key, false) == Ok(Matches([slots[1].contents[key]]))
  {
    SearchTwo(slots, key, false);
    if key in slots[0].contents {
      assert [slots[0].contents[key]] + [] == [slots[0].contents[key]];
    } else if key in slots[1].contents {
      assert [] + [slots[1].contents[key]] == [slots[1].contents[key]];
    }
  }

  /** Depositing a class writes only the subclass slot, under the given name. */
  lemma ClassDeposit(slots: seq<RegistryValue>, item: Item, name: Option<string>, namer: Namer)
    requires |slots| == 2 && item.Class?
    ensures ChainDeposited(slots, item, name, namer)[0] == slots[0]
    ensures ChainDeposited(slots, item, name, namer)[1] == Deposited(slots[1], item, name, namer)
  {
  }

  /** Depositing an instance stores it in the instance slot under name-or-key
      and its class in the subclass slot under the class's own key; afterwards
      both keys are found, in either search mode. */
  lemma InstanceDeposit(slots: seq<RegistryValue>, item: Item, name: Option<string>, namer: Namer, returnFirst: bool)
    requires |slots| == 2 && item.Instance? && NoDefaults(slots)
    ensures var after := ChainDeposited(slots, item, name, namer);
      && after[0].contents[KeyFor(item, name, namer)] == item
      && after[1].contents[namer(Class(item.cls))] == Class(item.cls)
      && Search(after, KeyFor(item, name, namer), returnFirst).Ok?
      && Search(after, namer(Class(item.cls)), returnFirst).Ok?
  {
    var after := ChainDeposited(slots, item, name, namer);
    assert NoDefaults(after);
    MissIffAbsent(after, KeyFor(item, name, namer), returnFirst);
    MissIffAbsent(after, namer(Class(item.cls)), returnFirst);
  }

  /** A registry of instances and subclasses, instances in slot 0 and
      subclasses in slot 1. */
  class Anthology {
    var contents: seq<Registry>
    var returnFirst: bool

    ghost predicate Valid()
      reads this
    {
      |contents| == 2 && contents[0] != contents[1]
    }

    function Instances(): Registry
      requires Valid()
      reads this
    {
      contents[0]
    }

    function Subclasses(): Registry
      requires Valid()
      reads this
    {
      contents[1]
    }

    ghost function View(): seq<RegistryValue>
      requires Valid()
      reads this, contents
    {
      [contents[0].Value(), contents[1].Value()]
    }

    /** A fresh anthology holds exactly two new, empty registries. */
    constructor (returnFirst: bool)
      ensures Valid() && fresh(Instances()) && fresh(Subclasses())
      ensures Instances() != Subclasses()
      ensures View() == [Empty, Empty]
      ensures this.returnFirst == returnFirst
    {
      var instances := new Registry();
      var subclasses := new Registry();
      contents := [instances, subclasses];
      this.returnFirst := returnFirst;
    }

    method DepositInstance(item: Item, name: Option<string>, namer: Namer)
      requires Valid()
      modifies Instances()
      ensures Valid()
      ensures Instances().Value() == Deposited(old(Instances().Value()), item, name, namer)
    {
      contents[0].Deposit(item, name, namer);
    }

    method DepositSubclass(item: Item, name: Option<string>, namer: Namer)
      requires Valid()
      modifies Subclasses()
      ensures Valid()
      ensures Subclasses().Value() == Deposited(old(Subclasses().Value()), item, name, namer)
    {
      contents[1].Deposit(item, name, namer);
    }

    method Deposit(item: Item, name: Option<string>, namer: Namer)
      requires Valid()
      modifies contents
      ensures Valid() && contents == old(contents)
      ensures View() == ChainDeposited(old(View()), item, name, namer)
    {
      if item.Class? {
        DepositSubclass(item, name, namer);
      } else {
        DepositInstance(item, name, namer);
        DepositSubclass(Class(item.cls), None, namer);
      }
    }

    method Withdraw(key: string) returns (r: Result<Found>)
      requires Valid()
      ensures r == Search(View(), key, returnFirst)
    {
      var matches: seq<Item> := [];
      var i := 0;
      while i < |contents|
        invariant 0 <= i <= |contents|
        invariant Search(View(), key, returnFirst) == Collect(View()[i..], key, returnFirst, matches)
      {
        assert View()[i..][1..] == View()[i + 1..];
        var hit := contents[i].Withdraw(key);
        match hit {
          case Ok(v) =>
            matches := matches + [v];
            if returnFirst {
              return Ok(Single(matches[0]));
            }
          case Err(e) =>
            if !e.KeyError? {
              return Err(e);
            }
        }
        i := i + 1;
      }
      if |matches| == 0 {
        r := Err(KeyError(key));
      } else if |matches| > 1 {
        r := Ok(Single(matches[0]));
      } else {
        r := Ok(Matches(matches));
      }
    }
  }

  /** `Instancer.__post_init__`: a new instance is deposited into the shared
      registry under its inferred key. */
  method InstancerCreated(registry: Registry, instance: Item, namer: Namer)
    requires instance.Instance?
    modifies registry
    ensures registry.contents == old(registry.contents)[namer(instance) := instance]
    ensures registry.defaultFactory == old(registry.defaultFactory)
  {
    registry.Deposit(instance, None, namer);
  }

  /** `Subclasser.__init_subclass__`: a new subclass is deposited into the
      shared registry under its inferred key. */
  method SubclasserDefined(registry: Registry, subclass: Item, namer: Namer)
    requires subclass.Class?
    modifies registry
    ensures registry.contents == old(registry.contents)[namer(subclass) := subclass]
    ensures registry.defaultFactory == old(registry.defaultFactory)
  {
    registry.Deposit(subclass, None, namer);
  }

  /** `Curator` runs the `Instancer` hook against its shared anthology: the
      instance goes to the instance slot and its class to the subclass slot. */
  method CuratorCreated(registry: Anthology, instance: Item, namer: Namer)
    requires registry.Valid() && instance.Instance?
    modifies registry.contents
    ensures registry.Valid() && registry.contents == old(registry.contents)
    ensures registry.Instances().contents == old(registry.Instances().contents)[namer(instance) := instance]
    ensures registry.Subclasses().contents == old(registry.Subclasses().contents)[namer(Class(instance.cls)) := Class(instance.cls)]
    ensures registry.View() == ChainDeposited(old(registry.View()), instance, None, namer)
  {
    registry.Deposit(instance, None, namer);
  }

  /** `Curator` runs the `Subclasser` hook against its shared anthology: the
      subclass goes to the subclass slot only. */
  method CuratorDefined(registry: Anthology, subclass: Item, namer: Namer)
    requires registry.Valid() && subclass.Class?
    modifies registry.contents
    ensures registry.Valid() && registry.contents == old(registry.contents)
    ensures registry.Instances().contents == old(registry.Instances().contents)
    ensures registry.Subclasses().contents == old(registry.Subclasses().contents)[namer(subclass) := subclass]
    ensures registry.View() == ChainDeposited(old(registry.View()), subclass, None, namer)
  {
    registry.Deposit(subclass, None, namer);
  }
}
