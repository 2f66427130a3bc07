/** The value validators (`BonafideMaximum`, `BonafideMinimum`,
    `BonafideRange`), the default-value getter of `DefaultValidator` and
    `FactoryValidator`. The same bound validators appear, with identical
    code, in both validator modules and both setter modules. */
module Validators {
  import opened Common
  import opened Registration

  /** `BonafideMaximum(maximum, allow_equal)`. */
  datatype BonafideMaximum = BonafideMaximum(maximum: real, allowEqual: bool)
  {
    /** `validate(item, raise_error)`: an item within the bound (strictly
        below it unless `allow_equal`) passes unchanged; any other item
        raises `ValueError`, or is replaced by the maximum when `raise_error`
        is false. */
    function Validate(item: real, raiseError: bool): (r: Result<real>)
      ensures r.Ok? ==> r.value <= maximum
      ensures r.Ok? ==> r.value == item || r.value == maximum
      ensures r.Err? ==> r.error == ValueError
      ensures r.Err? <==> raiseError && (item > maximum || (!allowEqual && item == maximum))
      ensures item < maximum || (allowEqual && item == maximum) ==> r == Ok(item)
    {
      if allowEqual then
        if item <= maximum then Ok(item)
        else if raiseError then Err(ValueError)
        else Ok(maximum)
      else
        if item < maximum then Ok(item)
        else if raiseError then Err(ValueError)
        else Ok(maximum)
    }
  }

  /** `BonafideMinimum(minimum, allow_equal)`, the mirror image. */
  datatype BonafideMinimum = BonafideMinimum(minimum: real, allowEqual: bool)
  {
    function Validate(item: real, raiseError: bool): (r: Result<real>)
      ensures r.Ok? ==> r.value >= minimum
      ensures r.Ok? ==> r.value == item || r.value == minimum
      ensures r.Err? ==> r.error == ValueError
      ensures r.Err? <==> raiseError && (item < minimum || (!allowEqual && item == minimum))
      ensures item > minimum || (allowEqual && item == minimum) ==> r == Ok(item)
    {
      if allowEqual then
        if item >= minimum then Ok(item)
        else if raiseError then Err(ValueError)
        else Ok(minimum)
      else
        if item > minimum then Ok(item)
        else if raiseError then Err(ValueError)
        else Ok(minimum)
    }
  }

  /** `BonafideRange(maximum, minimum, allow_equal)`. */
  datatype BonafideRange = BonafideRange(maximum: real, minimum: real, allowEqual: bool)
  {
    /** `validate(item)`: the item itself exactly when it lies within the
        bounds (the open interval unless `allow_equal`), else `ValueError`. */
    function Validate(item: real): (r: Result<real>)
      ensures r.Ok? ==> r.value == item
      ensures r.Err? ==> r.error == ValueError
      ensures r.Ok? <==> if allowEqual then minimum <= item <= maximum else minimum < item < maximum
    {
      if allowEqual then
        if maximum >= item >= minimum then Ok(item) else Err(ValueError)
      else
        if maximum > item > minimum then Ok(item) else Err(ValueError)
    }
  }

  /** Without `raise_error`, validating twice is validating once, and the
      result is never rejected. */
  lemma MaximumIdempotent(v: BonafideMaximum, item: real)
    ensures v.Validate(item, false).Ok?
    ensures v.Validate(v.Validate(item, false).value, false) == v.Validate(item, false)
  {
  }

  lemma MinimumIdempotent(v: BonafideMinimum, item: real)
    ensures v.Validate(item, false).Ok?
    ensures v.Validate(v.Validate(item, false).value, false) == v.Validate(item, false)
  {
  }

  /** In strict mode the bound itself is out of range: rejected when
      raising, otherwise answered with the bound. */
  lemma StrictBoundIsOutOfRange(max: BonafideMaximum, min: BonafideMinimum)
    requires !max.allowEqual && !min.allowEqual
    ensures max.Validate(max.maximum, true) == Err(ValueError)
    ensures max.Validate(max.maximum, false) == Ok(max.maximum)
    ensures min.Validate(min.minimum, true) == Err(ValueError)
    ensures min.Validate(min.minimum, false) == Ok(min.minimum)
  {
  }

  /** A range whose minimum exceeds its maximum rejects every item. */
  lemma InvertedRangeRejectsAll(v: BonafideRange, item: real)
    requires v.minimum > v.maximum
    ensures v.Validate(item) == Err(ValueError)
  {
  }

  /** A range accepts exactly what both of its one-sided validators accept
      when raising. */
  lemma RangeIsBothBounds(v: BonafideRange, item: real)
    ensures v.Validate(item).Ok? <==>
      BonafideMaximum(v.maximum, v.allowEqual).Validate(item, true).Ok?
      && BonafideMinimum(v.minimum, v.allowEqual).Validate(item, true).Ok?
  {
  }

  /** `DefaultValidator.__get__`: the value stored under the private name
      (`stored`), else what calling `default_factory` returns, else, when
      that call raises `TypeError`, `default_factory` itself. */
  function DefaultGet<T>(stored: Option<T>, d: Default<T>): (r: Result<T>)
    ensures stored.Some? ==> r == Ok(stored.value)
    ensures stored.None? && d.call.Returns? ==> r == Ok(d.call.value)
    ensures stored.None? && d.call == Raises(TypeError) ==> r == Ok(d.factory)
    ensures stored.None? && d.call.Raises? && d.call.error != TypeError ==> r == Err(d.call.error)
  {
    match stored
    case Some(v) => Ok(v)
    case None => Invoke(d)
  }

  /** The descriptor's getter behaves like a registry lookup whose
      `default_factory` is the descriptor's: a stored value is returned as
      a hit is, and a missing one falls back exactly as a miss does. */
  lemma DescriptorFallsBackLikeRegistry(m: map<string, Item>, d: Default<Item>, k: string, stored: Item)
    requires k !in m
    ensures DefaultGet(None, d) == Withdrawn(RegistryValue(m, Some(d)), k)
    ensures DefaultGet(Some(stored), d) == Withdrawn(RegistryValue(m[k := stored], Some(d)), k)
  {
  }

  /** A descriptor's value: a string, a registered item, or `None`. */
  datatype Attribute = Text(text: string) | Object(item: Item) | Nothing

  /** `Mapping.get(key)` on a registry: `r[key]`, with `KeyError` turned
      into `None`. */
  function RegistryGet(r: RegistryValue, key: string): (g: Result<Option<Item>>)
    ensures key in r.contents ==> g == Ok(Some(r.contents[key]))
    ensures key !in r.contents && r.fallback.None? ==> g == Ok(None)
    ensures g.Err? ==> !g.error.KeyError?
  {
    match Withdrawn(r, key)
    case Ok(item) => Ok(Some(item))
    case Err(e) => if e.KeyError? then Ok(None) else Err(e)
  }

  /** `FactoryValidator.validate`: a string is looked up in the owner's
      registry; anything else passes through unchanged. */
  function FactoryValidated(registry: RegistryValue, item: Attribute): (r: Result<Attribute>)
    ensures !item.Text? ==> r == Ok(item)
    ensures item.Text? && item.text in registry.contents ==> r == Ok(Object(registry.contents[item.text]))
    ensures item.Text? && item.text !in registry.contents && registry.fallback.None? ==> r == Ok(Nothing)
  {
    match item
    case Text(key) =>
      (match RegistryGet(registry, key)
       case Ok(Some(found)) => Ok(Object(found))
       case Ok(None) => Ok(Nothing)
       case Err(e) => Err(e))
    case _ => Ok(item)
  }
}
