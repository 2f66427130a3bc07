/** Shared vocabulary of the registration layer: the things that get
    registered, the errors Python raises, the `name or NAMER(item)` key rule
    and the `default_factory` fallback. */
module Common {

  /** Python's `Optional[...]`. */
  datatype Option<+T> = None | Some(value: T)

  /** The exceptions the modelled code raises. */
  datatype Error =
    | KeyError(key: string)
    | AttributeError(name: string)
    | ValueError
    | TypeError

  /** A value or the exception raised instead of it. */
  datatype Result<+T> = Ok(value: T) | Err(error: Error)

  /** A class is named by an id; which ids are subclasses of which is supplied
      by the caller (Python's `issubclass`). */
  type ClassId = nat

  /** A registered item: a class, or an instance (object id and its class). */
  datatype Item = Class(id: ClassId) | Instance(oid: nat, cls: ClassId)
  {
    /** `item.__class__` for an instance; a class stands for itself. */
    function Testable(): ClassId
    {
      if Class? then id else cls
    }
  }

  /** The configured key function (`NAMER` / `KEYER`): item to string key. */
  type Namer = Item -> string

  /** `name or NAMER(item)`: an absent or empty (falsy) name falls back to the
      key inferred from the item. */
  function KeyFor(item: Item, name: Option<string>, namer: Namer): (k: string)
    ensures name.Some? && name.value != "" ==> k == name.value
    ensures name.None? || name.value == "" ==> k == namer(item)
  {
    if name.Some? && name.value != "" then name.value else namer(item)
  }

  /** What calling a stored `default_factory` does. */
  datatype Invocation<+T> = Returns(value: T) | Raises(error: Error)

  /** A `default_factory`: the stored object itself and what calling it does
      (calling an object that is not callable raises `TypeError`). */
  datatype Default<+T> = Default(factory: T, call: Invocation<T>)

  /** `try: return f() except TypeError: return f` */
  function Invoke<T>(d: Default<T>): (r: Result<T>)
    ensures d.call.Returns? ==> r == Ok(d.call.value)
    ensures d.call == Raises(TypeError) ==> r == Ok(d.factory)
    ensures d.call.Raises? && d.call.error != TypeError ==> r == Err(d.call.error)
  {
    match d.call
    case Returns(v) => Ok(v)
    case Raises(e) => if e == TypeError then Ok(d.factory) else Err(e)
  }
}
