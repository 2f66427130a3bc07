/** The setter descriptor `TypeValidator`: `__set_name__` records the
    attribute's name and its private slot, `__set__` stores the validated
    value in that slot of the owner object, and `__get__` reads it back. */
module Setters {
  import opened Common

  /** An object's attributes, by name. */
  class Owner<V> {
    var attributes: map<string, V>

    constructor ()
      ensures attributes == map[]
    {
      attributes := map[];
    }
  }

  /** `f'_{name}'`. */
  function PrivateName(name: string): (p: string)
    ensures |p| == |name| + 1 && p[0] == '_' && p[1..] == name
    ensures p != name
  {
    "_" + name
  }

  /** `getattr(owner, private_name)`. */
  function Read<V>(attributes: map<string, V>, slot: string): (r: Result<V>)
    ensures slot in attributes <==> r.Ok?
    ensures r.Ok? ==> r.value == attributes[slot]
    ensures r.Err? ==> r.error == AttributeError(slot)
  {
    if slot in attributes then Ok(attributes[slot]) else Err(AttributeError(slot))
  }

  /** The attributes after `__set__(owner, value)`: the validated value
      stored under the slot, or nothing changed when validation raises. */
  function Assigned<V>(attributes: map<string, V>, slot: string, validated: Result<V>): map<string, V>
  {
    if validated.Ok? then attributes[slot := validated.value] else attributes
  }

  /** Reading the slot after an assignment yields the validated value, and
      every other attribute is untouched. */
  lemma ReadAfterAssign<V>(attributes: map<string, V>, slot: string, validated: Result<V>)
    requires validated.Ok?
    ensures Read(Assigned(attributes, slot, validated), slot) == validated
    ensures forall k | k in attributes && k != slot :: Read(Assigned(attributes, slot, validated), k) == Read(attributes, k)
  {
  }

  /** A validator descriptor. `validate` is the subclass's check, passed in. */
  class TypeValidator<V> {
    var attributeName: string
    var privateName: string
    var owner: Option<ClassId>

    constructor ()
      ensures attributeName == "" && privateName == "" && owner == None
    {
      attributeName := "";
      privateName := "";
      owner := None;
    }

    /** `__set_name__(owner, name)`. */
    method SetName(ownerClass: ClassId, name: string)
      modifies this
      ensures attributeName == name && privateName == PrivateName(name) && owner == Some(ownerClass)
    {
      attributeName := name;
      privateName := "_" + name;
      owner := Some(ownerClass);
    }

    /** `__set__(owner, value)`: validate, then store under the private
        name; a raising validation leaves the owner as it was. */
    method Set(instance: Owner<V>, value: V, validate: V -> Result<V>) returns (raised: Option<Error>)
      modifies instance
      ensures instance.attributes == Assigned(old(instance.attributes), privateName, validate(value))
      ensures raised.Some? <==> validate(value).Err?
      ensures raised.Some? ==> raised.value == validate(value).error
    {
      var validated := validate(value);
      if validated.Err? {
        return Some(validated.error);
      }
      instance.attributes := instance.attributes[privateName := validated.value];
      raised := None;
    }

    /** `__get__(owner)`: the private slot, `AttributeError` if unset. */
    method Get(instance: Owner<V>) returns (r: Result<V>)
      ensures r == Read(instance.attributes, privateName)
    {
      if privateName in instance.attributes {
        r := Ok(instance.attributes[privateName]);
      } else {
        r := Err(AttributeError(privateName));
      }
    }
  }
}
