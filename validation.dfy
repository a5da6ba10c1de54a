/** The validation combinators of package/src/validation.ts: predicates over
    untyped JavaScript values, built from closures. */
module Validation {
  import opened Wrappers
  import Strings

  /** A JavaScript number: a real value, an infinity, or NaN (`-0` and `0`
      are the same value under `===`). */
  datatype Number = NaN | PosInf | NegInf | Finite(r: real)

  /** A JavaScript value as `JSON.parse` produces it, plus `undefined`.
      An object lists its own enumerable properties in enumeration order. */
  datatype Value =
    | Undefined
    | Null
    | Bool(b: bool)
    | Num(n: Number)
    | Str(s: string)
    | Arr(elems: seq<Value>)
    | Obj(entries: seq<(string, Value)>)

  type Validator = Value -> bool

  /** `typeof o` */
  function TypeOf(o: Value): string {
    match o
    case Undefined => "undefined"
    case Null => "object"
    case Bool(_) => "boolean"
    case Num(_) => "number"
    case Str(_) => "string"
    case Arr(_) => "object"
    case Obj(_) => "object"
  }

  /** `typeof o === "object" && o !== null`: arrays are objects too. */
  predicate IsObject(o: Value) {
    TypeOf(o) == "object" && !o.Null?
  }

  /** The values `literal` may be given. */
  predicate IsPrimitive(x: Value) {
    !x.Arr? && !x.Obj?
  }

  /** `o === x` for a primitive `x`: NaN equals nothing, an object no primitive. */
  function StrictEquals(o: Value, x: Value): bool
    requires IsPrimitive(x)
  {
    match (o, x)
    case (Undefined, Undefined) => true
    case (Null, Null) => true
    case (Bool(a), Bool(b)) => a == b
    case (Num(a), Num(b)) => !a.NaN? && a == b
    case (Str(a), Str(b)) => a == b
    case _ => false
  }

  /** `Object.entries(o)` for an object: own enumerable properties; an array's
      are its indices, as decimal strings. */
  function OwnEntries(o: Value): (es: seq<(string, Value)>)
    requires IsObject(o)
    ensures o.Obj? ==> es == o.entries
    ensures o.Arr? ==> |es| == |o.elems|
    ensures o.Arr? ==> forall i :: 0 <= i < |es| ==> es[i] == (Strings.NatToString(i), o.elems[i])
  {
    match o
    case Obj(es) => es
    case Arr(elems) => seq(|elems|, i requires 0 <= i < |elems| => (Strings.NatToString(i), elems[i]))
  }

  /** The value of the first entry named `key`, or `undefined`. */
  function Lookup(es: seq<(string, Value)>, key: string): (v: Value)
    ensures v != Undefined ==> exists i :: 0 <= i < |es| && es[i] == (key, v)
    ensures (forall i :: 0 <= i < |es| ==> es[i].0 != key) ==> v == Undefined
  {
    if es == [] then Undefined
    else if es[0].0 == key then es[0].1
    else Lookup(es[1..], key)
  }

  /** `target[key]` on an object: an own property, an array's `length`, or
      `undefined` (inherited properties are not modelled). */
  function Property(o: Value, key: string): Value
    requires IsObject(o)
  {
    if o.Arr? && key == "length" then Num(Finite(|o.elems| as real))
    else Lookup(OwnEntries(o), key)
  }

  // ---------------------------------------------------------------------------
  // The combinators

  /** `v.bool()` */
  function BoolV(): (r: Validator)
    ensures forall o :: r(o) <==> o.Bool?
  {
    o => TypeOf(o) == "boolean"
  }

  /** `v.number()`: any number, NaN included. */
  function NumberV(): (r: Validator)
    ensures forall o :: r(o) <==> o.Num?
  {
    o => TypeOf(o) == "number"
  }

  /** `v.string()` */
  function StringV(): (r: Validator)
    ensures forall o :: r(o) <==> o.Str?
  {
    o => TypeOf(o) == "string"
  }

  /** `v.unknown()` */
  function UnknownV(): (r: Validator)
    ensures forall o :: r(o)
  {
    o => true
  }

  /** `v.optional(validator)` */
  function Optional(validator: Validator): (r: Validator)
    ensures forall o :: r(o) <==> validator(o) || o == Undefined
  {
    o => validator(o) || StrictEquals(o, Undefined)
  }

  /** `v.nullable(validator)` */
  function Nullable(validator: Validator): (r: Validator)
    ensures forall o :: r(o) <==> validator(o) || o == Null
  {
    o => validator(o) || StrictEquals(o, Null)
  }

  /** `validators.some(validator => validator(o))` */
  function SomeAccepts(validators: seq<Validator>, o: Value): (b: bool)
    ensures b <==> exists i :: 0 <= i < |validators| && validators[i](o)
  {
    if validators == [] then false
    else validators[0](o) || SomeAccepts(validators[1..], o)
  }

  /** `v.union(...validators)` */
  function Union(validators: seq<Validator>): (r: Validator)
    ensures forall o :: r(o) <==> exists i :: 0 <= i < |validators| && validators[i](o)
  {
    o => SomeAccepts(validators, o)
  }

  /** `v.literal(value)` */
  function Literal(x: Value): (r: Validator)
    requires IsPrimitive(x)
    ensures forall o :: r(o) <==> IsPrimitive(o) && o == x && !(x.Num? && x.n.NaN?)
  {
    o => StrictEquals(o, x)
  }

  /** The loop of `v.obj`: each declared key's validator on the target's property. */
  function KeysAccept(schema: seq<(string, Validator)>, o: Value): (b: bool)
    requires IsObject(o)
    ensures b <==> forall i :: 0 <= i < |schema| ==> schema[i].1(Property(o, schema[i].0))
  {
    if schema == [] then true
    else if !schema[0].1(Property(o, schema[0].0)) then false
    else KeysAccept(schema[1..], o)
  }

  /** `v.obj(schema)`, the schema's keys in declaration order. */
  function ObjV(schema: seq<(string, Validator)>): (r: Validator)
    ensures forall o :: r(o) <==>
      IsObject(o) && forall i :: 0 <= i < |schema| ==> schema[i].1(Property(o, schema[i].0))
  {
    o => if TypeOf(o) != "object" || o == Null || o == Undefined then false else KeysAccept(schema, o)
  }

  /** `o.every(element => elementValidator(element))` */
  function Every(elementValidator: Validator, elems: seq<Value>): (b: bool)
    ensures b <==> forall i :: 0 <= i < |elems| ==> elementValidator(elems[i])
  {
    if elems == [] then true
    else elementValidator(elems[0]) && Every(elementValidator, elems[1..])
  }

  /** `v.array(elementValidator)` */
  function ArrayV(elementValidator: Validator): (r: Validator)
    ensures forall o :: r(o) <==> o.Arr? && forall i :: 0 <= i < |o.elems| ==> elementValidator(o.elems[i])
  {
    (o: Value) => if !o.Arr? then false else Every(elementValidator, o.elems)
  }

  /** The loop of `v.record`: stops at the first entry whose key or value is rejected. */
  function EntriesAccept(keyValidator: Validator, valueValidator: Validator, es: seq<(string, Value)>): (b: bool)
    ensures b <==> forall i :: 0 <= i < |es| ==> keyValidator(Str(es[i].0)) && valueValidator(es[i].1)
  {
    if es == [] then true
    else if !keyValidator(Str(es[0].0)) || !valueValidator(es[0].1) then false
    else EntriesAccept(keyValidator, valueValidator, es[1..])
  }

  /** `v.record(keyValidator, valueValidator)` */
  function Record(keyValidator: Validator, valueValidator: Validator): (r: Validator)
    ensures forall o :: r(o) <==> (IsObject(o) &&
      var es := OwnEntries(o);
      forall i :: 0 <= i < |es| ==> keyValidator(Str(es[i].0)) && valueValidator(es[i].1))
  {
    o => if TypeOf(o) != "object" || o == Null || o == Undefined then false
         else EntriesAccept(keyValidator, valueValidator, OwnEntries(o))
  }

  /** `v.parse(object, validator)`: the input itself, or the error it throws. */
  function Parse(o: Value, validator: Validator): (r: Result<Value, string>)
    ensures r.Ok? <==> validator(o)
    ensures r.Ok? ==> r.value == o
    ensures r.Err? ==> r.error == "Validation failed!"
  {
    if !validator(o) then Err("Validation failed!") else Ok(o)
  }

  /** `v.parseSafe(object, validator)`: the input itself, or `null`. */
  function ParseSafe(o: Value, validator: Validator): (r: Value)
    ensures validator(o) ==> r == o
    ensures !validator(o) ==> r == Null
  {
    if !validator(o) then Null else o
  }

  /** A `null` result of `parseSafe` means rejection, or a valid `null`. */
  lemma ParseSafeNull(o: Value, validator: Validator)
    ensures ParseSafe(o, validator) == Null <==> !validator(o) || o == Null
  {
  }

  /** JavaScript truthiness, as in `if (!data)`. */
  predicate Truthy(o: Value) {
    match o
    case Undefined => false
    case Null => false
    case Bool(b) => b
    case Num(n) => !n.NaN? && n != Finite(0.0)
    case Str(s) => s != ""
    case Arr(_) => true
    case Obj(_) => true
  }

  // ---------------------------------------------------------------------------
  // Facts about the combinators

  /** The empty union rejects everything. */
  lemma EmptyUnionRejects(o: Value)
    ensures !Union([])(o)
  {
  }

  /** `literal(NaN)` accepts nothing, since NaN is not `===` to itself. */
  lemma LiteralNaNRejects(o: Value)
    ensures !Literal(Num(NaN))(o)
  {
  }

  /** `[]` passes every array validator; `{}` and `[]` pass every record validator. */
  lemma EmptyContainersAccepted(elementValidator: Validator, keyValidator: Validator, valueValidator: Validator)
    ensures ArrayV(elementValidator)(Arr([]))
    ensures Record(keyValidator, valueValidator)(Obj([]))
    ensures Record(keyValidator, valueValidator)(Arr([]))
  {
    assert OwnEntries(Arr([])) == [];
  }

  /** Undeclared keys are ignored by `obj`: adding an entry with a new name to
      an object does not change the verdict. */
  lemma ObjIgnoresUndeclared(schema: seq<(string, Validator)>, es: seq<(string, Value)>, key: string, x: Value)
    requires forall i :: 0 <= i < |schema| ==> schema[i].0 != key
    ensures ObjV(schema)(Obj(es + [(key, x)])) == ObjV(schema)(Obj(es))
  {
    forall i | 0 <= i < |schema|
      ensures Property(Obj(es + [(key, x)]), schema[i].0) == Property(Obj(es), schema[i].0)
    {
      LookupAppendOther(es, key, x, schema[i].0);
    }
  }

  lemma {:induction false} LookupAppendOther(es: seq<(string, Value)>, key: string, x: Value, k: string)
    requires k != key
    ensures Lookup(es + [(key, x)], k) == Lookup(es, k)
  {
    if es == [] {
      assert es + [(key, x)] == [(key, x)];
      assert [(key, x)][1..] == [];
    } else {
      assert (es + [(key, x)])[1..] == es[1..] + [(key, x)];
      LookupAppendOther(es[1..], key, x, k);
    }
  }

  /** An absent key is seen as `undefined`: `obj({k: optional(...)})` accepts `{}`. */
  lemma ObjAbsentIsUndefined(key: string, validator: Validator)
    ensures ObjV([(key, Optional(validator))])(Obj([]))
  {
  }

  // ---------------------------------------------------------------------------
  // The lockfile schema

  /** `lockfileSchema`: `record(string(), record(string(), string()))`. */
  function LockfileSchema(): Validator {
    Record(StringV(), Record(StringV(), StringV()))
  }

  /** An object all of whose own properties are strings. */
  predicate IsStrings(x: Value) {
    IsObject(x) && forall j :: 0 <= j < |OwnEntries(x)| ==> OwnEntries(x)[j].1.Str?
  }

  /** A table of tables of strings, stated on its own. */
  predicate IsStringTable(o: Value) {
    IsObject(o) && forall i :: 0 <= i < |OwnEntries(o)| ==> IsStrings(OwnEntries(o)[i].1)
  }

  /** `record(string(), string())` accepts exactly the objects whose own
      properties are all strings. */
  lemma StringRecordExact(x: Value)
    ensures Record(StringV(), StringV())(x) <==> IsStrings(x)
  {
    if IsObject(x) {
      var es := OwnEntries(x);
      assert forall j :: 0 <= j < |es| ==> StringV()(Str(es[j].0));
    }
  }

  /** The schema accepts exactly the tables of tables of strings. */
  lemma LockfileSchemaExact(o: Value)
    ensures LockfileSchema()(o) <==> IsStringTable(o)
  {
    var inner := Record(StringV(), StringV());
    if IsObject(o) {
      var es := OwnEntries(o);
      assert forall i :: 0 <= i < |es| ==> StringV()(Str(es[i].0));
      forall i | 0 <= i < |es|
        ensures inner(es[i].1) <==> IsStrings(es[i].1)
      {
        StringRecordExact(es[i].1);
      }
    }
  }

  /** Every value the schema accepts is truthy, so `if (!data)` after
      `parseSafe` fires exactly on a rejected value. */
  lemma LockfileSchemaTruthy(o: Value)
    ensures Truthy(ParseSafe(o, LockfileSchema())) <==> LockfileSchema()(o)
  {
  }
}
