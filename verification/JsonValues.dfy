/**
 * JavaScript values as JSON sees them, and the size of their JSON text in UTF-8.
 */
module JsonValues {

  /** A UTF-16 code unit. */
  newtype Unit = u: int | 0 <= u < 0x1_0000

  type Text = seq<Unit>

  /** An object keeps its own properties in order. A number is its JSON text. */
  datatype Value =
    | Undefined
    | Null
    | Bool(flag: bool)
    | Number(text: string)
    | Str(units: Text)
    | Arr(items: seq<Value>)
    | Obj(fields: seq<Field>)

  datatype Field = Field(key: Text, value: Value)

  /** "__proto__": assigning this property never adds an own property. */
  const PROTO: Text := [0x5F, 0x5F, 0x70, 0x72, 0x6F, 0x74, 0x6F, 0x5F, 0x5F]

  // ---------------------------------------------------------------------
  // Strings.

  predicate IsHigh(u: Unit) {
    0xD800 <= u <= 0xDBFF
  }

  predicate IsLow(u: Unit) {
    0xDC00 <= u <= 0xDFFF
  }

  /** The bytes of a unit that is not part of a surrogate pair; lone surrogates are escaped. */
  function UnitBytes(u: Unit): (n: nat)
    ensures 1 <= n <= 6
  {
    if u == 0x22 || u == 0x5C then 2
    else if u < 0x20 then (if u == 8 || u == 9 || u == 10 || u == 12 || u == 13 then 2 else 6)
    else if u < 0x80 then 1
    else if u < 0x800 then 2
    else if 0xD800 <= u <= 0xDFFF then 6
    else 3
  }

  function UnitsBytes(s: Text): nat {
    if s == [] then 0
    else if |s| >= 2 && IsHigh(s[0]) && IsLow(s[1]) then 4 + UnitsBytes(s[2..])
    else UnitBytes(s[0]) + UnitsBytes(s[1..])
  }

  function StringBytes(s: Text): nat {
    2 + UnitsBytes(s)
  }

  // ---------------------------------------------------------------------
  // Values.

  /** The size of the JSON text; what has no JSON text counts as null. */
  function Size(v: Value): nat
    decreases v
  {
    match v
    case Undefined => 4
    case Null => 4
    case Bool(flag) => if flag then 4 else 5
    case Number(text) => |text|
    case Str(units) => StringBytes(units)
    case Arr(items) => 2 + ItemsSize(items)
    case Obj(fields) => 2 + FieldsSize(fields)
  }

  function ItemsSize(items: seq<Value>): nat
    decreases items
  {
    if items == [] then 0 else
      var front, last := ItemsSize(items[..|items| - 1]), Size(items[|items| - 1]);
      if |items| == 1 then last else front + 1 + last
  }

  /** Undefined properties have no JSON text. */
  function FieldsSize(fields: seq<Field>): nat
    decreases fields
  {
    if fields == [] then 0 else
      var front, last := FieldsSize(fields[..|fields| - 1]), fields[|fields| - 1];
      if last.value.Undefined? then front
      else if front == 0 then StringBytes(last.key) + 1 + Size(last.value)
      else front + 1 + (StringBytes(last.key) + 1 + Size(last.value))
  }

  lemma {:induction false} ItemsSizeSnoc(items: seq<Value>, v: Value)
    ensures ItemsSize(items + [v]) == if items == [] then Size(v) else ItemsSize(items) + 1 + Size(v)
  {
    assert (items + [v])[..|items|] == items;
  }

  lemma {:induction false} FieldsSizeSnoc(fields: seq<Field>, field: Field)
    ensures FieldsSize(fields + [field]) == FieldsSize(fields) +
      if field.value.Undefined? then 0
      else (if FieldsSize(fields) == 0 then 0 else 1) + StringBytes(field.key) + 1 + Size(field.value)
  {
    assert (fields + [field])[..|fields|] == fields;
  }
}
