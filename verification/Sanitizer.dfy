/** Sanitization of captured values: a walk over an object graph that may be cyclic. */
module Sanitizer {
  import opened Prelude
  import opened JsonValues

  /** A place that holds a primitive or refers to an object. `Other` is anything that only has a string form. */
  datatype Slot =
    | Missing
    | Nil
    | Flag(flag: bool)
    | Num(number: string)
    | Chars(units: Text)
    | Other(form: Text)
    | Ref(id: nat)

  datatype Property = Property(key: Text, slot: Slot)

  datatype Object = ArrayObject(items: seq<Slot>) | RecordObject(properties: seq<Property>)

  type Heap = map<nat, Object>

  predicate Resolves(heap: Heap, slot: Slot) {
    slot.Ref? ==> slot.id in heap
  }

  predicate ObjectResolves(heap: Heap, obj: Object) {
    match obj
    case ArrayObject(items) => forall k | 0 <= k < |items| :: Resolves(heap, items[k])
    case RecordObject(properties) => forall k | 0 <= k < |properties| :: Resolves(heap, properties[k].slot)
  }

  /** No reference dangles. */
  predicate Closed(heap: Heap) {
    forall id | id in heap :: ObjectResolves(heap, heap[id])
  }

  /** Which keys are sensitive, and the two text redactions. */
  datatype Policy = Policy(sensitive: Text -> bool, hard: Text -> Text, privacy: Text -> Text)

  datatype Options = Options(redacted: bool, maxText: nat)

  datatype Outcome = Outcome(value: Value, changed: bool)

  datatype ItemsOutcome = ItemsOutcome(items: seq<Value>, changed: bool)

  datatype FieldsOutcome = FieldsOutcome(fields: seq<Field>, changed: bool)

  const MAX_ITEMS := 100

  /** The redaction marker. */
  const REDACTED: Text := [0x5B, 0x5DF2, 0x8131, 0x654F, 0x5D]

  /** The marker for a value that contains itself. */
  const CYCLE: Text := [0x5B, 0x5FAA, 0x73AF, 0x5F15, 0x7528, 0x5D]

  function First<T>(s: seq<T>): seq<T> {
    if |s| > MAX_ITEMS then s[..MAX_ITEMS] else s
  }

  function SanitizeText(policy: Policy, options: Options, text: Text): Outcome {
    var cut := if |text| > options.maxText then text[..options.maxText] else text;
    var hard := policy.hard(cut);
    var value := if options.redacted then policy.privacy(hard) else hard;
    Outcome(Str(value), hard != cut || value != hard || |cut| != |text|)
  }

  // ---------------------------------------------------------------------
  // The walk, as a function of the objects on the current path.

  function SanitizeSlot(heap: Heap, policy: Policy, options: Options, slot: Slot, seen: set<nat>): Outcome
    requires Closed(heap) && Resolves(heap, slot)
    decreases heap.Keys - seen, 0, 0
  {
    match slot
    case Missing => Outcome(Undefined, false)
    case Nil => Outcome(Null, false)
    case Flag(flag) => Outcome(Bool(flag), false)
    case Num(number) => Outcome(Number(number), false)
    case Chars(units) => SanitizeText(policy, options, units)
    case Other(form) => Outcome(Str(form), true)
    case Ref(id) =>
      if id in seen then Outcome(Str(CYCLE), true)
      else match heap[id]
        case ArrayObject(items) =>
          var r := SanitizeItems(heap, policy, options, First(items), seen + {id});
          Outcome(Arr(r.items), r.changed || |items| > MAX_ITEMS)
        case RecordObject(properties) =>
          var r := SanitizeProperties(heap, policy, options, First(properties), seen + {id});
          Outcome(Obj(r.fields), r.changed || |properties| > MAX_ITEMS)
  }

  function SanitizeItems(heap: Heap, policy: Policy, options: Options, items: seq<Slot>, seen: set<nat>): ItemsOutcome
    requires Closed(heap) && forall k | 0 <= k < |items| :: Resolves(heap, items[k])
    decreases heap.Keys - seen, |items|
  {
    if items == [] then ItemsOutcome([], false) else
      var front := SanitizeItems(heap, policy, options, items[..|items| - 1], seen);
      var last := SanitizeSlot(heap, policy, options, items[|items| - 1], seen);
      ItemsOutcome(front.items + [last.value], front.changed || last.changed)
  }

  function Assigned(fields: seq<Field>, key: Text, value: Value): seq<Field> {
    if key == PROTO then fields else fields + [Field(key, value)]
  }

  function SanitizeProperty(heap: Heap, policy: Policy, options: Options, property: Property, seen: set<nat>): Outcome
    requires Closed(heap) && Resolves(heap, property.slot)
    decreases heap.Keys - seen, 0, 1
  {
    if policy.sensitive(property.key) then Outcome(Str(REDACTED), true)
    else SanitizeSlot(heap, policy, options, property.slot, seen)
  }

  function SanitizeProperties(heap: Heap, policy: Policy, options: Options, properties: seq<Property>,
      seen: set<nat>): FieldsOutcome
    requires Closed(heap) && forall k | 0 <= k < |properties| :: Resolves(heap, properties[k].slot)
    decreases heap.Keys - seen, |properties|
  {
    if properties == [] then FieldsOutcome([], false) else
      var front := SanitizeProperties(heap, policy, options, properties[..|properties| - 1], seen);
      var last := SanitizeProperty(heap, policy, options, properties[|properties| - 1], seen);
      FieldsOutcome(Assigned(front.fields, properties[|properties| - 1].key, last.value), front.changed || last.changed)
  }

  /** The walk itself: one set of objects, marked on the way down and unmarked on the way up. */
  class Walk {
    const heap: Heap
    const policy: Policy
    const options: Options
    var seen: set<nat>

    constructor (heap: Heap, policy: Policy, options: Options)
      ensures this.heap == heap && this.policy == policy && this.options == options && seen == {}
    {
      this.heap, this.policy, this.options, this.seen := heap, policy, options, {};
    }

    method SanitizeValue(slot: Slot) returns (value: Value, changed: bool)
      requires Closed(heap) && Resolves(heap, slot)
      modifies this
      ensures seen == old(seen)
      ensures Outcome(value, changed) == SanitizeSlot(heap, policy, options, slot, seen)
      decreases heap.Keys - seen, 0
    {
      match slot {
        case Missing => return Undefined, false;
        case Nil => return Null, false;
        case Flag(flag) => return Bool(flag), false;
        case Num(number) => return Number(number), false;
        case Chars(units) =>
          var r := SanitizeText(policy, options, units);
          return r.value, r.changed;
        case Other(form) => return Str(form), true;
        case Ref(id) =>
          if id in seen {
            return Str(CYCLE), true;
          }
          seen := seen + {id};
          assert ObjectResolves(heap, heap[id]);
          match heap[id] {
            case ArrayObject(items) =>
              var selected := First(items);
              var r, c := SanitizeSelected(selected);
              value, changed := Arr(r), c || |selected| != |items|;
            case RecordObject(properties) =>
              var selected := First(properties);
              var r, c := SanitizeEntries(selected);
              value, changed := Obj(r), c || |selected| != |properties|;
          }
          seen := seen - {id};
          assert seen == old(seen);
      }
    }

    method SanitizeSelected(selected: seq<Slot>) returns (result: seq<Value>, changed: bool)
      requires Closed(heap) && forall k | 0 <= k < |selected| :: Resolves(heap, selected[k])
      modifies this
      ensures seen == old(seen)
      ensures ItemsOutcome(result, changed) == SanitizeItems(heap, policy, options, selected, seen)
      decreases heap.Keys - seen, 1
    {
      result, changed := [], false;
      for i := 0 to |selected|
        invariant seen == old(seen)
        invariant ItemsOutcome(result, changed) == SanitizeItems(heap, policy, options, selected[..i], seen)
      {
        assert selected[..i + 1][..i] == selected[..i];
        var item, c := SanitizeValue(selected[i]);
        result := result + [item];
        changed := changed || c;
      }
      assert selected[..|selected|] == selected;
    }

    method SanitizeEntries(entries: seq<Property>) returns (result: seq<Field>, changed: bool)
      requires Closed(heap) && forall k | 0 <= k < |entries| :: Resolves(heap, entries[k].slot)
      modifies this
      ensures seen == old(seen)
      ensures FieldsOutcome(result, changed) == SanitizeProperties(heap, policy, options, entries, seen)
      decreases heap.Keys - seen, 1
    {
      result, changed := [], false;
      for i := 0 to |entries|
        invariant seen == old(seen)
        invariant FieldsOutcome(result, changed) == SanitizeProperties(heap, policy, options, entries[..i], seen)
      {
        assert entries[..i + 1][..i] == entries[..i];
        var key := entries[i].key;
        if policy.sensitive(key) {
          result, changed := Assigned(result, key, Str(REDACTED)), true;
        } else {
          var value, c := SanitizeValue(entries[i].slot);
          result, changed := Assigned(result, key, value), changed || c;
        }
      }
      assert entries[..|entries|] == entries;
    }
  }

  // ---------------------------------------------------------------------
  // What comes out.

  /** No sensitive key carries anything but the marker, and nothing is longer than the limit, at any depth. */
  ghost predicate Clean(policy: Policy, v: Value)
    decreases v
  {
    match v
    case Arr(items) => |items| <= 100 && forall k | 0 <= k < |items| :: Clean(policy, items[k])
    case Obj(fields) => |fields| <= 100 && CleanFields(policy, fields)
    case _ => true
  }

  ghost predicate CleanFields(policy: Policy, fields: seq<Field>)
    decreases fields
  {
    forall k | 0 <= k < |fields| ::
      Clean(policy, fields[k].value) && (policy.sensitive(fields[k].key) ==> fields[k].value == Str(REDACTED))
  }

  lemma {:induction false} SlotClean(heap: Heap, policy: Policy, options: Options, slot: Slot, seen: set<nat>)
    requires Closed(heap) && Resolves(heap, slot)
    ensures Clean(policy, SanitizeSlot(heap, policy, options, slot, seen).value)
    decreases heap.Keys - seen, 0
  {
    if slot.Ref? && slot.id !in seen {
      match heap[slot.id] {
        case ArrayObject(items) => ItemsClean(heap, policy, options, First(items), seen + {slot.id});
        case RecordObject(properties) => PropertiesClean(heap, policy, options, First(properties), seen + {slot.id});
      }
    }
  }

  lemma {:induction false} ItemsClean(heap: Heap, policy: Policy, options: Options, items: seq<Slot>, seen: set<nat>)
    requires Closed(heap) && forall k | 0 <= k < |items| :: Resolves(heap, items[k])
    ensures var r := SanitizeItems(heap, policy, options, items, seen).items;
      |r| == |items| && forall k | 0 <= k < |r| :: Clean(policy, r[k])
    decreases heap.Keys - seen, |items|
  {
    if items != [] {
      ItemsClean(heap, policy, options, items[..|items| - 1], seen);
      SlotClean(heap, policy, options, items[|items| - 1], seen);
    }
  }

  lemma {:induction false} PropertiesClean(heap: Heap, policy: Policy, options: Options, properties: seq<Property>,
      seen: set<nat>)
    requires Closed(heap) && forall k | 0 <= k < |properties| :: Resolves(heap, properties[k].slot)
    ensures var r := SanitizeProperties(heap, policy, options, properties, seen).fields;
      |r| <= |properties| && CleanFields(policy, r)
    decreases heap.Keys - seen, |properties|
  {
    if properties != [] {
      PropertiesClean(heap, policy, options, properties[..|properties| - 1], seen);
      SlotClean(heap, policy, options, properties[|properties| - 1].slot, seen);
    }
  }

  /** The value is what the slot holds, where a property called `__proto__` counts as absent. */
  ghost predicate Denotes(heap: Heap, slot: Slot, v: Value)
    decreases v, 1
  {
    match slot
    case Missing => v.Undefined?
    case Nil => v.Null?
    case Flag(flag) => v == Bool(flag)
    case Num(number) => v == Number(number)
    case Chars(units) => v == Str(units)
    case Other(_) => false
    case Ref(id) => id in heap && DenotesObject(heap, heap[id], v)
  }

  ghost predicate DenotesObject(heap: Heap, obj: Object, v: Value)
    decreases v, 0
  {
    match obj
    case ArrayObject(items) => v.Arr? && DenotesItems(heap, items, v.items)
    case RecordObject(properties) => v.Obj? && DenotesFields(heap, Own(properties), v.fields)
  }

  ghost predicate DenotesItems(heap: Heap, items: seq<Slot>, values: seq<Value>)
    decreases values
  {
    |items| == |values| && forall k | 0 <= k < |items| :: Denotes(heap, items[k], values[k])
  }

  ghost predicate DenotesFields(heap: Heap, properties: seq<Property>, fields: seq<Field>)
    decreases fields
  {
    && |properties| == |fields|
    && forall k | 0 <= k < |fields| ::
      fields[k].key == properties[k].key && Denotes(heap, properties[k].slot, fields[k].value)
  }

  function Own(properties: seq<Property>): (r: seq<Property>)
    ensures (forall p | p in properties :: p.key != PROTO) ==> r == properties
  {
    if properties == [] then [] else
      var front, last := Own(properties[..|properties| - 1]), properties[|properties| - 1];
      if last.key == PROTO then front else front + [last]
  }

  lemma {:induction false} UnchangedSlot(heap: Heap, policy: Policy, options: Options, slot: Slot, seen: set<nat>)
    requires Closed(heap) && Resolves(heap, slot)
    requires !SanitizeSlot(heap, policy, options, slot, seen).changed
    ensures Denotes(heap, slot, SanitizeSlot(heap, policy, options, slot, seen).value)
    decreases heap.Keys - seen, 0
  {
    if slot.Ref? {
      match heap[slot.id] {
        case ArrayObject(items) => UnchangedItems(heap, policy, options, items, seen + {slot.id});
        case RecordObject(properties) => UnchangedProperties(heap, policy, options, properties, seen + {slot.id});
      }
    }
  }

  lemma {:induction false} UnchangedItems(heap: Heap, policy: Policy, options: Options, items: seq<Slot>,
      seen: set<nat>)
    requires Closed(heap) && forall k | 0 <= k < |items| :: Resolves(heap, items[k])
    requires !SanitizeItems(heap, policy, options, items, seen).changed
    ensures DenotesItems(heap, items, SanitizeItems(heap, policy, options, items, seen).items)
    decreases heap.Keys - seen, |items|
  {
    if items != [] {
      UnchangedItems(heap, policy, options, items[..|items| - 1], seen);
      UnchangedSlot(heap, policy, options, items[|items| - 1], seen);
    }
  }

  lemma {:induction false} DenotesSnoc(heap: Heap, properties: seq<Property>, fields: seq<Field>, property: Property,
      value: Value)
    requires DenotesFields(heap, properties, fields) && Denotes(heap, property.slot, value)
    ensures DenotesFields(heap, properties + [property], fields + [Field(property.key, value)])
  {
  }

  lemma {:induction false} UnchangedProperties(heap: Heap, policy: Policy, options: Options, properties: seq<Property>,
      seen: set<nat>)
    requires Closed(heap) && forall k | 0 <= k < |properties| :: Resolves(heap, properties[k].slot)
    requires !SanitizeProperties(heap, policy, options, properties, seen).changed
    ensures DenotesFields(heap, Own(properties), SanitizeProperties(heap, policy, options, properties, seen).fields)
    decreases heap.Keys - seen, |properties|
  {
    if properties != [] {
      var front, last := properties[..|properties| - 1], properties[|properties| - 1];
      UnchangedProperties(heap, policy, options, front, seen);
      UnchangedSlot(heap, policy, options, last.slot, seen);
      DenotesSnoc(heap, Own(front), SanitizeProperties(heap, policy, options, front, seen).fields, last,
                  SanitizeSlot(heap, policy, options, last.slot, seen).value);
    }
  }

  /** An own property called `__proto__` is lost without a report. */
  lemma {:induction false} ProtoIsLost(policy: Policy, options: Options)
    requires !policy.sensitive(PROTO)
    ensures var heap: Heap := map[0 := RecordObject([Property(PROTO, Nil)])];
      SanitizeSlot(heap, policy, options, Ref(0), {}) == Outcome(Obj([]), false)
  {
    var heap: Heap := map[0 := RecordObject([Property(PROTO, Nil)])];
    var properties := [Property(PROTO, Nil)];
    assert properties[..0] == [];
    assert {} + {0} == {0};
    assert SanitizeProperty(heap, policy, options, properties[0], {0}) == Outcome(Null, false);
    assert SanitizeProperties(heap, policy, options, properties, {0}) == FieldsOutcome([], false);
  }

  // ---------------------------------------------------------------------
  // Reading a path.

  function FindField(fields: seq<Field>, key: Text): (n: nat)
    ensures n <= |fields| && (n < |fields| ==> fields[n].key == key)
    ensures forall k | 0 <= k < n :: fields[k].key != key
  {
    if fields == [] || fields[0].key == key then 0 else 1 + FindField(fields[1..], key)
  }

  /** A missing property reads as undefined. */
  function Lookup(fields: seq<Field>, key: Text): Value {
    var n := FindField(fields, key);
    if n < |fields| then fields[n].value else Undefined
  }

  /** Walks back to the leaf of a wrapped fragment. */
  function WalkBack(value: Value, keys: seq<Text>, redactionApplied: bool): Value
    decreases |keys|
  {
    if keys == [] then value
    else if value.Obj? then WalkBack(Lookup(value.fields, keys[0]), keys[1..], redactionApplied)
    else if redactionApplied && value.Str? then value
    else Undefined
  }

  method ReadPath(captured: Value, keys: seq<Text>, redactionApplied: bool) returns (value: Value)
    ensures value == WalkBack(captured, keys, redactionApplied)
  {
    value := captured;
    for k := 0 to |keys|
      invariant WalkBack(captured, keys, redactionApplied) == WalkBack(value, keys[k..], redactionApplied)
    {
      assert keys[k..][0] == keys[k] && keys[k..][1..] == keys[k + 1..];
      if value.Obj? {
        value := Lookup(value.fields, keys[k]);
      } else {
        return if redactionApplied && value.Str? then value else Undefined;
      }
    }
  }

  function FindProperty(properties: seq<Property>, key: Text): (n: nat)
    ensures n <= |properties| && (n < |properties| ==> properties[n].key == key)
    ensures forall k | 0 <= k < n :: properties[k].key != key
  {
    if properties == [] || properties[0].key == key then 0 else 1 + FindProperty(properties[1..], key)
  }

  /** The keys lead to the text through records of at most 100 properties, without passing an object twice. */
  ghost predicate LeadsTo(heap: Heap, slot: Slot, keys: seq<Text>, text: Text, seen: set<nat>)
    decreases |keys|
  {
    if keys == [] then slot == Chars(text)
    else
      && slot.Ref? && slot.id in heap && slot.id !in seen
      && heap[slot.id].RecordObject?
      && keys[0] != PROTO
      && var properties, n := heap[slot.id].properties, FindProperty(heap[slot.id].properties, keys[0]);
      && |properties| <= MAX_ITEMS && n < |properties|
      && LeadsTo(heap, properties[n].slot, keys[1..], text, seen + {slot.id})
  }

  predicate HasSensitive(policy: Policy, keys: seq<Text>) {
    keys != [] && (policy.sensitive(keys[0]) || HasSensitive(policy, keys[1..]))
  }

  lemma {:induction false} LookupSnoc(fields: seq<Field>, field: Field, key: Text)
    ensures Lookup(fields + [field], key) ==
      if FindField(fields, key) < |fields| then Lookup(fields, key) else if field.key == key then field.value
        else Undefined
    ensures FindField(fields + [field], key) < |fields| + 1 <==> FindField(fields, key) < |fields| || field.key == key
  {
    FieldAt(fields + [field], key,
      if FindField(fields, key) < |fields| then FindField(fields, key) else if field.key == key then |fields|
        else |fields| + 1);
  }

  lemma {:induction false} FieldAt(fields: seq<Field>, key: Text, n: nat)
    requires n <= |fields| && (n < |fields| ==> fields[n].key == key) && (forall k | 0 <= k < n :: fields[k].key != key)
    ensures FindField(fields, key) == n
  {
  }

  lemma {:induction false} PropertyAt(properties: seq<Property>, key: Text, n: nat)
    requires n <= |properties| && (n < |properties| ==> properties[n].key == key)
    requires forall k | 0 <= k < n :: properties[k].key != key
    ensures FindProperty(properties, key) == n
  {
  }

  lemma {:induction false} FindSnoc(front: seq<Property>, last: Property, key: Text)
    ensures FindProperty(front + [last], key) ==
      if FindProperty(front, key) < |front| then FindProperty(front, key) else if last.key == key then |front|
        else |front| + 1
  {
    PropertyAt(front + [last], key,
      if FindProperty(front, key) < |front| then FindProperty(front, key) else if last.key == key then |front|
        else |front| + 1);
  }

  /** Where the outcome of a property is found. */
  ghost predicate Keeps(properties: seq<Property>, fields: seq<Field>, key: Text, outcome: Outcome) {
    var n := FindProperty(properties, key);
    && (FindField(fields, key) < |fields| <==> n < |properties|)
    && (n < |properties| ==> Lookup(fields, key) == outcome.value)
  }

  lemma {:induction false} KeepsSnoc(front: seq<Property>, fields: seq<Field>, key: Text, outcome: Outcome,
      last: Property, value: Value)
    requires key != PROTO && Keeps(front, fields, key, outcome)
    requires FindProperty(front, key) == |front| && last.key == key ==> value == outcome.value
    ensures Keeps(front + [last], Assigned(fields, last.key, value), key, outcome)
  {
    FindSnoc(front, last, key);
    LookupSnoc(fields, Field(last.key, value), key);
  }

  /** Each property of a record stands in the output under its key, and is reported when it changed. */
  lemma {:induction false} PropertyKept(heap: Heap, policy: Policy, options: Options, properties: seq<Property>,
      seen: set<nat>, key: Text, outcome: Outcome)
    requires Closed(heap) && (forall k | 0 <= k < |properties| :: Resolves(heap, properties[k].slot)) && key != PROTO
    requires var n := FindProperty(properties, key);
      n < |properties| ==> outcome == SanitizeProperty(heap, policy, options, properties[n], seen)
    ensures var r := SanitizeProperties(heap, policy, options, properties, seen);
      && Keeps(properties, r.fields, key, outcome)
      && (FindProperty(properties, key) < |properties| && outcome.changed ==> r.changed)
    decreases |properties|
  {
    if properties != [] {
      var front, last := properties[..|properties| - 1], properties[|properties| - 1];
      assert properties == front + [last];
      FindSnoc(front, last, key);
      PropertyKept(heap, policy, options, front, seen, key, outcome);
      KeepsSnoc(front, SanitizeProperties(heap, policy, options, front, seen).fields, key, outcome, last,
                SanitizeProperty(heap, policy, options, last, seen).value);
    }
  }

  /** A sensitive key on the path is reported. */
  lemma {:induction false} SensitiveChanges(heap: Heap, policy: Policy, options: Options, slot: Slot, keys: seq<Text>,
      text: Text, seen: set<nat>)
    requires Closed(heap) && Resolves(heap, slot) && LeadsTo(heap, slot, keys, text, seen) && HasSensitive(policy, keys)
    ensures SanitizeSlot(heap, policy, options, slot, seen).changed
    decreases |keys|
  {
    var properties := heap[slot.id].properties;
    var n := FindProperty(properties, keys[0]);
    assert ObjectResolves(heap, heap[slot.id]);
    PropertyKept(heap, policy, options, properties, seen + {slot.id}, keys[0],
      SanitizeProperty(heap, policy, options, properties[n], seen + {slot.id}));
    if !policy.sensitive(keys[0]) {
      SensitiveChanges(heap, policy, options, properties[n].slot, keys[1..], text, seen + {slot.id});
    }
  }

  /**
   * Reading the path of a sanitized graph gives the marker when a key on the path is
   * sensitive, and the sanitized leaf otherwise.
   */
  lemma {:induction false} PathReads(heap: Heap, policy: Policy, options: Options, slot: Slot, keys: seq<Text>,
      text: Text, seen: set<nat>, redactionApplied: bool)
    requires Closed(heap) && Resolves(heap, slot) && LeadsTo(heap, slot, keys, text, seen)
    requires HasSensitive(policy, keys) ==> redactionApplied
    ensures WalkBack(SanitizeSlot(heap, policy, options, slot, seen).value, keys, redactionApplied)
      == if HasSensitive(policy, keys) then Str(REDACTED) else SanitizeText(policy, options, text).value
    decreases |keys|
  {
    if keys != [] {
      var properties := heap[slot.id].properties;
      var n := FindProperty(properties, keys[0]);
      assert ObjectResolves(heap, heap[slot.id]);
      PropertyKept(heap, policy, options, properties, seen + {slot.id}, keys[0],
      SanitizeProperty(heap, policy, options, properties[n], seen + {slot.id}));
      if !policy.sensitive(keys[0]) {
        PathReads(heap, policy, options, properties[n].slot, keys[1..], text, seen + {slot.id}, redactionApplied);
      }
    }
  }

  // ---------------------------------------------------------------------
  // What is reported as changed.

  /** A text is too long, or one of the redactions that apply finds something in it. */
  predicate AltersText(policy: Policy, options: Options, text: Text) {
    || |text| > options.maxText || policy.hard(text) != text
    || (options.redacted && policy.privacy(text) != text)
  }

  /**
   * Somewhere in the value there is a text to cut or redact, a value of another kind, an
   * object within itself, a list or an object with more than 100 entries, or a sensitive key.
   */
  predicate Alters(heap: Heap, policy: Policy, options: Options, slot: Slot, seen: set<nat>)
    requires Closed(heap) && Resolves(heap, slot)
    decreases heap.Keys - seen, 0
  {
    match slot
    case Chars(units) => AltersText(policy, options, units)
    case Other(_) => true
    case Ref(id) =>
      id in seen ||
      (match heap[id]
       case ArrayObject(items) =>
         |items| > 100 || exists k | 0 <= k < |items| :: Alters(heap, policy, options, items[k], seen + {id})
       case RecordObject(properties) =>
         || |properties| > 100
         || exists k | 0 <= k < |properties| ::
              AltersProperty(heap, policy, options, properties[k], seen + {id}))
    case _ => false
  }

  /** A value is reported as changed exactly when there is a reason to change it. */
  lemma {:induction false} ChangedExact(heap: Heap, policy: Policy, options: Options, slot: Slot, seen: set<nat>)
    requires Closed(heap) && Resolves(heap, slot)
    ensures SanitizeSlot(heap, policy, options, slot, seen).changed <==> Alters(heap, policy, options, slot, seen)
    decreases heap.Keys - seen, 0
  {
    if slot.Ref? && slot.id !in seen {
      match heap[slot.id] {
        case ArrayObject(items) =>
          if |items| <= 100 {
            ItemsChanged(heap, policy, options, items, seen + {slot.id});
          }
        case RecordObject(properties) =>
          if |properties| <= 100 {
            PropertiesChanged(heap, policy, options, properties, seen + {slot.id});
          }
      }
    }
  }

  lemma {:induction false} ItemsChanged(heap: Heap, policy: Policy, options: Options, items: seq<Slot>, seen: set<nat>)
    requires Closed(heap) && forall k | 0 <= k < |items| :: Resolves(heap, items[k])
    ensures SanitizeItems(heap, policy, options, items, seen).changed
      <==> exists k | 0 <= k < |items| :: Alters(heap, policy, options, items[k], seen)
    decreases heap.Keys - seen, |items| + 1
  {
    if items != [] {
      var front, n := items[..|items| - 1], |items| - 1;
      ItemsChanged(heap, policy, options, front, seen);
      ChangedExact(heap, policy, options, items[n], seen);
      if k :| 0 <= k < |front| && Alters(heap, policy, options, front[k], seen) {
        assert Alters(heap, policy, options, items[k], seen);
      }
      if k :| 0 <= k < |items| && Alters(heap, policy, options, items[k], seen) {
        assert k < n ==> Alters(heap, policy, options, front[k], seen);
      }
    }
  }

  lemma {:induction false} PropertiesChanged(heap: Heap, policy: Policy, options: Options, properties: seq<Property>,
      seen: set<nat>)
    requires Closed(heap) && forall k | 0 <= k < |properties| :: Resolves(heap, properties[k].slot)
    ensures SanitizeProperties(heap, policy, options, properties, seen).changed
      <==> exists k | 0 <= k < |properties| :: AltersProperty(heap, policy, options, properties[k], seen)
    decreases heap.Keys - seen, |properties| + 1
  {
    if properties != [] {
      var front, n := properties[..|properties| - 1], |properties| - 1;
      PropertiesChanged(heap, policy, options, front, seen);
      ChangedExact(heap, policy, options, properties[n].slot, seen);
      if k :| 0 <= k < |front| && AltersProperty(heap, policy, options, front[k], seen) {
        assert AltersProperty(heap, policy, options, properties[k], seen);
      }
      if k :| 0 <= k < |properties| && AltersProperty(heap, policy, options, properties[k], seen) {
        assert k < n ==> AltersProperty(heap, policy, options, front[k], seen);
      }
    }
  }

  predicate AltersProperty(heap: Heap, policy: Policy, options: Options, property: Property, seen: set<nat>)
    requires Closed(heap) && Resolves(heap, property.slot)
    decreases heap.Keys - seen, 1
  {
    policy.sensitive(property.key) || Alters(heap, policy, options, property.slot, seen)
  }
}
