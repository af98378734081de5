/**
 * The capture policy over payloads: what is captured in each mode, and what is
 * persisted of it.
 */
module CapturePolicy {
  import opened JsonValues
  import opened Sanitizer
  import P = PayloadBound

  datatype Mode = Off | Redacted | Full

  /** The payload of an observation when its mode is not off. */
  function PersistedPayload(mode: Mode, policy: Policy, maxText: nat, heap: Heap, slot: Slot): Value
    requires Closed(heap) && Resolves(heap, slot)
  {
    P.Bound(SanitizeSlot(heap, policy, Options(mode.Redacted?, maxText), slot, {}).value, P.MAX_PERSISTED_PAYLOAD_BYTES)
  }

  /** A payload that is captured at all fits 96 KiB. */
  lemma {:induction false} CapturedFits(mode: Mode, policy: Policy, maxText: nat, heap: Heap, slot: Slot)
    requires Closed(heap) && Resolves(heap, slot) && (slot.Num? ==> |slot.number| <= 25)
    ensures Size(PersistedPayload(mode, policy, maxText, heap, slot)) <= 96 * 1024
  {
    P.BoundFits(SanitizeSlot(heap, policy, Options(mode.Redacted?, maxText), slot, {}).value,
      P.MAX_PERSISTED_PAYLOAD_BYTES);
  }

  const OFF_TEXT: nat := 512

  /** What is kept of a tool payload: a field that says so, and the properties under some fixed keys. */
  datatype OffShape = OffShape(marker: Field, safe: seq<Text>)

  /** The marker takes 21 bytes, and there are 21 keys of at most 15 plain characters. */
  predicate ProperShape(shape: OffShape) {
    && Size(Obj([shape.marker])) == 23
    && |shape.safe| == 21
    && forall k | 0 <= k < |shape.safe| :: StringBytes(shape.safe[k]) <= 17
  }

  /** The properties of a tool payload that are kept even when tools are not captured. */
  function SafeFields(shape: OffShape, policy: Policy, heap: Heap, properties: seq<Property>): seq<Field>
    requires Closed(heap) && forall k | 0 <= k < |properties| :: Resolves(heap, properties[k].slot)
  {
    if properties == [] then [shape.marker] else
      var front := SafeFields(shape, policy, heap, properties[..|properties| - 1]);
      var last := properties[|properties| - 1];
      if last.key !in shape.safe then front
      else Assigned(front, last.key, SanitizeSlot(heap, policy, Options(false, OFF_TEXT), last.slot, {}).value)
  }

  function OffToolPayload(shape: OffShape, policy: Policy, heap: Heap, slot: Slot): Value
    requires Closed(heap) && Resolves(heap, slot)
  {
    if slot.Ref? && heap[slot.id].RecordObject? then Obj(SafeFields(shape, policy, heap, heap[slot.id].properties))
    else Obj([shape.marker])
  }

  // ---------------------------------------------------------------------
  // When the payload of a tool that is not captured is small.

  /** A primitive whose JSON text is short once long texts are cut and redacted. */
  predicate ShortPrimitive(slot: Slot, bytes: nat) {
    match slot
    case Num(number) => |number| <= 25
    case Other(form) => StringBytes(form) <= bytes
    case Ref(_) => false
    case _ => true
  }

  /** No text of at most 512 units grows beyond this size when it is redacted. */
  ghost predicate RedactsWithin(policy: Policy, bytes: nat) {
    forall text: Text | |text| <= 512 :: StringBytes(policy.hard(text)) <= bytes
  }

  predicate DistinctKeys(properties: seq<Property>) {
    forall i, j | 0 <= i < j < |properties| :: properties[i].key != properties[j].key
  }

  function KeptKeys(safe: seq<Text>, properties: seq<Property>): seq<Text> {
    if properties == [] then [] else
      var front, last := KeptKeys(safe, properties[..|properties| - 1]), properties[|properties| - 1];
      if last.key in safe then front + [last.key] else front
  }

  predicate Different(keys: seq<Text>) {
    forall i, j | 0 <= i < j < |keys| :: keys[i] != keys[j]
  }

  lemma {:induction false} KeptKey(safe: seq<Text>, properties: seq<Property>, i: nat) returns (k: nat)
    requires i < |KeptKeys(safe, properties)|
    ensures k < |properties| && properties[k].key == KeptKeys(safe, properties)[i]
    ensures KeptKeys(safe, properties)[i] in safe
  {
    var front := properties[..|properties| - 1];
    if i < |KeptKeys(safe, front)| {
      k := KeptKey(safe, front, i);
    } else {
      k := |properties| - 1;
    }
  }

  lemma {:induction false} KeptDistinct(safe: seq<Text>, properties: seq<Property>)
    requires DistinctKeys(properties)
    ensures Different(KeptKeys(safe, properties))
  {
    if properties != [] {
      var front := properties[..|properties| - 1];
      KeptDistinct(safe, front);
      forall i | 0 <= i < |KeptKeys(safe, front)| ensures KeptKeys(safe, front)[i] != properties[|properties| - 1].key {
        var k := KeptKey(safe, front, i);
      }
    }
  }

  /** Different elements of a list are not more than the list is long. */
  lemma {:induction false} Pigeonhole(some: seq<Text>, all: seq<Text>)
    requires Different(some) && forall k | 0 <= k < |some| :: some[k] in all
    ensures |some| <= |all|
  {
    if some != [] {
      var last := some[|some| - 1];
      assert last in all;
      var p :| 0 <= p < |all| && all[p] == last;
      forall k | 0 <= k < |some| - 1 ensures some[k] in all[..p] + all[p + 1..] {
        assert some[k] in all;
        var q :| 0 <= q < |all| && all[q] == some[k];
        assert all[q] == (all[..p] + all[p + 1..])[if q < p then q else q - 1];
      }
      Pigeonhole(some[..|some| - 1], all[..p] + all[p + 1..]);
    }
  }

  lemma {:induction false} PrimitiveSmall(policy: Policy, heap: Heap, slot: Slot, bytes: nat)
    requires Closed(heap) && ShortPrimitive(slot, bytes) && bytes >= 25 && RedactsWithin(policy, bytes)
    ensures Size(SanitizeSlot(heap, policy, Options(false, OFF_TEXT), slot, {}).value) <= bytes
  {
  }

  lemma {:induction false} AssignedSmall(fields: seq<Field>, key: Text, value: Value, bytes: nat)
    requires StringBytes(key) <= 17 && Size(value) <= bytes
    ensures FieldsSize(Assigned(fields, key, value)) <= FieldsSize(fields) + (19 + bytes)
  {
    FieldsSizeSnoc(fields, Field(key, value));
  }

  predicate ShortKept(safe: seq<Text>, properties: seq<Property>, bytes: nat) {
    forall k | 0 <= k < |properties| && properties[k].key in safe :: ShortPrimitive(properties[k].slot, bytes)
  }

  function Times(n: nat, each: nat): nat {
    if n == 0 then 0 else Times(n - 1, each) + each
  }

  lemma {:induction false} OneKept(shape: OffShape, policy: Policy, heap: Heap, fields: seq<Field>, last: Property,
      bytes: nat)
    requires Closed(heap) && ProperShape(shape) && bytes >= 25 && RedactsWithin(policy, bytes)
    requires last.key in shape.safe && ShortPrimitive(last.slot, bytes)
    ensures FieldsSize(Assigned(fields, last.key,
      SanitizeSlot(heap, policy, Options(false, OFF_TEXT), last.slot, {}).value))
      <= FieldsSize(fields) + (19 + bytes)
  {
    var i :| 0 <= i < |shape.safe| && shape.safe[i] == last.key;
    PrimitiveSmall(policy, heap, last.slot, bytes);
    AssignedSmall(fields, last.key, SanitizeSlot(heap, policy, Options(false, OFF_TEXT), last.slot, {}).value, bytes);
  }

  /** What is kept of the properties fits so many bytes each. */
  ghost predicate KeptFits(shape: OffShape, policy: Policy, heap: Heap, properties: seq<Property>, bytes: nat)
    requires Closed(heap) && forall k | 0 <= k < |properties| :: Resolves(heap, properties[k].slot)
  {
    FieldsSize(SafeFields(shape, policy, heap, properties))
    <= 21 + Times(|KeptKeys(shape.safe, properties)|, 19 + bytes)
  }

  lemma {:induction false} KeptSize(shape: OffShape, policy: Policy, heap: Heap, properties: seq<Property>, bytes: nat)
    requires Closed(heap) && ProperShape(shape) && bytes >= 25 && RedactsWithin(policy, bytes)
    requires ShortKept(shape.safe, properties, bytes)
    requires forall k | 0 <= k < |properties| :: Resolves(heap, properties[k].slot)
    ensures KeptFits(shape, policy, heap, properties, bytes)
  {
    if properties == [] {
      NoneKept(shape, policy, heap, bytes);
    } else {
      var front, last := properties[..|properties| - 1], properties[|properties| - 1];
      assert properties == front + [last];
      KeptSize(shape, policy, heap, front, bytes);
      KeptSizeNext(shape, policy, heap, front, last, bytes);
    }
  }

  lemma {:induction false} NoneKept(shape: OffShape, policy: Policy, heap: Heap, bytes: nat)
    requires Closed(heap) && ProperShape(shape)
    ensures KeptFits(shape, policy, heap, [], bytes)
  {
  }

  lemma {:induction false} KeptSizeNext(shape: OffShape, policy: Policy, heap: Heap, front: seq<Property>,
      last: Property, bytes: nat)
    requires Closed(heap) && ProperShape(shape) && bytes >= 25 && RedactsWithin(policy, bytes)
    requires last.key in shape.safe ==> ShortPrimitive(last.slot, bytes)
    requires (forall k | 0 <= k < |front| :: Resolves(heap, front[k].slot)) && Resolves(heap, last.slot)
    requires KeptFits(shape, policy, heap, front, bytes)
    ensures KeptFits(shape, policy, heap, front + [last], bytes)
  {
    assert (front + [last])[..|front|] == front;
    if last.key in shape.safe {
      OneKept(shape, policy, heap, SafeFields(shape, policy, heap, front), last, bytes);
    }
  }

  lemma {:induction false} FewKept(shape: OffShape, properties: seq<Property>)
    requires ProperShape(shape) && DistinctKeys(properties)
    ensures |KeptKeys(shape.safe, properties)| <= 21
  {
    KeptDistinct(shape.safe, properties);
    forall i | 0 <= i < |KeptKeys(shape.safe, properties)| ensures KeptKeys(shape.safe, properties)[i] in shape.safe {
      var k := KeptKey(shape.safe, properties, i);
    }
    Pigeonhole(KeptKeys(shape.safe, properties), shape.safe);
  }

  /**
   * When every kept property holds a primitive, the payload has a bound that only
   * depends on how much redaction can lengthen a text of 512 units.
   */
  lemma {:induction false} OffPrimitivesFit(shape: OffShape, policy: Policy, heap: Heap, id: nat, bytes: nat)
    requires Closed(heap) && ProperShape(shape) && bytes >= 25 && RedactsWithin(policy, bytes)
    requires id in heap && heap[id].RecordObject? && DistinctKeys(heap[id].properties)
    requires ShortKept(shape.safe, heap[id].properties, bytes)
    ensures Size(OffToolPayload(shape, policy, heap, Ref(id))) <= 23 + 21 * (19 + bytes)
    ensures bytes <= 4_600 ==> Size(OffToolPayload(shape, policy, heap, Ref(id))) <= 96 * 1024
  {
    assert ObjectResolves(heap, heap[id]);
    OffSize(shape, policy, heap, id);
    FieldsWithin(shape, policy, heap, heap[id].properties, bytes);
  }

  lemma {:induction false} OffSize(shape: OffShape, policy: Policy, heap: Heap, id: nat)
    requires Closed(heap) && id in heap && heap[id].RecordObject? && ObjectResolves(heap, heap[id])
    ensures Size(OffToolPayload(shape, policy, heap, Ref(id)))
      == 2 + FieldsSize(SafeFields(shape, policy, heap, heap[id].properties))
  {
  }

  lemma {:induction false} FieldsWithin(shape: OffShape, policy: Policy, heap: Heap, properties: seq<Property>,
      bytes: nat)
    requires Closed(heap) && ProperShape(shape) && bytes >= 25 && RedactsWithin(policy, bytes)
    requires DistinctKeys(properties) && ShortKept(shape.safe, properties, bytes)
    requires forall k | 0 <= k < |properties| :: Resolves(heap, properties[k].slot)
    ensures FieldsSize(SafeFields(shape, policy, heap, properties)) <= 21 + 21 * (19 + bytes)
  {
    KeptSize(shape, policy, heap, properties, bytes);
    TimesWithin(shape, policy, heap, properties, bytes);
  }

  lemma {:induction false} TimesWithin(shape: OffShape, policy: Policy, heap: Heap, properties: seq<Property>,
      bytes: nat)
    requires Closed(heap) && ProperShape(shape) && DistinctKeys(properties)
    requires forall k | 0 <= k < |properties| :: Resolves(heap, properties[k].slot)
    requires KeptFits(shape, policy, heap, properties, bytes)
    ensures FieldsSize(SafeFields(shape, policy, heap, properties)) <= 21 + 21 * (19 + bytes)
  {
    KeptTimes(shape, properties, 19 + bytes);
  }

  lemma {:induction false} KeptTimes(shape: OffShape, properties: seq<Property>, each: nat)
    requires ProperShape(shape) && DistinctKeys(properties)
    ensures Times(|KeptKeys(shape.safe, properties)|, each) <= 21 * each
  {
    FewKept(shape, properties);
    TimesAtMost(|KeptKeys(shape.safe, properties)|, 21, each);
  }

  lemma {:induction false} TimesAtMost(n: nat, most: nat, each: nat)
    requires n <= most
    ensures Times(n, each) <= most * each
  {
    if n > 0 {
      TimesAtMost(n - 1, most - 1, each);
    }
  }

  // ---------------------------------------------------------------------
  // When it is not.

  function PowerOfTwo(n: nat): (power: nat)
    ensures power > 0
  {
    if n == 0 then 1 else 2 * PowerOfTwo(n - 1)
  }

  lemma {:induction false} FourMore(n: nat)
    ensures PowerOfTwo(n + 4) == 16 * PowerOfTwo(n)
  {
    assert PowerOfTwo(n + 2) == 4 * PowerOfTwo(n);
  }

  lemma {:induction false} SeventeenPower()
    ensures PowerOfTwo(17) == 131_072
  {
    FourMore(1);
    FourMore(5);
    FourMore(9);
    FourMore(13);
    assert PowerOfTwo(1) == 2 * PowerOfTwo(0);
  }

  /** What an array holds twice: the one before, or null. */
  function Held(id: nat): Slot {
    if id > 1 then Ref(id - 1) else Nil
  }

  /** `n` arrays, each of which holds the one before twice. */
  function NestedArrays(n: nat): (heap: Heap)
    ensures forall id: nat :: id in heap <==> 0 < id <= n
    ensures forall id: nat | 0 < id <= n :: heap[id] == ArrayObject([Held(id), Held(id)])
  {
    if n == 0 then map[] else NestedArrays(n - 1)[n := ArrayObject([Held(n), Held(n)])]
  }

  /** A tool payload with one property that holds the last of `n` nested arrays. */
  function NestedHeap(key: Text, n: nat): (heap: Heap)
    requires n > 0
    ensures Closed(heap) && heap == NestedArrays(n)[0 := RecordObject([Property(key, Ref(n))])]
  {
    NestedArrays(n)[0 := RecordObject([Property(key, Ref(n))])]
  }

  lemma {:induction false} TwoItems(heap: Heap, policy: Policy, options: Options, id: nat, slot: Slot, seen: set<nat>)
    requires Closed(heap) && Resolves(heap, slot) && id in heap && id !in seen && heap[id] == ArrayObject([slot, slot])
    ensures Size(SanitizeSlot(heap, policy, options, Ref(id), seen).value)
      == 3 + 2 * Size(SanitizeSlot(heap, policy, options, slot, seen + {id}).value)
  {
    var value := SanitizeSlot(heap, policy, options, slot, seen + {id}).value;
    assert [slot, slot][..1] == [slot] && [slot][..0] == [];
    assert SanitizeItems(heap, policy, options, [slot], seen + {id}).items == [value];
    assert SanitizeItems(heap, policy, options, [slot, slot], seen + {id}).items == [value] + [value];
    ItemsSizeSnoc([], value);
    ItemsSizeSnoc([value], value);
    assert [] + [value] == [value];
  }

  predicate AllAbove(seen: set<nat>, id: nat) {
    forall k | k in seen :: k > id
  }

  lemma {:induction false} AboveBelow(seen: set<nat>, id: nat)
    requires AllAbove(seen, id) && id > 1
    ensures AllAbove(seen + {id}, id - 1)
  {
  }

  lemma {:induction false} NestedTwice(policy: Policy, options: Options, key: Text, n: nat, id: nat, seen: set<nat>)
    requires 1 <= id <= n && AllAbove(seen, id)
    ensures Size(SanitizeSlot(NestedHeap(key, n), policy, options, Ref(id), seen).value)
      == 3 + 2 * Size(SanitizeSlot(NestedHeap(key, n), policy, options, Held(id), seen + {id}).value)
  {
    TwoItems(NestedHeap(key, n), policy, options, id, Held(id), seen);
  }

  lemma {:induction false} NestedLarge(policy: Policy, options: Options, key: Text, n: nat, id: nat, seen: set<nat>)
    requires 1 <= id <= n && AllAbove(seen, id)
    ensures Size(SanitizeSlot(NestedHeap(key, n), policy, options, Ref(id), seen).value) >= 4 * PowerOfTwo(id)
    decreases id
  {
    NestedTwice(policy, options, key, n, id, seen);
    if id > 1 {
      AboveBelow(seen, id);
      NestedLarge(policy, options, key, n, id - 1, seen + {id});
    } else {
      assert PowerOfTwo(1) == 2 * PowerOfTwo(0);
    }
  }

  lemma {:induction false} OneSafeField(shape: OffShape, policy: Policy, heap: Heap, property: Property)
    requires Closed(heap) && Resolves(heap, property.slot) && property.key in shape.safe && property.key != PROTO
    ensures FieldsSize(SafeFields(shape, policy, heap, [property]))
      >= Size(SanitizeSlot(heap, policy, Options(false, OFF_TEXT), property.slot, {}).value) - 4
  {
    assert [property][..0] == [];
    var first, value := shape.marker, SanitizeSlot(heap, policy, Options(false, OFF_TEXT), property.slot, {}).value;
    assert SafeFields(shape, policy, heap, [property]) == [first] + [Field(property.key, value)];
    FieldsSizeSnoc([first], Field(property.key, value));
  }

  /**
   * An object in a kept property makes the payload as large as one likes: each level of
   * arrays that hold the one before twice doubles it, since an object that was left is
   * shown again. The off branch has no bound.
   */
  lemma {:induction false} OffPayloadUnbounded(shape: OffShape, policy: Policy, key: Text, levels: nat)
    requires key in shape.safe && key != PROTO && levels > 0
    ensures Size(OffToolPayload(shape, policy, NestedHeap(key, levels), Ref(0))) > PowerOfTwo(levels)
  {
    var heap := NestedHeap(key, levels);
    NestedLarge(policy, Options(false, OFF_TEXT), key, levels, levels, {});
    OneSafeField(shape, policy, heap, Property(key, Ref(levels)));
    assert PowerOfTwo(levels) == 2 * PowerOfTwo(levels - 1);
  }

  /** Seventeen levels exceed 96 KiB. */
  lemma {:induction false} SeventeenLevels(shape: OffShape, policy: Policy, key: Text)
    requires key in shape.safe && key != PROTO
    ensures Size(OffToolPayload(shape, policy, NestedHeap(key, 17), Ref(0))) > 96 * 1024
  {
    OffPayloadUnbounded(shape, policy, key, 17);
    SeventeenPower();
  }
}
