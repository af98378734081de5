/** Text fragments, each redacted as if its whole object had been sanitized. */
module ToolFragments {
  import opened JsonValues
  import opened Sanitizer
  import opened CapturePolicy

  const MAX_TEXT: nat := 12_000

  /** The text shown for fragments that cannot be redacted on their own. */
  const LONG_FRAGMENT: Text :=
    [0x5B, 0x8D85, 0x957F, 0x6587, 0x672C, 0x7247, 0x6BB5, 0x5DF2, 0x8131, 0x654F, 0x5D]
  const PROTOTYPE: Text := [0x70, 0x72, 0x6F, 0x74, 0x6F, 0x74, 0x79, 0x70, 0x65]
  const CONSTRUCTOR: Text := [0x63, 0x6F, 0x6E, 0x73, 0x74, 0x72, 0x75, 0x63, 0x74, 0x6F, 0x72]

  /** A leaf text, and for tool fragments the keys that lead to it. */
  datatype Fragment = Fragment(
    text: Text,
    isTool: bool,
    fieldKeys: seq<Text>,
    fieldKeysTooDeep: bool,
    splitScalar: bool,
    safeSplitScalar: bool)

  datatype Shown = Shown(text: Text, redactionApplied: bool, suppressed: bool)

  /** One object around another, down to the text. */
  function WrapHeap(keys: seq<Text>, text: Text): (heap: Heap)
    ensures Closed(heap)
  {
    map i | 0 <= i < |keys| :: RecordObject([Property(keys[i], WrapSlot(keys, text, i + 1))])
  }

  function WrapSlot(keys: seq<Text>, text: Text, i: nat): Slot {
    if i < |keys| then Ref(i) else Chars(text)
  }

  function Below(i: nat): (r: set<nat>)
    ensures forall k | k in r :: k < i
  {
    if i == 0 then {} else Below(i - 1) + {i - 1}
  }

  lemma {:induction false} WrapLeads(keys: seq<Text>, text: Text, i: nat)
    requires i <= |keys| && PROTO !in keys
    ensures LeadsTo(WrapHeap(keys, text), WrapSlot(keys, text, i), keys[i..], text, Below(i))
    decreases |keys| - i
  {
    if i < |keys| {
      WrapLeads(keys, text, i + 1);
      assert keys[i..][1..] == keys[i + 1..] && Below(i) + {i} == Below(i + 1);
      PropertyAt(WrapHeap(keys, text)[i].properties, keys[i], 0);
    }
  }

  lemma {:induction false} OnePropertyChanged(heap: Heap, policy: Policy, options: Options, property: Property,
      seen: set<nat>)
    requires Closed(heap) && Resolves(heap, property.slot)
    ensures SanitizeProperties(heap, policy, options, [property], seen).changed
      == SanitizeProperty(heap, policy, options, property, seen).changed
  {
    assert [property][..0] == [];
  }

  lemma {:induction false} WrapStep(policy: Policy, options: Options, keys: seq<Text>, text: Text, i: nat)
    requires i < |keys|
    ensures SanitizeSlot(WrapHeap(keys, text), policy, options, WrapSlot(keys, text, i), Below(i)).changed
      == SanitizeProperty(WrapHeap(keys, text), policy, options, Property(keys[i], WrapSlot(keys, text, i + 1)),
        Below(i + 1)).changed
  {
    assert Below(i) + {i} == Below(i + 1);
    OnePropertyChanged(WrapHeap(keys, text), policy, options, Property(keys[i], WrapSlot(keys, text, i + 1)),
      Below(i + 1));
  }

  lemma {:induction false} WrapChanged(policy: Policy, options: Options, keys: seq<Text>, text: Text, i: nat)
    requires i <= |keys|
    ensures SanitizeSlot(WrapHeap(keys, text), policy, options, WrapSlot(keys, text, i), Below(i)).changed
      <==> HasSensitive(policy, keys[i..]) || SanitizeText(policy, options, text).changed
    decreases |keys| - i
  {
    if i < |keys| {
      WrapChanged(policy, options, keys, text, i + 1);
      assert keys[i..][1..] == keys[i + 1..];
      WrapStep(policy, options, keys, text, i);
    }
  }

  /** A fragment is hidden for its path, which is too deep or leads through a prototype, or as a part of a scalar. */
  predicate FailsClosed(fragment: Fragment): (hidden: bool)
    ensures fragment.fieldKeysTooDeep || (fragment.splitScalar && !fragment.safeSplitScalar) ==> hidden
    ensures (exists key | key in fragment.fieldKeys :: key in {PROTO, PROTOTYPE, CONSTRUCTOR}) ==> hidden
    ensures hidden ==>
      || fragment.fieldKeysTooDeep || (fragment.splitScalar && !fragment.safeSplitScalar)
      || exists key | key in fragment.fieldKeys :: key in {PROTO, PROTOTYPE, CONSTRUCTOR}
  {
    || fragment.fieldKeysTooDeep
    || PROTO in fragment.fieldKeys || PROTOTYPE in fragment.fieldKeys || CONSTRUCTOR in fragment.fieldKeys
    || (fragment.splitScalar && !fragment.safeSplitScalar)
  }

  function KeysOf(fragment: Fragment): seq<Text> {
    if fragment.isTool then fragment.fieldKeys else []
  }

  /**
   * Shows one fragment. A captured fragment is the marker when a key on its path is
   * sensitive, and its sanitized text otherwise.
   */
  method ReadFragment(policy: Policy, mode: Mode, fragment: Fragment) returns (shown: Shown)
    ensures FailsClosed(fragment) ==> shown == Shown(LONG_FRAGMENT, true, true)
    ensures !FailsClosed(fragment) && mode.Off? ==> shown == Shown([], true, true)
    ensures !FailsClosed(fragment) && !mode.Off? ==>
      var sensitive, text := fragment.isTool && HasSensitive(policy, fragment.fieldKeys),
        SanitizeText(policy, Options(mode.Redacted?, MAX_TEXT), fragment.text);
      shown == Shown(if sensitive then REDACTED else text.value.units, sensitive || text.changed, false)
  {
    if FailsClosed(fragment) {
      return Shown(LONG_FRAGMENT, true, true);
    }
    var keys := KeysOf(fragment);
    var heap, slot := WrapHeap(keys, fragment.text), WrapSlot(keys, fragment.text, 0);
    var captured, changed := Null, true;
    if !mode.Off? {
      var options := Options(mode.Redacted?, MAX_TEXT);
      var walk := new Walk(heap, policy, options);
      captured, changed := walk.SanitizeValue(slot);
      CapturedFragment(policy, options, keys, fragment.text);
    }
    var value := ReadPath(captured, keys, changed);
    shown := Shown(if value.Str? then value.units else [], changed, mode.Off? || value.Undefined?);
  }

  lemma {:induction false} CapturedFragment(policy: Policy, options: Options, keys: seq<Text>, text: Text)
    requires PROTO !in keys
    ensures var r := SanitizeSlot(WrapHeap(keys, text), policy, options, WrapSlot(keys, text, 0), {});
      && r.changed == (HasSensitive(policy, keys) || SanitizeText(policy, options, text).changed)
      && WalkBack(r.value, keys, r.changed)
        == if HasSensitive(policy, keys) then Str(REDACTED) else SanitizeText(policy, options, text).value
  {
    assert Below(0) == {} && keys[0..] == keys;
    WrapLeads(keys, text, 0);
    WrapChanged(policy, options, keys, text, 0);
    PathReads(WrapHeap(keys, text), policy, options, WrapSlot(keys, text, 0), keys, text, {},
              HasSensitive(policy, keys) || SanitizeText(policy, options, text).changed);
  }

  /**
   * A fragment reads the same whether it is wrapped and sanitized alone or the whole
   * arguments object is sanitized and the path is read from the result.
   */
  lemma {:induction false} AgreesWithWholeObject(policy: Policy, options: Options, heap: Heap, root: Slot,
      keys: seq<Text>, text: Text)
    requires Closed(heap) && Resolves(heap, root) && LeadsTo(heap, root, keys, text, {}) && PROTO !in keys
    ensures var alone := SanitizeSlot(WrapHeap(keys, text), policy, options, WrapSlot(keys, text, 0), {});
      var whole := SanitizeSlot(heap, policy, options, root, {});
      WalkBack(alone.value, keys, alone.changed) == WalkBack(whole.value, keys, whole.changed)
  {
    CapturedFragment(policy, options, keys, text);
    var whole := SanitizeSlot(heap, policy, options, root, {});
    if HasSensitive(policy, keys) {
      SensitiveChanges(heap, policy, options, root, keys, text, {});
    }
    PathReads(heap, policy, options, root, keys, text, {}, whole.changed);
  }
}
