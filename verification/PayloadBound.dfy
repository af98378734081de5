/**
 * The byte bound on persisted payloads: a payload that is too large is truncated
 * until its JSON text fits.
 */
module PayloadBound {
  import opened Prelude
  import opened JsonValues

  const MAX_PERSISTED_PAYLOAD_BYTES: nat := 96 * 1024

  /** An ellipsis and "[truncated]". */
  const MARKER: Text := [0x2026, 0x5B, 0x74, 0x72, 0x75, 0x6E, 0x63, 0x61, 0x74, 0x65, 0x64, 0x5D]

  // ---------------------------------------------------------------------
  // Strings.

  function Marked(s: Text, end: nat): Text
    requires end <= |s|
  {
    s[..end] + MARKER
  }

  /** The longest marked prefix that fits and is at most `end` units long. */
  function Fitting(s: Text, end: nat, max: nat): (n: nat)
    requires end <= |s|
    ensures n <= end
    ensures n > 0 ==> StringBytes(Marked(s, n)) <= max
    ensures forall k | n < k <= end :: StringBytes(Marked(s, k)) > max
  {
    if end == 0 || StringBytes(Marked(s, end)) <= max then end else Fitting(s, end - 1, max)
  }

  /** Where the search for a fitting prefix starts. */
  function FirstEnd(s: Text, max: nat): (n: nat)
    requires StringBytes(s) > max
    ensures n <= |s|
  {
    EndInRange(|s|, max, StringBytes(s));
    |s| * max / StringBytes(s)
  }

  lemma {:induction false} EndInRange(length: nat, max: nat, size: nat)
    requires size > max
    ensures 0 <= length * max / size <= length
  {
    assert length * max <= length * size;
    assert length * size / size == length;
  }

  function Truncated(s: Text, max: nat): Text {
    if StringBytes(s) <= max then s
    else if max <= StringBytes(MARKER) then []
    else Marked(s, Fitting(s, FirstEnd(s, max), max))
  }

  /**
   * A text that fits stays, and below the size of the marker nothing is kept. Else a
   * marked prefix is kept whose share of the text is at most the share of the bytes that
   * the budget allows, and no longer prefix of that kind fits.
   */
  ghost predicate IsTruncation(s: Text, max: nat, result: Text) {
    if StringBytes(s) <= max then result == s
    else if max <= StringBytes(MARKER) then result == []
    else exists n: nat | n <= |s| && result == Marked(s, n) ::
      && n * StringBytes(s) <= |s| * max && (n > 0 ==> StringBytes(result) <= max)
      && forall k | n < k <= |s| && k * StringBytes(s) <= |s| * max :: StringBytes(Marked(s, k)) > max
  }

  lemma {:induction false} FirstEndExact(s: Text, max: nat, k: nat)
    requires StringBytes(s) > max
    ensures k <= FirstEnd(s, max) <==> k * StringBytes(s) <= |s| * max
  {
    DivExact(|s| * max, StringBytes(s), k);
  }

  lemma {:induction false} DivExact(total: nat, size: nat, k: nat)
    requires size > 0
    ensures k <= total / size <==> k * size <= total
  {
    var n := total / size;
    assert n * size <= total < (n + 1) * size;
    if k <= n {
      TimesGrows(k, n, size);
    } else {
      TimesGrows(n + 1, k, size);
    }
  }

  lemma {:induction false} TimesGrows(a: nat, b: nat, c: nat)
    requires a <= b
    ensures a * c <= b * c
  {
  }

  lemma {:induction false} TruncatedExact(s: Text, max: nat)
    ensures IsTruncation(s, max, Truncated(s, max))
  {
    if StringBytes(s) > max > StringBytes(MARKER) {
      var n := Fitting(s, FirstEnd(s, max), max);
      FirstEndExact(s, max, n);
      forall k | n < k <= |s| && k * StringBytes(s) <= |s| * max ensures StringBytes(Marked(s, k)) > max {
        FirstEndExact(s, max, k);
      }
      assert Truncated(s, max) == Marked(s, n);
    }
  }

  method TruncateToBytes(s: Text, max: nat) returns (result: Text)
    ensures result == Truncated(s, max)
    ensures IsTruncation(s, max, result)
  {
    TruncatedExact(s, max);
    if StringBytes(s) <= max {
      return s;
    }
    if max <= StringBytes(MARKER) {
      return [];
    }
    var end := FirstEnd(s, max);
    result := s[..end] + MARKER;
    while end > 0 && StringBytes(result) > max
      invariant end <= |s| && result == Marked(s, end)
      invariant Fitting(s, end, max) == Fitting(s, FirstEnd(s, max), max)
    {
      end := end - 1;
      result := s[..end] + MARKER;
    }
  }

  lemma {:induction false} TruncatedFits(s: Text, max: nat)
    requires max >= 2
    ensures StringBytes(Truncated(s, max)) <= max
  {
    assert s[..0] + MARKER == MARKER;
  }

  lemma {:induction false} AtMostSixEach(s: Text)
    ensures UnitsBytes(s) <= 6 * |s|
  {
    if |s| >= 2 && IsHigh(s[0]) && IsLow(s[1]) {
      AtMostSixEach(s[2..]);
    } else if s != [] {
      AtMostSixEach(s[1..]);
    }
  }

  lemma {:induction false} PlainBytes(s: Text)
    requires forall k | 0 <= k < |s| :: 0x5B <= s[k] <= 0x75 && s[k] != 0x5C
    ensures UnitsBytes(s) == |s|
  {
    if s != [] {
      PlainBytes(s[1..]);
    }
  }

  lemma {:induction false} MarkerBytes()
    ensures StringBytes(MARKER) == 16
  {
    PlainBytes(MARKER[1..]);
  }

  lemma {:induction false} AppendedBytes(s: Text, t: Text)
    requires t != [] && !IsLow(t[0])
    ensures UnitsBytes(s + t) <= 6 * |s| + UnitsBytes(t)
  {
    if s == [] {
      assert s + t == t;
    } else if |s| >= 2 && IsHigh(s[0]) && IsLow(s[1]) {
      AppendedBytes(s[2..], t);
      assert (s + t)[2..] == s[2..] + t;
    } else {
      AppendedBytes(s[1..], t);
      assert (s + t)[1..] == s[1..] + t;
    }
  }

  /** A text that is cut still fills about an eighth of its budget. */
  lemma {:induction false} CutTextKeeps(s: Text, max: nat) returns (n: nat)
    requires StringBytes(s) > max > StringBytes(MARKER)
    ensures n <= |s| && Truncated(s, max) == Marked(s, n) && 8 * n + 22 >= max
  {
    n := Fitting(s, FirstEnd(s, max), max);
    if n == FirstEnd(s, max) {
      FirstEndExact(s, max, n + 1);
      AtMostSixEach(s);
      EighthOf(|s|, StringBytes(s), max, n + 1);
    } else {
      assert StringBytes(Marked(s, n + 1)) > max;
      AppendedBytes(s[..n + 1], MARKER);
      MarkerBytes();
    }
  }

  lemma {:induction false} EighthOf(length: nat, bytes: nat, max: nat, k: nat)
    requires bytes <= 8 * length
    ensures 8 * k <= max ==> k * bytes <= length * max
  {
    TimesGrows(bytes, 8 * length, k);
    if 8 * k <= max {
      TimesGrows(8 * k, max, length);
    }
  }

  // ---------------------------------------------------------------------
  // Values.

  function Share(max: nat, used: nat): nat {
    if max >= used + 256 then max - used else 256
  }

  /** What is left of the budget, but at least 256 bytes. */
  lemma {:induction false} ShareExact(max: nat, used: nat, share: nat)
    ensures Share(max, used) == share
      <==> share >= 256 && share + used >= max && (share == 256 || share + used == max)
  {
  }

  /** Adding the remaining items to the result, until one does not fit. */
  function BoundItems(items: seq<Value>, result: seq<Value>, max: nat): seq<Value>
    decreases items
  {
    if items == [] then result else
      var next := Bound(items[0], Share(max, Size(Arr(result)) + 2));
      if Size(Arr(result + [next])) > max then result else BoundItems(items[1..], result + [next], max)
  }

  function Assigned(fields: seq<Field>, field: Field): seq<Field> {
    if field.key == PROTO then fields else fields + [field]
  }

  function BoundFields(fields: seq<Field>, result: seq<Field>, max: nat): seq<Field>
    decreases fields
  {
    if fields == [] then result else
      var key := fields[0].key;
      var next := Bound(fields[0].value, Share(max, Size(Obj(result)) + |key| + 8));
      if Size(Obj(result + [Field(key, next)])) > max then result
      else BoundFields(fields[1..], Assigned(result, Field(key, next)), max)
  }

  function Bound(v: Value, max: nat): Value
    decreases v
  {
    if Size(v) <= max then v else
      match v
      case Str(units) => Str(Truncated(units, max))
      case Arr(items) => Arr(BoundItems(items, [], max))
      case Obj(fields) => Obj(BoundFields(fields, [], max))
      case _ => v
  }

  method BoundPersistedPayload(v: Value, max: nat) returns (bounded: Value)
    ensures bounded == Bound(v, max) && (Size(v) <= max ==> bounded == v)
    decreases v
  {
    if Size(v) <= max {
      return v;
    }
    match v {
      case Str(units) =>
        var truncated := TruncateToBytes(units, max);
        bounded := Str(truncated);
      case Arr(items) =>
        var result: seq<Value> := [];
        var i := 0;
        while i < |items|
          invariant i <= |items| && BoundItems(items, [], max) == BoundItems(items[i..], result, max)
        {
          var next := BoundPersistedPayload(items[i], Share(max, Size(Arr(result)) + 2));
          assert items[i..][1..] == items[i + 1..];
          if Size(Arr(result + [next])) > max {
            return Arr(result);
          }
          result := result + [next];
          i := i + 1;
        }
        bounded := Arr(result);
      case Obj(fields) =>
        var result: seq<Field> := [];
        var i := 0;
        while i < |fields|
          invariant i <= |fields| && BoundFields(fields, [], max) == BoundFields(fields[i..], result, max)
        {
          var key := fields[i].key;
          var next := BoundPersistedPayload(fields[i].value, Share(max, Size(Obj(result)) + |key| + 8));
          assert fields[i..][1..] == fields[i + 1..];
          if Size(Obj(result + [Field(key, next)])) > max {
            return Obj(result);
          }
          result := Assigned(result, Field(key, next));
          i := i + 1;
        }
        bounded := Obj(result);
      case _ => return v;
    }
  }

  // ---------------------------------------------------------------------
  // The bound.

  /** JSON numbers are short: a JavaScript number has no more than 25 characters. */
  predicate ShortNumber(v: Value) {
    v.Number? ==> |v.text| <= 25
  }

  lemma {:induction false} ItemsFit(items: seq<Value>, result: seq<Value>, max: nat)
    requires Size(Arr(result)) <= max
    ensures Size(Arr(BoundItems(items, result, max))) <= max
    decreases items
  {
    if items != [] {
      var next := Bound(items[0], Share(max, Size(Arr(result)) + 2));
      if Size(Arr(result + [next])) <= max {
        ItemsFit(items[1..], result + [next], max);
      }
    }
  }

  lemma {:induction false} FieldsFit(fields: seq<Field>, result: seq<Field>, max: nat)
    requires Size(Obj(result)) <= max
    ensures Size(Obj(BoundFields(fields, result, max))) <= max
    decreases fields
  {
    if fields != [] {
      var field := Field(fields[0].key, Bound(fields[0].value, Share(max, Size(Obj(result)) + |fields[0].key| + 8)));
      if Size(Obj(result + [field])) <= max {
        FieldsFit(fields[1..], Assigned(result, field), max);
      }
    }
  }

  /** Every payload fits its budget. */
  lemma {:induction false} BoundFits(v: Value, max: nat)
    requires max >= 256 && ShortNumber(v)
    ensures Size(Bound(v, max)) <= max
  {
    match v {
      case Str(units) => TruncatedFits(units, max);
      case Arr(items) => ItemsFit(items, [], max);
      case Obj(fields) => FieldsFit(fields, [], max);
      case _ =>
    }
  }

  // ---------------------------------------------------------------------
  // What is kept.

  ghost predicate TextTruncates(r: Text, s: Text) {
    r == [] || exists n: nat | n <= |s| :: r == Marked(s, n)
  }

  /** A truncation keeps a prefix at every level, and nothing else. */
  ghost predicate Truncates(r: Value, v: Value)
    decreases v
  {
    || r == v
    || (r.Str? && v.Str? && TextTruncates(r.units, v.units))
    || (r.Arr? && v.Arr? && ItemsTruncate(r.items, v.items))
    || (r.Obj? && v.Obj? && FieldsTruncate(r.fields, v.fields))
  }

  ghost predicate ItemsTruncate(r: seq<Value>, items: seq<Value>)
    decreases items
  {
    r == [] || (items != [] && Truncates(r[0], items[0]) && ItemsTruncate(r[1..], items[1..]))
  }

  /** Keys stay as they are and in order; only the key `__proto__` is lost on the way. */
  ghost predicate FieldsTruncate(r: seq<Field>, fields: seq<Field>)
    decreases fields
  {
    r == [] ||
    (&& fields != []
     && if fields[0].key == PROTO then FieldsTruncate(r, fields[1..])
        else r[0].key == fields[0].key && Truncates(r[0].value, fields[0].value) && FieldsTruncate(r[1..], fields[1..]))
  }

  lemma {:induction false} TruncatedTruncates(s: Text, max: nat)
    ensures Truncated(s, max) == s || TextTruncates(Truncated(s, max), s)
  {
  }

  lemma {:induction false} ItemsKept(items: seq<Value>, result: seq<Value>, max: nat) returns (kept: seq<Value>)
    ensures BoundItems(items, result, max) == result + kept && ItemsTruncate(kept, items)
    decreases items
  {
    kept := [];
    if items != [] {
      var next := Bound(items[0], Share(max, Size(Arr(result)) + 2));
      if Size(Arr(result + [next])) <= max {
        BoundTruncates(items[0], Share(max, Size(Arr(result)) + 2));
        var later := ItemsKept(items[1..], result + [next], max);
        kept := [next] + later;
      }
    }
  }

  lemma {:induction false} FieldsKept(fields: seq<Field>, result: seq<Field>, max: nat) returns (kept: seq<Field>)
    ensures BoundFields(fields, result, max) == result + kept && FieldsTruncate(kept, fields)
    decreases fields
  {
    kept := [];
    if fields != [] {
      var key, share := fields[0].key, Share(max, Size(Obj(result)) + |fields[0].key| + 8);
      var field := Field(key, Bound(fields[0].value, share));
      if Size(Obj(result + [field])) <= max {
        BoundTruncates(fields[0].value, share);
        var later := FieldsKept(fields[1..], Assigned(result, field), max);
        if key == PROTO {
          kept := later;
        } else {
          kept := [field] + later;
        }
      }
    }
  }

  /** What is persisted is a truncation of the payload. */
  lemma {:induction false} BoundTruncates(v: Value, max: nat)
    ensures Truncates(Bound(v, max), v)
    decreases v
  {
    match v {
      case Str(units) => TruncatedTruncates(units, max);
      case Arr(items) =>
        var kept := ItemsKept(items, [], max);
        assert [] + kept == kept;
      case Obj(fields) =>
        var kept := FieldsKept(fields, [], max);
        assert [] + kept == kept;
      case _ =>
    }
  }

  // ---------------------------------------------------------------------
  // Nothing is dropped without need.

  predicate ShortItems(items: seq<Value>) {
    forall v | v in items :: ShortNumber(v)
  }

  lemma {:induction false} ShareFits(v: Value, max: nat, used: nat)
    requires ShortNumber(v)
    ensures Size(Bound(v, Share(max, used))) <= Share(max, used)
  {
    BoundFits(v, Share(max, used));
  }

  /** How many items an array keeps, and why not more. */
  lemma {:induction false} ItemsTight(items: seq<Value>, result: seq<Value>, max: nat) returns (n: nat)
    requires ShortItems(items)
    ensures n <= |items| && |BoundItems(items, result, max)| == |result| + n
    ensures n < |items| ==> Size(Arr(BoundItems(items, result, max))) + 258 > max
    decreases items
  {
    n := 0;
    if items != [] {
      var share := Share(max, Size(Arr(result)) + 2);
      var next := Bound(items[0], share);
      ShareFits(items[0], max, Size(Arr(result)) + 2);
      ItemsSizeSnoc(result, next);
      if Size(Arr(result + [next])) <= max {
        var later := ItemsTight(items[1..], result + [next], max);
        n := later + 1;
      }
    }
  }

  /** An array drops an item only when what it keeps is within 258 bytes of the budget. */
  lemma {:induction false} ArrayTight(items: seq<Value>, max: nat)
    requires ShortItems(items) && Size(Arr(items)) > max
    ensures var kept := Bound(Arr(items), max).items;
      |kept| < |items| ==> Size(Arr(kept)) > max - 258
  {
    var n := ItemsTight(items, [], max);
  }

  function OwnKeys(fields: seq<Field>): seq<Text> {
    if fields == [] then []
    else if fields[0].key == PROTO then OwnKeys(fields[1..])
    else [fields[0].key] + OwnKeys(fields[1..])
  }

  lemma {:induction false} OwnKeysAppend(a: seq<Field>, b: seq<Field>)
    ensures OwnKeys(a + b) == OwnKeys(a) + OwnKeys(b)
  {
    if a == [] {
      assert a + b == b;
    } else {
      assert (a + b)[1..] == a[1..] + b;
      OwnKeysAppend(a[1..], b);
    }
  }

  /** The first key that is dropped, if any, does not fit what is left of the budget. */
  predicate DropsOnlyInNeed(size: nat, key: Text, max: nat) {
    size + 264 + |key| > max || StringBytes(key) > |key| + 6
  }

  lemma {:induction false} FieldDropsInNeed(result: seq<Field>, field: Field, v: Value, max: nat)
    requires ShortNumber(v)
    requires field.value == Bound(v, Share(max, Size(Obj(result)) + |field.key| + 8))
    requires Size(Obj(result + [field])) > max
    ensures DropsOnlyInNeed(Size(Obj(result)), field.key, max)
  {
    ShareFits(v, max, Size(Obj(result)) + |field.key| + 8);
  }

  lemma {:induction false} AssignedKeys(result: seq<Field>, field: Field, fields: seq<Field>, n: nat)
    requires n < |fields| && field.key == fields[0].key
    ensures OwnKeys(Assigned(result, field)) + OwnKeys(fields[1..][..n]) == OwnKeys(result) + OwnKeys(fields[..n + 1])
  {
    assert fields[..n + 1][1..] == fields[1..][..n];
    if field.key != PROTO {
      OwnKeysAppend(result, [field]);
    }
  }

  /** A property as it is tried, with its share of the budget. */
  function NextField(field: Field, result: seq<Field>, max: nat): Field {
    Field(field.key, Bound(field.value, Share(max, Size(Obj(result)) + |field.key| + 8)))
  }

  lemma {:induction false} NextFields(fields: seq<Field>, result: seq<Field>, max: nat)
    requires fields != []
    ensures var field := NextField(fields[0], result, max);
      BoundFields(fields, result, max)
        == if Size(Obj(result + [field])) > max then result else BoundFields(fields[1..], Assigned(result, field), max)
  {
  }

  /** How many properties an object processes, and why not more. */
  lemma {:induction false} FieldsTight(fields: seq<Field>, result: seq<Field>, max: nat) returns (n: nat)
    requires forall f | f in fields :: ShortNumber(f.value)
    ensures StopsAt(fields, result, max, BoundFields(fields, result, max), n)
    decreases fields
  {
    n := 0;
    if fields != [] {
      var field := NextField(fields[0], result, max);
      NextFields(fields, result, max);
      if Size(Obj(result + [field])) <= max {
        var later := FieldsTight(fields[1..], Assigned(result, field), max);
        n := later + 1;
        StopsLater(fields, result, field, max, BoundFields(fields, result, max), later);
      } else {
        FieldDropsInNeed(result, field, fields[0].value, max);
        StopsHere(fields, result, max);
      }
    } else {
      StopsHere(fields, result, max);
    }
  }

  /** The first `n` properties were processed, and the next one, if any, did not fit. */
  ghost predicate StopsAt(fields: seq<Field>, result: seq<Field>, max: nat, bound: seq<Field>, n: nat) {
    && n <= |fields| && OwnKeys(bound) == OwnKeys(result) + OwnKeys(fields[..n])
    && (n < |fields| ==> DropsOnlyInNeed(Size(Obj(bound)), fields[n].key, max))
  }

  lemma {:induction false} StopsHere(fields: seq<Field>, result: seq<Field>, max: nat)
    requires fields != [] ==> DropsOnlyInNeed(Size(Obj(result)), fields[0].key, max)
    ensures StopsAt(fields, result, max, result, 0)
  {
    assert OwnKeys(result) + OwnKeys(fields[..0]) == OwnKeys(result);
  }

  lemma {:induction false} StopsLater(fields: seq<Field>, result: seq<Field>, field: Field, max: nat,
      bound: seq<Field>, n: nat)
    requires fields != [] && field.key == fields[0].key
    requires StopsAt(fields[1..], Assigned(result, field), max, bound, n)
    ensures StopsAt(fields, result, max, bound, n + 1)
  {
    AssignedKeys(result, field, fields, n);
  }

  /**
   * An object keeps its keys in order up to the first one that it drops, and it drops
   * that only when what it keeps is within 264 bytes and the key of the budget. For keys
   * whose JSON text is much longer than the key the estimate does not hold.
   */
  lemma {:induction false} ObjectTight(fields: seq<Field>, max: nat) returns (n: nat)
    requires (forall f | f in fields :: ShortNumber(f.value)) && Size(Obj(fields)) > max
    ensures var kept := Bound(Obj(fields), max).fields;
      && n <= |fields| && OwnKeys(kept) == OwnKeys(fields[..n])
      && (n < |fields| ==> DropsOnlyInNeed(Size(Obj(kept)), fields[n].key, max))
  {
    n := FieldsTight(fields, [], max);
    assert OwnKeys([]) + OwnKeys(fields[..n]) == OwnKeys(fields[..n]);
  }

  /** Keys of printable ASCII without quotes and backslashes are as long in JSON as they are. */
  lemma {:induction false} PlainKey(key: Text)
    requires forall i | 0 <= i < |key| :: 0x20 <= key[i] < 0x80 && key[i] != 0x22 && key[i] != 0x5C
    ensures StringBytes(key) == |key| + 2
  {
    if key != [] {
      PlainKey(key[1..]);
    }
  }
}
