/**
 * Canonical JSON: recursive key sorting, as done for filter signatures and for
 * webhook payloads. Two values get the same canonical text exactly when they
 * are equal up to the order of object keys (objects are unordered collections
 * by section 4 of RFC 8259), "__proto__" keys aside.
 */
module CanonicalJson {
  import opened Basics
  import opened Json
  import opened Text
  import JsonReader
  import JsonText

  const PROTO := "__proto__"

  // ------------------------------------------------------------- order of keys

  // Character order of Array.prototype.sort.
  predicate TextLess(a: string, b: string) {
    if a == "" then b != ""
    else b != "" && (a[0] < b[0] || (a[0] == b[0] && TextLess(a[1..], b[1..])))
  }

  lemma {:induction false} TextLessTransitive(a: string, b: string, c: string)
    requires TextLess(a, b) && TextLess(b, c)
    ensures TextLess(a, c)
  {
    if a != "" && a[0] == b[0] && b[0] == c[0] {
      TextLessTransitive(a[1..], b[1..], c[1..]);
    }
  }

  lemma {:induction false} TextLessTotal(a: string, b: string)
    ensures (TextLess(a, b) || TextLess(b, a) || a == b) && !(TextLess(a, b) && TextLess(b, a)) && !TextLess(a, a)
  {
    if a != "" && b != "" && a[0] == b[0] {
      TextLessTotal(a[1..], b[1..]);
      assert a == [a[0]] + a[1..] && b == [b[0]] + b[1..];
    }
    if a != "" {
      TextLessTotal(a[1..], a[1..]);
    }
  }

  // Array-index keys come first in property order, by number.
  predicate IsIndexKey(key: string) {
    (forall i :: 0 <= i < |key| ==> IsDigit(key[i])) &&
    key == NatText(NatValue(key)) && NatValue(key) < 0xFFFF_FFFF
  }

  predicate KeyBefore(a: string, b: string) {
    if IsIndexKey(a) then !IsIndexKey(b) || NatValue(a) < NatValue(b)
    else !IsIndexKey(b) && TextLess(a, b)
  }

  lemma KeyBeforeTransitive(a: string, b: string, c: string)
    requires KeyBefore(a, b) && KeyBefore(b, c)
    ensures KeyBefore(a, c)
  {
    if !IsIndexKey(a) {
      TextLessTransitive(a, b, c);
    }
  }

  lemma KeyBeforeIrreflexive(a: string)
    ensures !KeyBefore(a, a)
  {
    TextLessTotal(a, a);
  }

  // keys.sort() with the default comparison.
  function SortedInsert(key: string, sorted: seq<string>): (r: seq<string>)
    ensures multiset(r) == multiset(sorted) + multiset{key} && |r| == |sorted| + 1
  {
    if sorted == [] || !TextLess(sorted[0], key) then
      assert multiset([key] + sorted) == multiset{key} + multiset(sorted);
      [key] + sorted
    else
      assert sorted == [sorted[0]] + sorted[1..];
      [sorted[0]] + SortedInsert(key, sorted[1..])
  }

  function SortTexts(keys: seq<string>): (r: seq<string>)
    ensures multiset(r) == multiset(keys) && |r| == |keys|
  {
    if keys == [] then []
    else
      assert keys == [keys[0]] + keys[1..];
      SortedInsert(keys[0], SortTexts(keys[1..]))
  }

  predicate Ascends(keys: seq<string>) {
    forall i, j :: 0 <= i < j < |keys| ==> TextLess(keys[i], keys[j])
  }

  lemma {:induction false} SortedInsertAscends(key: string, sorted: seq<string>)
    requires Ascends(sorted) && key !in sorted
    ensures Ascends(SortedInsert(key, sorted))
  {
    if sorted == [] {
    } else if TextLess(sorted[0], key) {
      var rest := SortedInsert(key, sorted[1..]);
      SortedInsertAscends(key, sorted[1..]);
      forall j | 0 <= j < |rest|
        ensures TextLess(sorted[0], rest[j])
      {
        assert rest[j] in multiset(rest);
        assert rest[j] == key || rest[j] in sorted[1..];
      }
    } else {
      TextLessTotal(key, sorted[0]);
      forall j | 0 <= j < |sorted|
        ensures TextLess(key, sorted[j])
      {
        if j > 0 {
          TextLessTransitive(key, sorted[0], sorted[j]);
        }
      }
    }
  }

  predicate Distinct(keys: seq<string>) {
    forall i, j :: 0 <= i < j < |keys| ==> keys[i] != keys[j]
  }

  lemma {:induction false} SortTextsAscends(keys: seq<string>)
    requires Distinct(keys)
    ensures Ascends(SortTexts(keys))
  {
    if keys != [] {
      SortTextsAscends(keys[1..]);
      assert keys[0] !in keys[1..];
      assert keys[0] !in multiset(SortTexts(keys[1..]));
      SortedInsertAscends(keys[0], SortTexts(keys[1..]));
    }
  }

  // ------------------------------------------------------------ building objects

  function Keys(fields: seq<Field>): (keys: seq<string>)
    ensures |keys| == |fields| && forall i :: 0 <= i < |fields| ==> keys[i] == fields[i].key
  {
    seq(|fields|, i requires 0 <= i < |fields| => fields[i].key)
  }

  function InsertIndex(fields: seq<Field>, f: Field): seq<Field> {
    if fields == [] || !IsIndexKey(fields[0].key) || !KeyBefore(fields[0].key, f.key) then [f] + fields
    else [fields[0]] + InsertIndex(fields[1..], f)
  }

  function Replace(fields: seq<Field>, f: Field): seq<Field> {
    if fields == [] then []
    else if fields[0].key == f.key then [f] + fields[1..]
    else [fields[0]] + Replace(fields[1..], f)
  }

  // obj[key] = value on an ordinary object: an existing property keeps its place,
  // array-index keys stay in numeric order in front, other keys go to the end,
  // and assigning to "__proto__" creates no property.
  function Assign(fields: seq<Field>, f: Field): seq<Field> {
    if f.key == PROTO then fields
    else if f.key in Keys(fields) then Replace(fields, f)
    else if IsIndexKey(f.key) then InsertIndex(fields, f)
    else fields + [f]
  }

  // ------------------------------------------------------------------- sorting

  function SortKeys(v: Json): Json
    decreases v, 1, 0
  {
    match v
    case JArr(items) => JArr(SortItems(items, |items|))
    case JObj(fields) => JObj(Filled(fields, SortTexts(Keys(fields)), |fields|))
    case _ => v
  }

  // The first k items, sorted.
  function SortItems(items: seq<Json>, k: nat): (r: seq<Json>)
    requires k <= |items|
    ensures |r| == k && forall i :: 0 <= i < k ==> r[i] == SortKeys(items[i])
    decreases items, 0, k
  {
    if k == 0 then [] else SortItems(items, k - 1) + [SortKeys(items[k - 1])]
  }

  // The object after the first k keys have been assigned.
  function Filled(fields: seq<Field>, keys: seq<string>, k: nat): seq<Field>
    requires k <= |keys|
    decreases fields, 1, k
  {
    if k == 0 then [] else Assign(Filled(fields, keys, k - 1), SortedField(fields, keys[k - 1]))
  }

  function SortedField(fields: seq<Field>, key: string): Field
    decreases fields, 0
  {
    match Get(fields, key)
    case None => Field(key, JNull)
    case Some(v) =>
      assert Field(key, v) in fields;
      Field(key, SortKeys(v))
  }

  // The recursive program, with its loops.
  method SortKeysOf(v: Json) returns (r: Json)
    ensures r == SortKeys(v)
    decreases v
  {
    match v
    case JArr(items) =>
      var sorted := [];
      var i := 0;
      while i < |items|
        invariant 0 <= i <= |items|
        invariant sorted == SortItems(items, i)
      {
        var item := SortKeysOf(items[i]);
        sorted := sorted + [item];
        i := i + 1;
      }
      r := JArr(sorted);
    case JObj(fields) =>
      var keys := SortTexts(Keys(fields));
      var sorted := [];
      var i := 0;
      while i < |keys|
        invariant 0 <= i <= |keys|
        invariant sorted == Filled(fields, keys, i)
      {
        var value := JNull;
        var found := Get(fields, keys[i]);
        if found.Some? {
          assert Field(keys[i], found.value) in fields;
          value := SortKeysOf(found.value);
        }
        sorted := Assign(sorted, Field(keys[i], value));
        i := i + 1;
      }
      r := JObj(sorted);
    case _ =>
      r := v;
  }

  // ------------------------------------------------------- what sorting means

  // JavaScript objects never hold a key twice.
  predicate WellKeyed(v: Json)
    decreases v
  {
    match v
    case JArr(items) => forall i :: 0 <= i < |items| ==> WellKeyed(items[i])
    case JObj(fields) => Distinct(Keys(fields)) && forall i :: 0 <= i < |fields| ==> WellKeyed(fields[i].value)
    case _ => true
  }

  // The value without its "__proto__" keys, at every depth.
  function Erased(v: Json): Json
    decreases v
  {
    match v
    case JArr(items) => JArr(seq(|items|, i requires 0 <= i < |items| => Erased(items[i])))
    case JObj(fields) => JObj(ErasedFields(fields))
    case _ => v
  }

  function ErasedFields(fields: seq<Field>): seq<Field>
    decreases fields
  {
    if fields == [] then []
    else
      (if fields[0].key == PROTO then [] else [Field(fields[0].key, Erased(fields[0].value))]) +
      ErasedFields(fields[1..])
  }

  predicate HasNoProto(v: Json)
    decreases v
  {
    match v
    case JArr(items) => forall i :: 0 <= i < |items| ==> HasNoProto(items[i])
    case JObj(fields) => forall i :: 0 <= i < |fields| ==> fields[i].key != PROTO && HasNoProto(fields[i].value)
    case _ => true
  }

  // Equal up to the order of object keys, at every depth.
  predicate Equiv(a: Json, b: Json)
    decreases a, 2
  {
    match a
    case JArr(xs) => b.JArr? && |xs| == |b.items| && forall i :: 0 <= i < |xs| ==> Equiv(xs[i], b.items[i])
    case JObj(xs) =>
      b.JObj? &&
      (forall f {:trigger Meets(f, b.fields)} :: f in xs ==> Meets(f, b.fields)) &&
      (forall g {:trigger MetBy(xs, g)} :: g in b.fields ==> MetBy(xs, g))
    case _ => a == b
  }

  predicate Meets(f: Field, ys: seq<Field>)
    decreases f, 1
  {
    exists g :: g in ys && SameField(f, g)
  }

  predicate MetBy(xs: seq<Field>, g: Field)
    decreases xs, 1
  {
    exists f :: f in xs && SameField(f, g)
  }

  predicate SameField(f: Field, g: Field)
    decreases f, 0
  {
    f.key == g.key && Equiv(f.value, g.value)
  }

  lemma {:induction false} EquivReflexive(a: Json)
    ensures Equiv(a, a)
    decreases a
  {
    match a
    case JArr(items) =>
      forall i | 0 <= i < |items|
        ensures Equiv(items[i], items[i])
      {
        EquivReflexive(items[i]);
      }
    case JObj(fields) =>
      forall f | f in fields
        ensures Meets(f, fields) && MetBy(fields, f)
      {
        EquivReflexive(f.value);
        assert SameField(f, f);
      }
    case _ =>
  }

  lemma {:induction false} EquivSymmetric(a: Json, b: Json)
    requires Equiv(a, b)
    ensures Equiv(b, a)
    decreases a, 1
  {
    match a
    case JArr(xs) =>
      forall i | 0 <= i < |xs|
        ensures Equiv(b.items[i], xs[i])
      {
        EquivSymmetric(xs[i], b.items[i]);
      }
    case JObj(xs) =>
      forall f | f in xs
        ensures MetBy(b.fields, f)
      {
        assert Meets(f, b.fields);
        FieldMetBack(f, b.fields);
      }
      forall g | g in b.fields
        ensures Meets(g, xs)
      {
        assert MetBy(xs, g);
        var f :| f in xs && SameField(f, g);
        SameFieldSymmetric(f, g);
      }
    case _ =>
  }

  lemma {:induction false} FieldMetBack(f: Field, ys: seq<Field>)
    requires Meets(f, ys)
    ensures MetBy(ys, f)
    decreases f, 1
  {
    var g :| g in ys && SameField(f, g);
    SameFieldSymmetric(f, g);
  }

  lemma {:induction false} SameFieldSymmetric(f: Field, g: Field)
    requires SameField(f, g)
    ensures SameField(g, f)
    decreases f, 0
  {
    EquivSymmetric(f.value, g.value);
  }

  lemma {:induction false} EquivTransitive(a: Json, b: Json, c: Json)
    requires Equiv(a, b) && Equiv(b, c)
    ensures Equiv(a, c)
    decreases a, 1
  {
    match a
    case JArr(xs) =>
      forall i | 0 <= i < |xs|
        ensures Equiv(xs[i], c.items[i])
      {
        EquivTransitive(xs[i], b.items[i], c.items[i]);
      }
    case JObj(xs) =>
      forall f | f in xs
        ensures Meets(f, c.fields)
      {
        assert Meets(f, b.fields);
        var g :| g in b.fields && SameField(f, g);
        assert Meets(g, c.fields);
        var h :| h in c.fields && SameField(g, h);
        EquivTransitive(f.value, g.value, h.value);
        assert SameField(f, h);
      }
      forall h | h in c.fields
        ensures MetBy(xs, h)
      {
        assert MetBy(b.fields, h);
        var g :| g in b.fields && SameField(g, h);
        assert MetBy(xs, g);
        var f :| f in xs && SameField(f, g);
        EquivTransitive(f.value, g.value, h.value);
        assert SameField(f, h);
      }
    case _ =>
  }

  // ------------------------------------------------------------- canonical form

  predicate KeysAscend(fields: seq<Field>) {
    forall i, j :: 0 <= i < j < |fields| ==> KeyBefore(fields[i].key, fields[j].key)
  }

  predicate Canonical(v: Json)
    decreases v
  {
    match v
    case JArr(items) => forall i :: 0 <= i < |items| ==> Canonical(items[i])
    case JObj(fields) =>
      KeysAscend(fields) && forall f :: f in fields ==> f.key != PROTO && Canonical(f.value)
    case _ => true
  }

  // Canonical values that are equal up to key order are equal.
  lemma {:induction false} CanonicalIsUnique(a: Json, b: Json)
    requires Canonical(a) && Canonical(b) && Equiv(a, b)
    ensures a == b
    decreases a, 1
  {
    match (a, b)
    case (JArr(xs), JArr(ys)) =>
      forall i | 0 <= i < |xs|
        ensures xs[i] == ys[i]
      {
        CanonicalIsUnique(xs[i], ys[i]);
      }
      assert xs == ys;
    case (JObj(xs), JObj(ys)) =>
      forall f | f in xs
        ensures f in ys
      {
        assert Meets(f, ys);
        var g :| g in ys && SameField(f, g);
        CanonicalIsUnique(f.value, g.value);
      }
      forall g | g in ys
        ensures g in xs
      {
        assert MetBy(xs, g);
        var f :| f in xs && SameField(f, g);
        CanonicalIsUnique(f.value, g.value);
      }
      AscendingIsUnique(xs, ys);
    case _ =>
  }

  // Two ascending lists with the same elements are the same list.
  lemma {:induction false} AscendingIsUnique(xs: seq<Field>, ys: seq<Field>)
    requires KeysAscend(xs) && KeysAscend(ys)
    requires (forall f :: f in xs ==> f in ys) && forall g :: g in ys ==> g in xs
    ensures xs == ys
    decreases |xs|
  {
    if |ys| > 0 {
      assert ys[0] in xs;
    }
    if xs != [] {
      assert xs[0] in ys;
      SameHead(xs, ys);
      TailElements(xs);
      TailElements(ys);
      AscendingIsUnique(xs[1..], ys[1..]);
      assert xs == [xs[0]] + xs[1..] && ys == [ys[0]] + ys[1..];
    }
  }

  lemma SameHead(xs: seq<Field>, ys: seq<Field>)
    requires KeysAscend(xs) && KeysAscend(ys) && xs != [] && ys != []
    requires (forall f :: f in xs ==> f in ys) && forall g :: g in ys ==> g in xs
    ensures xs[0] == ys[0]
  {
    assert xs[0] in ys && ys[0] in xs;
    var j :| 0 <= j < |ys| && ys[j] == xs[0];
    var i :| 0 <= i < |xs| && xs[i] == ys[0];
    if i > 0 && j > 0 {
      KeyBeforeTransitive(xs[0].key, xs[i].key, xs[0].key);
      KeyBeforeIrreflexive(xs[0].key);
      assert false;
    }
  }

  lemma TailElements(xs: seq<Field>)
    requires KeysAscend(xs) && xs != []
    ensures forall f :: f in xs[1..] <==> f in xs && f != xs[0]
  {
    KeyBeforeIrreflexive(xs[0].key);
    forall f | f in xs && f != xs[0]
      ensures f in xs[1..]
    {
      var i :| 0 <= i < |xs| && xs[i] == f;
      assert xs[1..][i - 1] == f;
    }
  }

  // ---------------------------------------------------- assigning keys in order

  lemma {:induction false} InsertIndexAscends(fields: seq<Field>, f: Field)
    requires KeysAscend(fields) && IsIndexKey(f.key) && f.key !in Keys(fields)
    ensures KeysAscend(InsertIndex(fields, f))
    ensures forall g :: g in InsertIndex(fields, f) <==> g in fields || g == f
  {
    if fields == [] {
    } else if !IsIndexKey(fields[0].key) || !KeyBefore(fields[0].key, f.key) {
      assert fields[0].key == Keys(fields)[0];
      assert KeyBefore(f.key, fields[0].key);
      forall j | 0 <= j < |fields|
        ensures KeyBefore(f.key, fields[j].key)
      {
        if j > 0 {
          KeyBeforeTransitive(f.key, fields[0].key, fields[j].key);
        }
      }
    } else {
      var rest := InsertIndex(fields[1..], f);
      assert forall i :: 0 <= i < |fields[1..]| ==> Keys(fields[1..])[i] == Keys(fields)[i + 1];
      InsertIndexAscends(fields[1..], f);
      forall j | 0 <= j < |rest|
        ensures KeyBefore(fields[0].key, rest[j].key)
      {
        assert rest[j] in rest;
      }
      assert fields == [fields[0]] + fields[1..];
    }
  }

  lemma AssignAscends(fields: seq<Field>, f: Field)
    requires KeysAscend(fields) && f.key != PROTO && f.key !in Keys(fields)
    requires IsIndexKey(f.key) || forall g :: g in fields ==> KeyBefore(g.key, f.key)
    ensures KeysAscend(Assign(fields, f))
    ensures forall g :: g in Assign(fields, f) <==> g in fields || g == f
  {
    if IsIndexKey(f.key) {
      InsertIndexAscends(fields, f);
    }
  }

  lemma SortedFieldKey(fields: seq<Field>, key: string)
    ensures SortedField(fields, key).key == key
  {
  }

  // After k assignments the object holds the first k keys, in property order.
  lemma {:induction false} FilledHolds(fields: seq<Field>, keys: seq<string>, k: nat)
    requires k <= |keys| && Ascends(keys)
    ensures KeysAscend(Filled(fields, keys, k))
    ensures forall f :: f in Filled(fields, keys, k) <==>
              f.key in keys[..k] && f.key != PROTO && f == SortedField(fields, f.key)
  {
    hide SortedField, KeyBefore, InsertIndex, Replace;
    if k > 0 {
      FilledHolds(fields, keys, k - 1);
      var key := keys[k - 1];
      SortedFieldKey(fields, key);
      assert keys[..k] == keys[..k - 1] + [key];
      if key != PROTO {
        FilledBefore(fields, keys, k - 1, Filled(fields, keys, k - 1));
        AssignAscends(Filled(fields, keys, k - 1), SortedField(fields, key));
      }
    }
  }

  // The next key is new to the object and, unless it is an index, after all its keys.
  lemma FilledBefore(fields: seq<Field>, keys: seq<string>, k: nat, before: seq<Field>)
    requires k < |keys| && Ascends(keys)
    requires forall f :: f in before ==> f.key in keys[..k]
    ensures keys[k] !in Keys(before)
    ensures IsIndexKey(keys[k]) || forall g :: g in before ==> KeyBefore(g.key, keys[k])
  {
    TextLessTotal(keys[k], keys[k]);
    forall i | 0 <= i < |before|
      ensures before[i].key != keys[k] && (IsIndexKey(keys[k]) || KeyBefore(before[i].key, keys[k]))
    {
      assert before[i] in before;
    }
  }

  lemma GetOfDistinct(fields: seq<Field>, f: Field)
    requires Distinct(Keys(fields)) && f in fields
    ensures Get(fields, f.key) == Some(f.value)
  {
    var i :| 0 <= i < |fields| && fields[i] == f;
    var g := Field(f.key, Get(fields, f.key).value);
    assert g in fields;
    var j :| 0 <= j < |fields| && fields[j] == g;
    assert Keys(fields)[i] == Keys(fields)[j];
  }

  lemma SortedKeysHold(fields: seq<Field>)
    requires Distinct(Keys(fields))
    ensures var keys := SortTexts(Keys(fields));
      Ascends(keys) && |keys| == |fields| && forall key :: key in keys <==> key in Keys(fields)
  {
    SortTextsAscends(Keys(fields));
    var keys := SortTexts(Keys(fields));
    forall key
      ensures key in keys <==> key in Keys(fields)
    {
      assert key in keys <==> key in multiset(keys);
      assert key in Keys(fields) <==> key in multiset(Keys(fields));
    }
  }

  function SortedOne(g: Field): Field {
    Field(g.key, SortKeys(g.value))
  }

  lemma SortedFieldOf(fields: seq<Field>, g: Field)
    requires Distinct(Keys(fields)) && g in fields
    ensures SortedField(fields, g.key) == SortedOne(g) && g.key in Keys(fields)
  {
    GetOfDistinct(fields, g);
    var i :| 0 <= i < |fields| && fields[i] == g;
    assert Keys(fields)[i] == g.key;
  }

  function SortedObject(fields: seq<Field>): seq<Field> {
    Filled(fields, SortTexts(Keys(fields)), |fields|)
  }

  lemma SortedObjectAscends(fields: seq<Field>)
    requires Distinct(Keys(fields))
    ensures KeysAscend(SortedObject(fields))
  {
    SortedKeysHold(fields);
    FilledHolds(fields, SortTexts(Keys(fields)), |fields|);
  }

  // The sorted object holds only properties of the original, none of them named
  // "__proto__", each with its value sorted.
  lemma SortedObjectOnly(fields: seq<Field>, f: Field) returns (g: Field)
    requires Distinct(Keys(fields)) && f in SortedObject(fields)
    ensures g in fields && g.key != PROTO && f == SortedOne(g)
  {
    var keys := SortTexts(Keys(fields));
    SortedKeysHold(fields);
    FilledHolds(fields, keys, |fields|);
    assert keys[..|fields|] == keys;
    assert f.key in Keys(fields);
    var i :| 0 <= i < |fields| && Keys(fields)[i] == f.key;
    g := fields[i];
    SortedFieldOf(fields, g);
  }

  // It holds all of them.
  lemma SortedObjectAll(fields: seq<Field>, g: Field)
    requires Distinct(Keys(fields)) && g in fields && g.key != PROTO
    ensures SortedOne(g) in SortedObject(fields)
  {
    var keys := SortTexts(Keys(fields));
    SortedKeysHold(fields);
    FilledHolds(fields, keys, |fields|);
    assert keys[..|fields|] == keys;
    SortedFieldOf(fields, g);
  }

  function ErasedOne(g: Field): Field {
    Field(g.key, Erased(g.value))
  }

  lemma {:induction false} ErasedOnly(fields: seq<Field>, f: Field) returns (g: Field)
    requires f in ErasedFields(fields)
    ensures g in fields && g.key != PROTO && f == ErasedOne(g)
    decreases |fields|
  {
    if fields[0].key != PROTO && f == ErasedOne(fields[0]) {
      g := fields[0];
    } else {
      g := ErasedOnly(fields[1..], f);
    }
  }

  lemma {:induction false} ErasedAll(fields: seq<Field>, g: Field)
    requires g in fields && g.key != PROTO
    ensures ErasedOne(g) in ErasedFields(fields)
    decreases |fields|
  {
    if g != fields[0] {
      assert fields == [fields[0]] + fields[1..];
      ErasedAll(fields[1..], g);
    }
  }

  // -------------------------------------------------------------- main theorems

  // Sorting gives a canonical value that is the original up to key order and
  // "__proto__" keys.
  lemma {:induction false} SortKeysCanonical(v: Json)
    requires WellKeyed(v)
    ensures Canonical(SortKeys(v)) && Equiv(SortKeys(v), Erased(v))
    decreases v
  {
    match v
    case JArr(items) =>
      forall i | 0 <= i < |items|
        ensures Canonical(SortKeys(items[i])) && Equiv(SortKeys(items[i]), Erased(items[i]))
      {
        SortKeysCanonical(items[i]);
      }
    case JObj(fields) => SortedObjectCanonical(fields);
    case _ =>
  }

  lemma {:induction false} SortedObjectCanonical(fields: seq<Field>)
    requires WellKeyed(JObj(fields))
    ensures Canonical(JObj(SortedObject(fields))) && Equiv(JObj(SortedObject(fields)), JObj(ErasedFields(fields)))
    decreases fields
  {
    var sorted, erased := SortedObject(fields), ErasedFields(fields);
    SortedObjectAscends(fields);
    forall f | f in sorted
      ensures f.key != PROTO && Canonical(f.value) && Meets(f, erased)
    {
      var g := SortedObjectOnly(fields, f);
      SortedOneCanonical(fields, g);
      ErasedAll(fields, g);
    }
    forall e | e in erased
      ensures MetBy(sorted, e)
    {
      var g := ErasedOnly(fields, e);
      SortedOneCanonical(fields, g);
      SortedObjectAll(fields, g);
    }
  }

  lemma {:induction false} SortedOneCanonical(fields: seq<Field>, g: Field)
    requires WellKeyed(JObj(fields)) && g in fields
    ensures Canonical(SortedOne(g).value) && SameField(SortedOne(g), ErasedOne(g))
    decreases fields, 0
  {
    var i :| 0 <= i < |fields| && fields[i] == g;
    SortKeysCanonical(g.value);
  }

  // Two values sort to the same value exactly when they are equal up to key
  // order, "__proto__" keys aside.
  lemma SortKeysDecidesEquivalence(a: Json, b: Json)
    requires WellKeyed(a) && WellKeyed(b)
    ensures SortKeys(a) == SortKeys(b) <==> Equiv(Erased(a), Erased(b))
  {
    SortKeysCanonical(a);
    SortKeysCanonical(b);
    var sa, sb, ea, eb := SortKeys(a), SortKeys(b), Erased(a), Erased(b);
    EquivSymmetric(sa, ea);
    EquivSymmetric(sb, eb);
    if sa == sb {
      EquivTransitive(ea, sa, eb);
    }
    if Equiv(ea, eb) {
      EquivTransitive(sa, ea, eb);
      EquivTransitive(sa, eb, sb);
      CanonicalIsUnique(sa, sb);
    }
  }

  lemma {:induction false} ErasedWithoutProto(v: Json)
    requires HasNoProto(v)
    ensures Erased(v) == v
    decreases v
  {
    match v
    case JArr(items) =>
      forall i | 0 <= i < |items|
        ensures Erased(items[i]) == items[i]
      {
        ErasedWithoutProto(items[i]);
      }
      assert Erased(v).items == items;
    case JObj(fields) => ErasedFieldsWithoutProto(fields);
    case _ =>
  }

  lemma {:induction false} ErasedFieldsWithoutProto(fields: seq<Field>)
    requires forall i :: 0 <= i < |fields| ==> fields[i].key != PROTO && HasNoProto(fields[i].value)
    ensures ErasedFields(fields) == fields
    decreases fields
  {
    if fields != [] {
      ErasedWithoutProto(fields[0].value);
      ErasedFieldsWithoutProto(fields[1..]);
      assert fields == [fields[0]] + fields[1..];
    }
  }

  lemma {:induction false} CanonicalIsWellKeyed(v: Json)
    requires Canonical(v)
    ensures WellKeyed(v) && HasNoProto(v)
    decreases v
  {
    match v
    case JArr(items) =>
      forall i | 0 <= i < |items|
        ensures WellKeyed(items[i]) && HasNoProto(items[i])
      {
        CanonicalIsWellKeyed(items[i]);
      }
    case JObj(fields) =>
      forall i | 0 <= i < |fields|
        ensures WellKeyed(fields[i].value) && HasNoProto(fields[i].value) && fields[i].key != PROTO
      {
        assert fields[i] in fields;
        CanonicalIsWellKeyed(fields[i].value);
      }
      forall i, j | 0 <= i < j < |fields|
        ensures fields[i].key != fields[j].key
      {
        KeyBeforeIrreflexive(fields[i].key);
      }
    case _ =>
  }

  lemma SortKeysIdempotent(v: Json)
    requires WellKeyed(v)
    ensures SortKeys(SortKeys(v)) == SortKeys(v)
  {
    var s := SortKeys(v);
    SortKeysCanonical(v);
    CanonicalIsWellKeyed(s);
    SortKeysCanonical(s);
    ErasedWithoutProto(s);
    CanonicalIsUnique(SortKeys(s), s);
  }

  // Without "__proto__" keys, sorting is a complete canonical form.
  lemma SortKeysIsComplete(a: Json, b: Json)
    requires WellKeyed(a) && WellKeyed(b) && HasNoProto(a) && HasNoProto(b)
    ensures SortKeys(a) == SortKeys(b) <==> Equiv(a, b)
  {
    SortKeysDecidesEquivalence(a, b);
    ErasedWithoutProto(a);
    ErasedWithoutProto(b);
  }

  lemma {:induction false} EquivKeepsNoProto(a: Json, b: Json)
    requires Equiv(a, b) && HasNoProto(a)
    ensures HasNoProto(b)
    decreases a
  {
    match a
    case JArr(xs) =>
      forall i | 0 <= i < |xs|
        ensures HasNoProto(b.items[i])
      {
        EquivKeepsNoProto(xs[i], b.items[i]);
      }
    case JObj(xs) =>
      forall i | 0 <= i < |b.fields|
        ensures b.fields[i].key != PROTO && HasNoProto(b.fields[i].value)
      {
        assert MetBy(xs, b.fields[i]);
        var f :| f in xs && SameField(f, b.fields[i]);
        var j :| 0 <= j < |xs| && xs[j] == f;
        EquivKeepsNoProto(f.value, b.fields[i].value);
      }
    case _ =>
  }

  // Sorting keeps a value, up to key order, exactly when it has no "__proto__" key.
  lemma SortKeysKeepsValue(v: Json)
    requires WellKeyed(v)
    ensures Equiv(SortKeys(v), v) <==> HasNoProto(v)
  {
    SortKeysCanonical(v);
    if HasNoProto(v) {
      ErasedWithoutProto(v);
    }
    if Equiv(SortKeys(v), v) {
      CanonicalIsWellKeyed(SortKeys(v));
      EquivKeepsNoProto(SortKeys(v), v);
    }
  }

  // With one it is not: an own "__proto__" key is lost.
  lemma ProtoKeyIsLost()
    ensures var a, b := JObj([Field(PROTO, JNum("1"))]), JObj([]);
      WellKeyed(a) && WellKeyed(b) && SortKeys(a) == SortKeys(b) && !Equiv(a, b)
  {
    var a, b := JObj([Field(PROTO, JNum("1"))]), JObj([]);
    var fields := a.fields;
    assert Keys(fields) == [PROTO];
    assert fields[0] in fields && !Meets(fields[0], b.fields);
    assert ErasedFields(fields[1..]) == [];
    assert ErasedFields(b.fields) == [];
    assert Erased(b) == b;
    assert Erased(a) == b;
    EquivReflexive(b);
    SortKeysDecidesEquivalence(a, b);
  }

  // ---------------------------------------------------------- the printed forms

  lemma {:induction false} SortKeysKeepsNumbers(v: Json, kind: string -> bool)
    requires WellKeyed(v) && JsonText.NumbersAre(v, kind)
    ensures JsonText.NumbersAre(SortKeys(v), kind)
    decreases v
  {
    match v
    case JArr(items) =>
      forall i | 0 <= i < |items|
        ensures JsonText.NumbersAre(SortKeys(items[i]), kind)
      {
        SortKeysKeepsNumbers(items[i], kind);
      }
    case JObj(fields) =>
      var r := SortedObject(fields);
      forall i | 0 <= i < |r|
        ensures JsonText.NumbersAre(r[i].value, kind)
      {
        var g := SortedObjectOnly(fields, r[i]);
        var j :| 0 <= j < |fields| && fields[j] == g;
        SortKeysKeepsNumbers(g.value, kind);
      }
    case _ =>
  }

  function CanonicalText(v: Json): string {
    JsonText.Stringify(SortKeys(v))
  }

  // The canonical text, and so any signature computed from it, depends exactly
  // on the value up to key order.
  lemma CanonicalTextDecidesEquivalence(a: Json, b: Json)
    requires WellKeyed(a) && WellKeyed(b) && JsonText.NumbersPrinted(a) && JsonText.NumbersPrinted(b)
    ensures CanonicalText(a) == CanonicalText(b) <==> Equiv(Erased(a), Erased(b))
  {
    SortKeysDecidesEquivalence(a, b);
    SortKeysKeepsNumbers(a, JsonText.IsNumberText);
    SortKeysKeepsNumbers(b, JsonText.IsNumberText);
    if CanonicalText(a) == CanonicalText(b) {
      JsonText.StringifyInjective(SortKeys(a), SortKeys(b));
    }
  }

  // A webhook event: the envelope keys have a fixed order, `data` is sorted.
  datatype CanonicalEvent = CanonicalEvent(id: string, kind: string, occurredAt: string, tenantId: string, data: Json)

  function EventJson(event: CanonicalEvent, data: Json): Json {
    JObj([Field("id", JStr(event.id)), Field("type", JStr(event.kind)), Field("occurredAt", JStr(event.occurredAt)),
          Field("tenantId", JStr(event.tenantId)), Field("data", data)])
  }

  function CanonicalStringify(event: CanonicalEvent): string {
    JsonText.Stringify(EventJson(event, SortKeys(event.data)))
  }

  // Two events are signed and sent as the same bytes exactly when their envelopes
  // are equal and their data is equal up to key order.
  lemma CanonicalStringifyDecidesEquivalence(a: CanonicalEvent, b: CanonicalEvent)
    requires WellKeyed(a.data) && WellKeyed(b.data)
    requires JsonText.NumbersPrinted(a.data) && JsonText.NumbersPrinted(b.data)
    ensures CanonicalStringify(a) == CanonicalStringify(b) <==>
            a.(data := JNull) == b.(data := JNull) && Equiv(Erased(a.data), Erased(b.data))
  {
    SortKeysDecidesEquivalence(a.data, b.data);
    SortKeysKeepsNumbers(a.data, JsonText.IsNumberText);
    SortKeysKeepsNumbers(b.data, JsonText.IsNumberText);
    var ja, jb := EventJson(a, SortKeys(a.data)), EventJson(b, SortKeys(b.data));
    if CanonicalStringify(a) == CanonicalStringify(b) {
      JsonText.StringifyInjective(ja, jb);
      assert forall i :: 0 <= i < 5 ==> ja.fields[i] == jb.fields[i];
      assert ja.fields[0].value == jb.fields[0].value && ja.fields[1].value == jb.fields[1].value;
      assert ja.fields[2].value == jb.fields[2].value && ja.fields[3].value == jb.fields[3].value;
      assert ja.fields[4].value == jb.fields[4].value;
    }
  }

  // ------------------------------------------------------------ what a receiver reads

  // An object with exactly the five members of an event.
  predicate ReadsAs(v: Json, event: CanonicalEvent) {
    v.JObj? && |v.fields| == 5 && Distinct(Keys(v.fields)) &&
    Get(v.fields, "id") == Some(JStr(event.id)) && Get(v.fields, "type") == Some(JStr(event.kind)) &&
    Get(v.fields, "occurredAt") == Some(JStr(event.occurredAt)) &&
    Get(v.fields, "tenantId") == Some(JStr(event.tenantId)) &&
    Get(v.fields, "data").Some? && Equiv(Get(v.fields, "data").value, Erased(event.data))
  }

  lemma EventFields(event: CanonicalEvent, data: Json)
    ensures var fields := EventJson(event, data).fields;
      Distinct(Keys(fields)) && Get(fields, "id") == Some(JStr(event.id)) &&
      Get(fields, "type") == Some(JStr(event.kind)) && Get(fields, "occurredAt") == Some(JStr(event.occurredAt)) &&
      Get(fields, "tenantId") == Some(JStr(event.tenantId)) && Get(fields, "data") == Some(data)
  {
    hide Get, Distinct;
    var fields := EventJson(event, data).fields;
    EventKeysDistinct();
    assert Keys(fields) == EVENT_KEYS;
    GetOfDistinct(fields, fields[0]);
    GetOfDistinct(fields, fields[1]);
    GetOfDistinct(fields, fields[2]);
    GetOfDistinct(fields, fields[3]);
    GetOfDistinct(fields, fields[4]);
  }

  const EVENT_KEYS := ["id", "type", "occurredAt", "tenantId", "data"]

  lemma EventKeysDistinct()
    ensures Distinct(EVENT_KEYS)
  {
    assert "id"[0] == 'i' && "type"[0] == 't' && "type"[1] == 'y' && "occurredAt"[0] == 'o' && "tenantId"[0] == 't' &&
           "tenantId"[1] == 'e' && "data"[0] == 'd';
  }

  // What a receiver reads from the sent text: the envelope under its own names, and the
  // data up to key order and "__proto__" keys.
  lemma EventReadsBack(event: CanonicalEvent)
    requires WellKeyed(event.data) && JsonReader.NumbersValid(event.data)
    ensures var read := JsonReader.ReadText(CanonicalStringify(event));
      read.Some? && ReadsAs(read.value, event)
  {
    var data := SortKeys(event.data);
    SortKeysKeepsNumbers(event.data, JsonReader.IsJsonNumber);
    EventNumbers(event, data);
    JsonReader.StringifyReadsBack(EventJson(event, data));
    EventFields(event, data);
    SortKeysCanonical(event.data);
  }

  lemma EventNumbers(event: CanonicalEvent, data: Json)
    requires JsonReader.NumbersValid(data)
    ensures JsonReader.NumbersValid(EventJson(event, data))
  {
  }

  // A reader of the canonical text gets the value, up to key order and "__proto__" keys.
  lemma CanonicalTextReadsBack(v: Json)
    requires WellKeyed(v) && JsonReader.NumbersValid(v)
    ensures var read := JsonReader.ReadText(CanonicalText(v));
      read.Some? && Canonical(read.value) && Equiv(read.value, Erased(v))
  {
    SortKeysKeepsNumbers(v, JsonReader.IsJsonNumber);
    JsonReader.StringifyReadsBack(SortKeys(v));
    SortKeysCanonical(v);
  }
}
