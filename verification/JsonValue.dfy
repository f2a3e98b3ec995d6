/** JSON values as utils/src/json.cc stores and compares them. */
module JsonValue {
  import opened Bytes

  datatype Json =
    | Null
    | Bool(b: bool)
    | Int(n: int)
    | Double(x: real)
    | String(s: Text)
    | Array(items: seq<Json>)
    | Object(fields: seq<Field>)

  /** std::map<string, Json> is its key-ordered list of entries. */
  datatype Field = Field(key: Text, value: Json)

  /** std::string order: lexicographic on unsigned bytes. */
  predicate Less(a: Text, b: Text) {
    if b == [] then false
    else if a == [] then true
    else if a[0] != b[0] then a[0] < b[0]
    else Less(a[1..], b[1..])
  }

  lemma LessAsymmetric(a: Text, b: Text)
    requires Less(a, b)
    ensures a != b && !Less(b, a)
  {
  }

  /** a comes before b: they differ first where a has the smaller byte, or a
      ends there. */
  lemma {:induction false} LessIsLexicographic(a: Text, b: Text)
    ensures Less(a, b) <==>
      exists k: nat :: k <= |a| && k < |b| && a[..k] == b[..k] && (k < |a| ==> a[k] < b[k])
    decreases |a|
  {
    if a != [] && b != [] && a[0] == b[0] {
      LessIsLexicographic(a[1..], b[1..]);
      if Less(a[1..], b[1..]) {
        var c, d := a[1..], b[1..];
        var k: nat :| k <= |c| && k < |d| && c[..k] == d[..k] && (k < |c| ==> c[k] < d[k]);
        assert a[..k + 1] == [a[0]] + a[1..][..k] && b[..k + 1] == [b[0]] + b[1..][..k];
      }
      if k: nat :| k <= |a| && k < |b| && a[..k] == b[..k] && (k < |a| ==> a[k] < b[k]) {
        assert k > 0;
        assert a[1..][..k - 1] == a[..k][1..] && b[1..][..k - 1] == b[..k][1..];
      }
    } else if a == [] && b != [] {
      assert a[..0] == b[..0];
    } else if a != [] && b != [] {
      assert a[..0] == b[..0];
      assert forall k: nat | 0 < k <= |a| && k < |b| && a[..k] == b[..k] :: a[..k][0] == b[..k][0];
    }
  }

  lemma {:induction false} LessTransitive(a: Text, b: Text, c: Text)
    requires Less(a, b) && Less(b, c)
    ensures Less(a, c)
    decreases |a|
  {
    if a != [] && a[0] == b[0] == c[0] {
      LessTransitive(a[1..], b[1..], c[1..]);
    }
  }

  lemma {:induction false} LessTotal(a: Text, b: Text)
    ensures Less(a, b) || a == b || Less(b, a)
    decreases |a|
  {
    if a != [] && b != [] && a[0] == b[0] {
      LessTotal(a[1..], b[1..]);
      assert a == [a[0]] + a[1..] && b == [b[0]] + b[1..];
    }
  }

  /** data[key] = value on an ordered map. */
  function Put(fields: seq<Field>, key: Text, value: Json): seq<Field> {
    if fields == [] then [Field(key, value)]
    else if fields[0].key == key then [Field(key, value)] + fields[1..]
    else if Less(key, fields[0].key) then [Field(key, value)] + fields
    else [fields[0]] + Put(fields[1..], key, value)
  }

  /** After data[key] = value the keys are still in order; the key has that
      value, and every other key has what it had, if anything. */
  lemma {:induction false} PutIs(fields: seq<Field>, key: Text, value: Json)
    requires SortedFields(fields)
    ensures SortedFields(Put(fields, key, value))
    ensures forall f :: f in Put(fields, key, value) <==> f == Field(key, value) || (f in fields && f.key != key)
    decreases |fields|
  {
    hide Less;
    if fields != [] {
      var first, rest := fields[0], fields[1..];
      assert fields == [first] + rest;
      forall f | f in rest
        ensures Less(first.key, f.key)
      {
        var i :| 0 <= i < |rest| && rest[i] == f;
        assert fields[i + 1] == f;
      }
      if first.key == key {
        KeyNotIn(rest, key);
        SortedFront(Field(key, value), rest);
      } else if Less(key, first.key) {
        forall f | f in fields
          ensures Less(key, f.key)
        {
          if f != first {
            LessTransitive(key, first.key, f.key);
          }
        }
        KeyNotIn(fields, key);
        SortedFront(Field(key, value), fields);
      } else {
        LessTotal(key, first.key);
        PutIs(rest, key, value);
        SortedFront(first, Put(rest, key, value));
      }
    }
  }

  lemma KeyNotIn(fields: seq<Field>, key: Text)
    requires forall f | f in fields :: Less(key, f.key)
    ensures forall f | f in fields :: f.key != key
  {
    forall f | f in fields
      ensures f.key != key
    {
      LessAsymmetric(key, f.key);
    }
  }

  lemma SortedFront(first: Field, rest: seq<Field>)
    requires SortedFields(rest) && forall f | f in rest :: Less(first.key, f.key)
    ensures SortedFields([first] + rest)
  {
    hide Less;
  }

  lemma PutLast(fields: seq<Field>, key: Text, value: Json)
    requires forall i :: 0 <= i < |fields| ==> Less(fields[i].key, key)
    ensures Put(fields, key, value) == fields + [Field(key, value)]
  {
    if fields != [] {
      LessAsymmetric(fields[0].key, key);
      PutLast(fields[1..], key, value);
    }
  }

  /** A value a program can build: 32-bit ints, ordered keys. Doubles, which
      print with "%.17g", are not in it. */
  predicate WellFormed(v: Json) {
    match v
    case Int(n) => -0x8000_0000 <= n < 0x8000_0000
    case Double(_) => false
    case Array(items) => WellFormedItems(items)
    case Object(fields) => SortedFields(fields) && WellFormedFields(fields)
    case _ => true
  }

  predicate WellFormedItems(items: seq<Json>) {
    items != [] ==> WellFormed(items[0]) && WellFormedItems(items[1..])
  }

  predicate WellFormedFields(fields: seq<Field>) {
    fields != [] ==> WellFormed(fields[0].value) && WellFormedFields(fields[1..])
  }

  /** Keys of a std::map: strictly ascending. */
  predicate SortedFields(fields: seq<Field>) {
    forall i, j :: 0 <= i < j < |fields| ==> Less(fields[i].key, fields[j].key)
  }

  /** No value in v is inside more than `room` containers. */
  predicate Nests(v: Json, room: int) {
    room >= 0 &&
    match v
    case Array(items) => NestsItems(items, room - 1)
    case Object(fields) => NestsFields(fields, room - 1)
    case _ => true
  }

  predicate NestsItems(items: seq<Json>, room: int)
    decreases items
  {
    items != [] ==> Nests(items[0], room) && NestsItems(items[1..], room)
  }

  predicate NestsFields(fields: seq<Field>, room: int)
    decreases fields
  {
    fields != [] ==> Nests(fields[0].value, room) && NestsFields(fields[1..], room)
  }

  /** number_value(). */
  function NumberOf(v: Json): real
    requires v.Int? || v.Double?
  {
    if v.Int? then v.n as real else v.x
  }

  /** operator==: same type, and equal contents; an int and a double of the
      same number are equal. */
  predicate Equal(a: Json, b: Json) {
    if (a.Int? || a.Double?) && (b.Int? || b.Double?) then NumberOf(a) == NumberOf(b)
    else if a.Array? && b.Array? then EqualItems(a.items, b.items)
    else if a.Object? && b.Object? then EqualFields(a.fields, b.fields)
    else a == b
  }

  predicate EqualItems(a: seq<Json>, b: seq<Json>) {
    |a| == |b| && (a != [] ==> Equal(a[0], b[0]) && EqualItems(a[1..], b[1..]))
  }

  predicate EqualFields(a: seq<Field>, b: seq<Field>) {
    && |a| == |b|
    && (a != [] ==> a[0].key == b[0].key && Equal(a[0].value, b[0].value) && EqualFields(a[1..], b[1..]))
  }

  /** v with every int written as the double of the same number. */
  function AsDoubles(v: Json): Json {
    match v
    case Int(n) => Double(n as real)
    case Array(items) => Array(ItemsAsDoubles(items))
    case Object(fields) => Object(FieldsAsDoubles(fields))
    case _ => v
  }

  function ItemsAsDoubles(items: seq<Json>): (r: seq<Json>)
    ensures |r| == |items|
  {
    if items == [] then [] else [AsDoubles(items[0])] + ItemsAsDoubles(items[1..])
  }

  function FieldsAsDoubles(fields: seq<Field>): (r: seq<Field>)
    ensures |r| == |fields|
  {
    if fields == [] then []
    else [Field(fields[0].key, AsDoubles(fields[0].value))] + FieldsAsDoubles(fields[1..])
  }

  /** operator== tells no more apart than the numbers' types. */
  lemma {:induction false} EqualExactly(a: Json, b: Json)
    ensures Equal(a, b) <==> AsDoubles(a) == AsDoubles(b)
    decreases a
  {
    if a.Array? && b.Array? {
      EqualItemsExactly(a.items, b.items);
    } else if a.Object? && b.Object? {
      EqualFieldsExactly(a.fields, b.fields);
    }
  }

  lemma {:induction false} EqualItemsExactly(a: seq<Json>, b: seq<Json>)
    ensures EqualItems(a, b) <==> ItemsAsDoubles(a) == ItemsAsDoubles(b)
    decreases a
  {
    if a != [] && |a| == |b| {
      EqualExactly(a[0], b[0]);
      EqualItemsExactly(a[1..], b[1..]);
      var x, y := ItemsAsDoubles(a), ItemsAsDoubles(b);
      assert x[1..] == ItemsAsDoubles(a[1..]) && y[1..] == ItemsAsDoubles(b[1..]);
      assert x == y <==> x[0] == y[0] && x[1..] == y[1..] by {
        assert x == [x[0]] + x[1..] && y == [y[0]] + y[1..];
      }
    }
  }

  lemma {:induction false} EqualFieldsExactly(a: seq<Field>, b: seq<Field>)
    ensures EqualFields(a, b) <==> FieldsAsDoubles(a) == FieldsAsDoubles(b)
    decreases a
  {
    if a != [] && |a| == |b| {
      EqualExactly(a[0].value, b[0].value);
      EqualFieldsExactly(a[1..], b[1..]);
      var x, y := FieldsAsDoubles(a), FieldsAsDoubles(b);
      assert x[1..] == FieldsAsDoubles(a[1..]) && y[1..] == FieldsAsDoubles(b[1..]);
      assert x == y <==> x[0] == y[0] && x[1..] == y[1..] by {
        assert x == [x[0]] + x[1..] && y == [y[0]] + y[1..];
      }
    }
  }
}
