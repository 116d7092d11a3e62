/** The canonical encoding of values, and a decoder that shows nothing is lost or confused. */
module Canonical {
  import opened Base

  /** Values by what they are encoded as. Go types that share a tag (the integer widths, a named byte
      slice and a list of bytes) are one value here; Unsupported stands for everything encodeValue
      rejects: nil, floats, structs, named strings, maps whose keys are not strings. */
  datatype Value =
    | Str(s: Bytes)
    | Blob(b: Bytes)
    | Int(n: int)
    | Uint(u: nat)
    | List(items: seq<Value>)
    | Map(entries: map<Bytes, Value>)
    | Unsupported

  const TAG_FIELDS: byte := 102
  const TAG_STRING: byte := 115
  const TAG_BYTES: byte := 98
  const TAG_INT: byte := 105
  const TAG_UINT: byte := 117
  const TAG_LIST: byte := 108
  const TAG_MAP: byte := 109

  /** Integers are 64 bits wide. */
  predicate Sized(v: Value)
    decreases v, 1
  {
    match v
    case Int(n) => -TWO_63 <= n < TWO_63
    case Uint(u) => u < TWO_64
    case List(items) => AllSized(items)
    case Map(m) => EntriesSized(v)
    case _ => true
  }

  predicate AllSized(items: seq<Value>)
    decreases items
  {
    forall i :: 0 <= i < |items| ==> Sized(items[i])
  }

  predicate EntriesSized(v: Value)
    requires v.Map?
    decreases v, 0
  {
    forall k :: k in v.entries ==> Sized(v.entries[k])
  }

  predicate Encodable(v: Value)
    decreases v, 1
  {
    match v
    case List(items) => AllEncodable(items)
    case Map(m) => EntriesEncodable(v)
    case _ => !v.Unsupported?
  }

  predicate AllEncodable(items: seq<Value>)
    decreases items
  {
    forall i :: 0 <= i < |items| ==> Encodable(items[i])
  }

  predicate EntriesEncodable(v: Value)
    requires v.Map?
    decreases v, 0
  {
    forall k :: k in v.entries ==> Encodable(v.entries[k])
  }

  // ---- Varints ----

  function Uvarint(n: nat): (r: Bytes) {
    if n < 128 then [n] else [n % 128 + 128] + Uvarint(n / 128)
  }

  /** The number at the front of bs and the bytes after it. */
  function UnUvarint(bs: Bytes): (r: Option<(nat, Bytes)>)
    ensures r.Some? ==> |r.value.1| < |bs|
  {
    if bs == [] then None
    else if bs[0] < 128 then Some((bs[0], bs[1..]))
    else
      match UnUvarint(bs[1..])
      case None => None
      case Some(p) => Some((bs[0] - 128 + 128 * p.0, p.1))
  }

  lemma {:induction false} UvarintRoundTrip(n: nat, rest: Bytes)
    ensures UnUvarint(Uvarint(n) + rest) == Some((n, rest))
    decreases n
  {
    var bs := Uvarint(n) + rest;
    if n < 128 {
      assert bs[1..] == rest;
    } else {
      assert bs[1..] == Uvarint(n / 128) + rest;
      UvarintRoundTrip(n / 128, rest);
    }
  }

  function Pow128(k: nat): nat {
    if k == 0 then 1 else 128 * Pow128(k - 1)
  }

  /** A varint of k bytes encodes the numbers below 128^k. */
  lemma {:induction false} UvarintLength(n: nat, k: nat)
    requires k > 0 && n < Pow128(k)
    ensures 1 <= |Uvarint(n)| <= k
    decreases k
  {
    if n >= 128 {
      assert k > 1;
      UvarintLength(n / 128, k - 1);
    }
  }

  /** A 64-bit number fits the ten-byte buffer the encoder reserves for it. */
  lemma UvarintFits(n: nat)
    requires n < TWO_64
    ensures 1 <= |Uvarint(n)| <= 10
  {
    assert Pow128(10) == 128 * (128 * (128 * (128 * (128 * Pow128(5)))));
    assert Pow128(5) == 34359738368;
    UvarintLength(n, 10);
  }

  // ---- Zigzag ----

  /** Two's complement reading of an integer as an unsigned 64-bit number. */
  function Unsigned(n: int): nat {
    n % TWO_64
  }

  /** uint64(n << 1) ^ uint64(n >> 63): the shift right is arithmetic, so the second operand is zero or
      all ones, and exclusive-or with all ones is complement. */
  function ZigZag(n: int): nat {
    var doubled := Unsigned(2 * n);
    if n < 0 then TWO_64 - 1 - doubled else doubled
  }

  function UnZigZag(z: nat): int {
    if z % 2 == 0 then z / 2 else -(z / 2) - 1
  }

  /** On 64-bit integers zigzag is a bijection with the unsigned 64-bit numbers. */
  lemma ZigZagRoundTrip(n: int)
    requires -TWO_63 <= n < TWO_63
    ensures ZigZag(n) < TWO_64 && UnZigZag(ZigZag(n)) == n
  {
    if n >= 0 {
      assert ZigZag(n) == 2 * n;
    } else {
      assert (2 * n) % TWO_64 == 2 * n + TWO_64;
      assert ZigZag(n) == -2 * n - 1;
    }
  }

  lemma UnZigZagRoundTrip(z: nat)
    requires z < TWO_64
    ensures -TWO_63 <= UnZigZag(z) < TWO_63 && ZigZag(UnZigZag(z)) == z
  {
    var n := UnZigZag(z);
    if n < 0 {
      assert (2 * n) % TWO_64 == 2 * n + TWO_64;
    }
  }

  // ---- Sorted keys ----

  predicate Less(a: Bytes, b: Bytes) {
    b != [] && (a == [] || a[0] < b[0] || (a[0] == b[0] && Less(a[1..], b[1..])))
  }

  lemma {:induction false} LessTotal(a: Bytes, b: Bytes)
    ensures Less(a, b) || a == b || Less(b, a)
    ensures !(Less(a, b) && Less(b, a)) && !Less(a, a)
  {
    if a != [] && b != [] {
      LessTotal(a[1..], b[1..]);
      LessTotal(a[1..], a[1..]);
      assert a == [a[0]] + a[1..] && b == [b[0]] + b[1..];
    } else if a != [] {
      LessTotal(a[1..], a[1..]);
    }
  }

  lemma {:induction false} LessTransitive(a: Bytes, b: Bytes, c: Bytes)
    requires Less(a, b) && Less(b, c)
    ensures Less(a, c)
  {
    if a != [] && a[0] == b[0] == c[0] { LessTransitive(a[1..], b[1..], c[1..]); }
  }

  predicate Sorted(keys: seq<Bytes>) {
    forall i, j :: 0 <= i < j < |keys| ==> Less(keys[i], keys[j])
  }

  function Insert(key: Bytes, keys: seq<Bytes>): seq<Bytes> {
    if keys == [] || Less(key, keys[0]) then [key] + keys else [keys[0]] + Insert(key, keys[1..])
  }

  function Sort(keys: seq<Bytes>): seq<Bytes> {
    if keys == [] then [] else Insert(keys[0], Sort(keys[1..]))
  }

  lemma {:induction false} InsertSorted(key: Bytes, keys: seq<Bytes>)
    requires Sorted(keys) && key !in keys
    ensures Sorted(Insert(key, keys))
    ensures forall k :: k in Insert(key, keys) <==> k == key || k in keys
    ensures |Insert(key, keys)| == |keys| + 1
  {
    if keys == [] {
    } else if Less(key, keys[0]) {
      forall j | 0 < j < |keys| ensures Less(key, keys[j]) { LessTransitive(key, keys[0], keys[j]); }
    } else {
      var rest := keys[1..];
      InsertSorted(key, rest);
      LessTotal(key, keys[0]);
      var tail := Insert(key, rest);
      forall j | 0 <= j < |tail| ensures Less(keys[0], tail[j]) {
        if tail[j] != key {
          assert tail[j] in rest;
          var i :| 0 <= i < |rest| && rest[i] == tail[j];
          assert rest[i] == keys[i + 1];
        }
      }
      forall k ensures k in Insert(key, keys) <==> k == key || k in keys {
        assert k in keys <==> k == keys[0] || k in rest;
      }
    }
  }

  predicate Unique(keys: seq<Bytes>) {
    forall i, j :: 0 <= i < j < |keys| ==> keys[i] != keys[j]
  }

  lemma {:induction false} SortSorts(keys: seq<Bytes>)
    requires Unique(keys)
    ensures Sorted(Sort(keys)) && |Sort(keys)| == |keys|
    ensures forall k :: k in Sort(keys) <==> k in keys
  {
    if keys != [] {
      SortSorts(keys[1..]);
      InsertSorted(keys[0], Sort(keys[1..]));
      assert forall k :: k in keys <==> k == keys[0] || k in keys[1..];
    }
  }

  lemma HeadIsLeast(keys: seq<Bytes>, k: Bytes)
    requires Sorted(keys) && k in keys
    ensures k == keys[0] || Less(keys[0], k)
  {
    var i :| 0 <= i < |keys| && keys[i] == k;
  }

  lemma HeadMember(keys: seq<Bytes>)
    requires keys != []
    ensures keys[0] in keys
  {}

  lemma TailMembers(keys: seq<Bytes>, k: Bytes)
    requires Sorted(keys) && keys != []
    ensures k in keys[1..] <==> k in keys && k != keys[0]
  {
    LessTotal(k, k);
    if k in keys[1..] {
      var i :| 1 <= i < |keys| && keys[i] == k;
    }
  }

  /** A set of keys has one sorted listing. */
  lemma {:induction false} SortedUnique(a: seq<Bytes>, b: seq<Bytes>)
    requires Sorted(a) && Sorted(b)
    requires forall k :: k in a <==> k in b
    ensures a == b
  {
    if a == [] {
      if b != [] { HeadMember(b); }
    } else {
      HeadMember(a);
      HeadMember(b);
      assert a[0] in b;
      assert b[0] in a;
      HeadIsLeast(a, b[0]);
      HeadIsLeast(b, a[0]);
      LessTotal(a[0], b[0]);
      forall k ensures k in a[1..] <==> k in b[1..] {
        TailMembers(a, k);
        TailMembers(b, k);
      }
      SortedUnique(a[1..], b[1..]);
    }
  }

  predicate IsLeast(key: Bytes, keys: set<Bytes>) {
    key in keys && forall k :: k in keys ==> k == key || Less(key, k)
  }

  lemma {:induction false} LeastExists(keys: set<Bytes>)
    requires keys != {}
    ensures exists key :: IsLeast(key, keys)
  {
    var key :| key in keys;
    var rest := keys - {key};
    if rest == {} {
      assert keys == {key};
      assert IsLeast(key, keys);
    } else {
      LeastExists(rest);
      var least :| IsLeast(least, rest);
      LessTotal(key, least);
      if Less(least, key) {
        assert IsLeast(least, keys);
      } else {
        forall k | k in rest ensures Less(key, k) {
          if k != least { LessTransitive(key, least, k); }
        }
        assert IsLeast(key, keys);
      }
    }
  }

  lemma LeastUnique(keys: set<Bytes>)
    ensures forall a, b :: IsLeast(a, keys) && IsLeast(b, keys) ==> a == b
  {
    forall a, b | IsLeast(a, keys) && IsLeast(b, keys) ensures a == b {
      LessTotal(a, b);
    }
  }

  /** The sorted listing of a set of keys. */
  function SortedKeys(keys: set<Bytes>): (r: seq<Bytes>)
    ensures Sorted(r) && |r| == |keys|
    ensures forall k :: k in r <==> k in keys
  {
    if keys == {} then []
    else
      LeastExists(keys);
      LeastUnique(keys);
      var key :| IsLeast(key, keys);
      [key] + SortedKeys(keys - {key})
  }

  // ---- The encoding ----

  /** An explicitly ordered field of a preimage. */
  datatype Field = Field(name: Bytes, value: Value)

  function EncString(s: Bytes): Bytes {
    [TAG_STRING] + Uvarint(|s|) + s
  }

  function Concat(parts: seq<Bytes>): Bytes {
    if parts == [] then [] else parts[0] + Concat(parts[1..])
  }

  /** The bytes encodeValue writes; an unsupported value writes none and is an error. */
  function Enc(v: Value): Bytes
    decreases v, 1
  {
    match v
    case Str(s) => EncString(s)
    case Blob(b) => [TAG_BYTES] + Uvarint(|b|) + b
    case Int(n) => [TAG_INT] + Uvarint(ZigZag(n))
    case Uint(u) => [TAG_UINT] + Uvarint(u)
    case List(items) => [TAG_LIST] + Uvarint(|items|) + Concat(Encs(items))
    case Map(m) => [TAG_MAP] + Uvarint(|m|) + Concat(EntryParts(v, SortedKeys(m.Keys)))
    case Unsupported => []
  }

  function Encs(items: seq<Value>): (r: seq<Bytes>)
    ensures |r| == |items|
    decreases items
  {
    seq(|items|, i requires 0 <= i < |items| => Enc(items[i]))
  }

  predicate Lists(keys: seq<Bytes>, v: Value) {
    v.Map? && forall i :: 0 <= i < |keys| ==> keys[i] in v.entries
  }

  function EntryParts(v: Value, keys: seq<Bytes>): (r: seq<Bytes>)
    requires Lists(keys, v)
    ensures |r| == |keys|
    decreases v, 0
  {
    seq(|keys|, i requires 0 <= i < |keys| => EncString(keys[i]) + Enc(v.entries[keys[i]]))
  }

  function FieldPart(f: Field): Bytes {
    EncString(f.name) + Enc(f.value)
  }

  function FieldParts(fields: seq<Field>): (r: seq<Bytes>)
    ensures |r| == |fields|
  {
    seq(|fields|, i requires 0 <= i < |fields| => FieldPart(fields[i]))
  }

  /** The bytes EncodeFields returns. */
  function EncFields(fields: seq<Field>): Bytes {
    [TAG_FIELDS] + Uvarint(|fields|) + Concat(FieldParts(fields))
  }

  predicate FieldsEncodable(fields: seq<Field>) {
    forall i :: 0 <= i < |fields| ==> Encodable(fields[i].value)
  }

  predicate FieldsSized(fields: seq<Field>) {
    forall i :: 0 <= i < |fields| ==> Sized(fields[i].value)
  }

  /** The entries of a map in the order of keys, written as fields are. */
  function EntryFields(v: Value, keys: seq<Bytes>): (r: seq<Field>)
    requires Lists(keys, v)
    ensures |r| == |keys|
  {
    seq(|keys|, i requires 0 <= i < |keys| => Field(keys[i], v.entries[keys[i]]))
  }

  lemma SortedKeysList(v: Value)
    requires v.Map?
    ensures Lists(SortedKeys(v.entries.Keys), v)
  {
    var keys := SortedKeys(v.entries.Keys);
    forall i | 0 <= i < |keys| ensures keys[i] in v.entries {
      assert keys[i] in keys;
    }
  }

  function SortedFields(v: Value): (r: seq<Field>)
    requires v.Map?
    ensures |r| == |v.entries|
  {
    SortedKeysList(v);
    EntryFields(v, SortedKeys(v.entries.Keys))
  }

  lemma EncMap(v: Value)
    requires v.Map?
    ensures Enc(v) == [TAG_MAP] + Uvarint(|v.entries|) + Concat(FieldParts(SortedFields(v)))
  {
    SortedKeysList(v);
    assert EntryParts(v, SortedKeys(v.entries.Keys)) == FieldParts(SortedFields(v));
  }

  /** Any listing of a map's keys sorts to the order the encoding uses, so the order in which the map
      is iterated does not reach the bytes. */
  lemma IterationOrderForgotten(m: map<Bytes, Value>, listing: seq<Bytes>)
    requires Unique(listing) && forall k :: k in listing <==> k in m
    ensures Sort(listing) == SortedKeys(m.Keys)
  {
    SortSorts(listing);
    SortedUnique(Sort(listing), SortedKeys(m.Keys));
  }

  // ---- The decoder ----

  /** A length-prefixed run of bytes at the front of bs. */
  function DecRun(bs: Bytes): (r: Option<(Bytes, Bytes)>)
    ensures r.Some? ==> |r.value.1| < |bs|
  {
    match UnUvarint(bs)
    case None => None
    case Some(p) => if p.0 <= |p.1| then Some((p.1[..p.0], p.1[p.0..])) else None
  }

  function DecString(bs: Bytes): (r: Option<(Bytes, Bytes)>)
    ensures r.Some? ==> |r.value.1| < |bs|
  {
    if bs == [] || bs[0] != TAG_STRING then None else DecRun(bs[1..])
  }

  /** A value other than a list or a map. */
  function DecLeaf(bs: Bytes): (r: Option<(Value, Bytes)>)
    requires bs != []
    ensures r.Some? ==> |r.value.1| < |bs|
  {
    if bs[0] == TAG_STRING || bs[0] == TAG_BYTES then
      match DecRun(bs[1..])
      case None => None
      case Some(p) => Some((if bs[0] == TAG_STRING then Str(p.0) else Blob(p.0), p.1))
    else if bs[0] == TAG_INT || bs[0] == TAG_UINT then
      match UnUvarint(bs[1..])
      case None => None
      case Some(p) => Some((if bs[0] == TAG_INT then Int(UnZigZag(p.0)) else Uint(p.0), p.1))
    else None
  }

  function Dec(bs: Bytes): (r: Option<(Value, Bytes)>)
    ensures r.Some? ==> |r.value.1| < |bs|
    decreases |bs|, 0
  {
    if bs == [] then None
    else if bs[0] == TAG_LIST then DecList(bs[1..])
    else if bs[0] == TAG_MAP then DecMap(bs[1..])
    else DecLeaf(bs)
  }

  function DecList(bs: Bytes): (r: Option<(Value, Bytes)>)
    ensures r.Some? ==> |r.value.1| < |bs|
    decreases |bs|, 2
  {
    match UnUvarint(bs)
    case None => None
    case Some(p) =>
      match DecItems(p.0, p.1)
      case None => None
      case Some(q) => Some((List(q.0), q.1))
  }

  function DecMap(bs: Bytes): (r: Option<(Value, Bytes)>)
    ensures r.Some? ==> |r.value.1| < |bs|
    decreases |bs|, 2
  {
    match UnUvarint(bs)
    case None => None
    case Some(p) =>
      match DecPairs(p.0, p.1)
      case None => None
      case Some(q) => Some((Map(Entries(q.0)), q.1))
  }

  function Entries(fields: seq<Field>): map<Bytes, Value> {
    if fields == [] then map[] else Entries(fields[1..])[fields[0].name := fields[0].value]
  }

  function DecItems(n: nat, bs: Bytes): (r: Option<(seq<Value>, Bytes)>)
    ensures r.Some? ==> |r.value.1| <= |bs|
    decreases |bs|, 1, n
  {
    if n == 0 then Some(([], bs))
    else
      match Dec(bs)
      case None => None
      case Some(p) =>
        match DecItems(n - 1, p.1)
        case None => None
        case Some(q) => Some(([p.0] + q.0, q.1))
  }

  /** n names with their values. */
  function DecPairs(n: nat, bs: Bytes): (r: Option<(seq<Field>, Bytes)>)
    ensures r.Some? ==> |r.value.1| <= |bs|
    decreases |bs|, 1, n
  {
    if n == 0 then Some(([], bs))
    else
      match DecString(bs)
      case None => None
      case Some(name) =>
        match Dec(name.1)
        case None => None
        case Some(p) =>
          match DecPairs(n - 1, p.1)
          case None => None
          case Some(q) => Some(([Field(name.0, p.0)] + q.0, q.1))
  }

  function DecFields(bs: Bytes): Option<(seq<Field>, Bytes)> {
    if bs == [] || bs[0] != TAG_FIELDS then None
    else
      match UnUvarint(bs[1..])
      case None => None
      case Some(p) => DecPairs(p.0, p.1)
  }

  // ---- Round trip ----

  lemma Tagged(tag: byte, count: Bytes, body: Bytes, rest: Bytes)
    ensures ([tag] + count + body + rest)[0] == tag
    ensures ([tag] + count + body + rest)[1..] == count + (body + rest)
  {}

  lemma RunRoundTrip(s: Bytes, rest: Bytes)
    ensures DecRun(Uvarint(|s|) + (s + rest)) == Some((s, rest))
  {
    UvarintRoundTrip(|s|, s + rest);
    assert (s + rest)[..|s|] == s && (s + rest)[|s|..] == rest;
  }

  lemma StringRoundTrip(s: Bytes, rest: Bytes)
    ensures DecString(EncString(s) + rest) == Some((s, rest))
  {
    RunRoundTrip(s, rest);
    Tagged(TAG_STRING, Uvarint(|s|), s, rest);
  }

  lemma DecItemsStep(bs: Bytes, v: Value, mid: Bytes, tail: seq<Value>, rest: Bytes)
    requires Dec(bs) == Some((v, mid)) && DecItems(|tail|, mid) == Some((tail, rest))
    ensures DecItems(1 + |tail|, bs) == Some(([v] + tail, rest))
  {}

  lemma DecPairsStep(bs: Bytes, f: Field, body: Bytes, mid: Bytes, tail: seq<Field>, rest: Bytes)
    requires DecString(bs) == Some((f.name, body)) && Dec(body) == Some((f.value, mid))
    requires DecPairs(|tail|, mid) == Some((tail, rest))
    ensures DecPairs(1 + |tail|, bs) == Some(([f] + tail, rest))
  {}

  lemma ConcatCons(parts: seq<Bytes>, rest: Bytes)
    requires parts != []
    ensures Concat(parts) + rest == parts[0] + (Concat(parts[1..]) + rest)
  {}

  lemma EncsCons(items: seq<Value>)
    requires items != [] && AllEncodable(items) && AllSized(items)
    ensures Encs(items)[0] == Enc(items[0]) && Encs(items)[1..] == Encs(items[1..])
    ensures Encodable(items[0]) && Sized(items[0]) && AllEncodable(items[1..]) && AllSized(items[1..])
  {}

  lemma {:induction false} ItemsRoundTrip(items: seq<Value>, parts: seq<Bytes>, rest: Bytes)
    requires AllEncodable(items) && AllSized(items) && parts == Encs(items)
    ensures DecItems(|items|, Concat(parts) + rest) == Some((items, rest))
    decreases items, 0
  {
    var bs := Concat(parts) + rest;
    if items == [] {
      assert bs == rest;
    } else {
      var tail, after := items[1..], Concat(parts[1..]) + rest;
      EncsCons(items);
      ConcatCons(parts, rest);
      RoundTrip(items[0], parts[0], after);
      ItemsRoundTrip(tail, parts[1..], rest);
      DecItemsStep(bs, items[0], after, tail, rest);
      assert [items[0]] + tail == items;
    }
  }

  /** Names and values, each value a part of whole. */
  lemma {:induction false} PairsRoundTrip(whole: Value, fields: seq<Field>, rest: Bytes)
    requires FieldsEncodable(fields) && FieldsSized(fields)
    requires forall i :: 0 <= i < |fields| ==> fields[i].value < whole
    ensures DecPairs(|fields|, Concat(FieldParts(fields)) + rest) == Some((fields, rest))
    decreases whole, 0, |fields|
  {
    var parts := FieldParts(fields);
    var bs := Concat(parts) + rest;
    if fields == [] {
      assert bs == rest;
    } else {
      var f, tail, after := fields[0], fields[1..], Concat(parts[1..]) + rest;
      var part := Enc(f.value);
      assert parts[1..] == FieldParts(tail);
      ConcatCons(parts, rest);
      Joined(EncString(f.name), part, after);
      StringRoundTrip(f.name, part + after);
      RoundTrip(f.value, part, after);
      PairsRoundTrip(whole, tail, rest);
      DecPairsStep(bs, f, part + after, after, tail, rest);
      assert [f] + tail == fields;
    }
  }

  lemma Joined(a: Bytes, b: Bytes, c: Bytes)
    ensures (a + b) + c == a + (b + c)
  {}

  lemma {:induction false} EntriesOfFields(v: Value, keys: seq<Bytes>)
    requires Lists(keys, v)
    ensures Entries(EntryFields(v, keys)) == map k | k in v.entries && k in keys :: v.entries[k]
  {
    if keys != [] {
      EntriesOfFields(v, keys[1..]);
      assert EntryFields(v, keys)[1..] == EntryFields(v, keys[1..]);
      assert forall k :: k in keys <==> k == keys[0] || k in keys[1..];
    }
  }

  lemma EntriesOfSorted(v: Value)
    requires v.Map?
    ensures Entries(SortedFields(v)) == v.entries
  {
    SortedKeysList(v);
    EntriesOfFields(v, SortedKeys(v.entries.Keys));
  }

  lemma RunValueRoundTrip(v: Value, rest: Bytes)
    requires v.Str? || v.Blob?
    ensures Dec(Enc(v) + rest) == Some((v, rest))
  {
    if v.Str? {
      RunRoundTrip(v.s, rest);
      Tagged(TAG_STRING, Uvarint(|v.s|), v.s, rest);
    } else {
      RunRoundTrip(v.b, rest);
      Tagged(TAG_BYTES, Uvarint(|v.b|), v.b, rest);
    }
  }

  lemma NumberRoundTrip(v: Value, rest: Bytes)
    requires Sized(v) && (v.Int? || v.Uint?)
    ensures Dec(Enc(v) + rest) == Some((v, rest))
  {
    if v.Int? { ZigZagRoundTrip(v.n); }
    var u := if v.Int? then ZigZag(v.n) else v.u;
    UvarintRoundTrip(u, rest);
    assert (Enc(v) + rest)[1..] == Uvarint(u) + rest;
  }

  lemma DecListOf(bs: Bytes, items: seq<Value>, body: Bytes, rest: Bytes)
    requires DecItems(|items|, body) == Some((items, rest))
    requires bs != [] && bs[0] == TAG_LIST && bs[1..] == Uvarint(|items|) + body
    ensures Dec(bs) == Some((List(items), rest))
  {
    UvarintRoundTrip(|items|, body);
  }

  lemma DecMapOf(bs: Bytes, fields: seq<Field>, body: Bytes, rest: Bytes)
    requires DecPairs(|fields|, body) == Some((fields, rest))
    requires bs != [] && bs[0] == TAG_MAP && bs[1..] == Uvarint(|fields|) + body
    ensures Dec(bs) == Some((Map(Entries(fields)), rest))
  {
    UvarintRoundTrip(|fields|, body);
  }

  lemma {:induction false} ListRoundTrip(items: seq<Value>, rest: Bytes)
    requires AllEncodable(items) && AllSized(items)
    ensures Dec(Enc(List(items)) + rest) == Some((List(items), rest))
    decreases items, 1
  {
    var body := Concat(Encs(items));
    ItemsRoundTrip(items, Encs(items), rest);
    Tagged(TAG_LIST, Uvarint(|items|), body, rest);
    DecListOf(Enc(List(items)) + rest, items, body + rest, rest);
  }

  lemma SortedFieldsOkay(v: Value)
    requires v.Map? && EntriesEncodable(v) && EntriesSized(v)
    ensures FieldsEncodable(SortedFields(v)) && FieldsSized(SortedFields(v))
    ensures forall i :: 0 <= i < |SortedFields(v)| ==> SortedFields(v)[i].value < v
  {
    SortedKeysList(v);
  }

  lemma {:induction false} MapRoundTrip(v: Value, rest: Bytes)
    requires v.Map? && EntriesEncodable(v) && EntriesSized(v)
    ensures Dec(Enc(v) + rest) == Some((v, rest))
    decreases v, 1
  {
    var fields := SortedFields(v);
    var body := Concat(FieldParts(fields));
    SortedFieldsOkay(v);
    PairsRoundTrip(v, fields, rest);
    EntriesOfSorted(v);
    EncMap(v);
    Tagged(TAG_MAP, Uvarint(|fields|), body, rest);
    DecMapOf(Enc(v) + rest, fields, body + rest, rest);
  }

  /** The decoder recovers an encoded value and exactly the bytes after it. */
  lemma {:induction false} RoundTrip(v: Value, encoding: Bytes, rest: Bytes)
    requires Encodable(v) && Sized(v) && encoding == Enc(v)
    ensures Dec(encoding + rest) == Some((v, rest))
    decreases v, 2
  {
    if v.List? {
      ListRoundTrip(v.items, rest);
    } else if v.Map? {
      MapRoundTrip(v, rest);
    } else if v.Int? || v.Uint? {
      NumberRoundTrip(v, rest);
    } else {
      RunValueRoundTrip(v, rest);
    }
  }

  /** No encoding is a prefix of another, and different values have different encodings. */
  lemma PrefixFree(v: Value, w: Value, r1: Bytes, r2: Bytes)
    requires Encodable(v) && Sized(v) && Encodable(w) && Sized(w)
    requires Enc(v) + r1 == Enc(w) + r2
    ensures v == w && r1 == r2
  {
    RoundTrip(v, Enc(v), r1);
    RoundTrip(w, Enc(w), r2);
  }

  lemma FieldsRoundTrip(fields: seq<Field>, rest: Bytes)
    requires FieldsEncodable(fields) && FieldsSized(fields)
    ensures DecFields(EncFields(fields) + rest) == Some((fields, rest))
  {
    var values := seq(|fields|, i requires 0 <= i < |fields| => fields[i].value);
    forall i | 0 <= i < |fields| ensures fields[i].value < List(values) {
      assert values[i] == fields[i].value;
    }
    var body := Concat(FieldParts(fields));
    PairsRoundTrip(List(values), fields, rest);
    Tagged(TAG_FIELDS, Uvarint(|fields|), body, rest);
    UvarintRoundTrip(|fields|, body + rest);
  }

  /** A preimage determines its fields: their number, names, order and values. */
  lemma FieldsInjective(f: seq<Field>, g: seq<Field>)
    requires FieldsEncodable(f) && FieldsSized(f) && FieldsEncodable(g) && FieldsSized(g)
    requires EncFields(f) == EncFields(g)
    ensures f == g
  {
    FieldsRoundTrip(f, []);
    FieldsRoundTrip(g, []);
  }
}
