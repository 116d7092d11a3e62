/** The encoder as it runs: every operation appends to one shared buffer, and what it appends is the
    encoding of Canonical. */
module Encoders {
  import opened Base
  import opened Canonical

  /** Integers are 64 bits wide, and lengths are non-negative 64-bit integers. */
  predicate Fits(v: Value)
    decreases v, 1
  {
    match v
    case Str(s) => |s| < TWO_63
    case Blob(b) => |b| < TWO_63
    case Int(n) => -TWO_63 <= n < TWO_63
    case Uint(u) => u < TWO_64
    case List(items) => |items| < TWO_63 && AllFit(items)
    case Map(m) => |m| < TWO_63 && EntriesFit(v)
    case Unsupported => true
  }

  predicate AllFit(items: seq<Value>)
    decreases items
  {
    forall i :: 0 <= i < |items| ==> Fits(items[i])
  }

  predicate EntriesFit(v: Value)
    requires v.Map?
    decreases v, 0
  {
    forall k :: k in v.entries ==> |k| < TWO_63 && Fits(v.entries[k])
  }

  predicate FieldsFit(fields: seq<Field>) {
    && |fields| < TWO_63
    && forall i :: 0 <= i < |fields| ==> |fields[i].name| < TWO_63 && Fits(fields[i].value)
  }

  // ---- What a loop has written, and how far it can get ----

  ghost function Written(header: Bytes, parts: seq<Bytes>, i: nat): Bytes
    requires i <= |parts|
  {
    if i == 0 then header else Written(header, parts, i - 1) + parts[i - 1]
  }

  lemma {:induction false} ConcatAppend(parts: seq<Bytes>, last: Bytes)
    ensures Concat(parts + [last]) == Concat(parts) + last
  {
    if parts == [] {
      assert parts + [last] == [last];
    } else {
      assert (parts + [last])[1..] == parts[1..] + [last];
      ConcatAppend(parts[1..], last);
    }
  }

  lemma {:induction false} WrittenIs(header: Bytes, parts: seq<Bytes>, i: nat)
    requires i <= |parts|
    ensures Written(header, parts, i) == header + Concat(parts[..i])
  {
    if i > 0 {
      WrittenIs(header, parts, i - 1);
      assert parts[..i] == parts[..i - 1] + [parts[i - 1]];
      ConcatAppend(parts[..i - 1], parts[i - 1]);
      Joined(header, Concat(parts[..i - 1]), parts[i - 1]);
    }
  }

  lemma WrittenAll(header: Bytes, parts: seq<Bytes>)
    ensures Written(header, parts, |parts|) == header + Concat(parts)
  {
    WrittenIs(header, parts, |parts|);
    assert parts[..|parts|] == parts;
  }

  /** The first i items all have encodings. */
  ghost predicate Okay(items: seq<Value>, i: nat)
    requires i <= |items|
  {
    i == 0 || (Okay(items, i - 1) && Encodable(items[i - 1]))
  }

  lemma {:induction false} OkayIs(items: seq<Value>, i: nat)
    requires i <= |items|
    ensures Okay(items, i) <==> AllEncodable(items[..i])
  {
    if i > 0 { OkayIs(items, i - 1); }
  }

  lemma OkayAll(items: seq<Value>)
    ensures Okay(items, |items|) <==> AllEncodable(items)
  {
    OkayIs(items, |items|);
    assert items[..|items|] == items;
  }

  lemma OneFails(items: seq<Value>, i: nat)
    requires i < |items| && !Encodable(items[i])
    ensures !AllEncodable(items)
  {}

  ghost function Values(fields: seq<Field>): (r: seq<Value>)
    ensures |r| == |fields|
  {
    seq(|fields|, i requires 0 <= i < |fields| => fields[i].value)
  }

  lemma ValuesEncodable(fields: seq<Field>)
    ensures AllEncodable(Values(fields)) <==> FieldsEncodable(fields)
  {
    if AllEncodable(Values(fields)) {
      forall i | 0 <= i < |fields| ensures Encodable(fields[i].value) {
        assert Values(fields)[i] == fields[i].value;
      }
    }
  }

  lemma SortedFieldsEncodable(v: Value)
    requires v.Map?
    ensures FieldsEncodable(SortedFields(v)) <==> EntriesEncodable(v)
  {
    SortedKeysList(v);
    var keys, fields := SortedKeys(v.entries.Keys), SortedFields(v);
    if FieldsEncodable(fields) {
      forall k | k in v.entries ensures Encodable(v.entries[k]) {
        assert k in keys;
        var i :| 0 <= i < |keys| && keys[i] == k;
        assert Encodable(fields[i].value);
      }
    }
  }

  ghost predicate Below(fields: seq<Field>, whole: Value) {
    forall i :: 0 <= i < |fields| ==> fields[i].value < whole
  }

  lemma ValuesBelow(fields: seq<Field>)
    ensures Below(fields, List(Values(fields)))
  {
    forall i | 0 <= i < |fields| ensures fields[i].value < List(Values(fields)) {
      assert Values(fields)[i] == fields[i].value;
    }
  }

  lemma MapFieldsFacts(v: Value)
    requires v.Map? && Fits(v)
    ensures Lists(SortedKeys(v.entries.Keys), v)
    ensures FieldsFit(SortedFields(v)) && Below(SortedFields(v), v)
    ensures AllEncodable(Values(SortedFields(v))) <==> EntriesEncodable(v)
  {
    SortedKeysList(v);
    SortedFieldsEncodable(v);
    ValuesEncodable(SortedFields(v));
  }

  /** What the encoder of a map needs to know of its entries in sorted order. */
  lemma MapFacts(v: Value, start: Bytes)
    requires v.Map? && Fits(v)
    ensures Lists(SortedKeys(v.entries.Keys), v)
    ensures FieldsFit(SortedFields(v)) && Below(SortedFields(v), v)
    ensures AllEncodable(Values(SortedFields(v))) <==> EntriesEncodable(v)
    ensures start + [TAG_MAP] + Uvarint(|v.entries|) + Concat(FieldParts(SortedFields(v))) == start + Enc(v)
  {
    MapFieldsFacts(v);
    EncMap(v);
    Joined(start, [TAG_MAP], Uvarint(|v.entries|));
    Joined(start, [TAG_MAP] + Uvarint(|v.entries|), Concat(FieldParts(SortedFields(v))));
  }

  lemma FieldFacts(fields: seq<Field>, i: nat)
    requires i < |fields| && FieldsFit(fields)
    ensures |fields[i].name| < TWO_63 && Fits(fields[i].value)
    ensures Values(fields)[i] == fields[i].value && FieldParts(fields)[i] == FieldPart(fields[i])
  {}

  lemma ListFacts(items: seq<Value>, start: Bytes)
    ensures start + [TAG_LIST] + Uvarint(|items|) + Concat(Encs(items)) == start + Enc(List(items))
  {
    Joined(start, [TAG_LIST], Uvarint(|items|));
    Joined(start, [TAG_LIST] + Uvarint(|items|), Concat(Encs(items)));
  }

  lemma LoopDone(items: seq<Value>, header: Bytes, parts: seq<Bytes>)
    requires |items| == |parts|
    ensures Okay(items, |items|) <==> AllEncodable(items)
    ensures Written(header, parts, |items|) == header + Concat(parts)
  {
    OkayAll(items);
    WrittenAll(header, parts);
  }

  // ---- The encoder ----

  /** Writes n to the front of a scratch array, seven bits at a time, and returns how many bytes. */
  method PutUvarint(tmp: array<byte>, n: nat) returns (count: nat)
    requires n < TWO_64 && tmp.Length == 10
    modifies tmp
    ensures 0 < count <= tmp.Length && tmp[..count] == Uvarint(n)
  {
    UvarintFits(n);
    var x, i := n, 0;
    while x >= 128
      invariant 0 <= i && i + |Uvarint(x)| == |Uvarint(n)| <= 10
      invariant |Uvarint(x)| > 0 && tmp[..i] + Uvarint(x) == Uvarint(n)
    {
      ghost var rest := Uvarint(x / 128);
      assert Uvarint(x) == [x % 128 + 128] + rest;
      assert |rest| > 0 by { UvarintPositive(x / 128); }
      ghost var before := tmp[..i];
      tmp[i] := x % 128 + 128;
      assert tmp[..i + 1] == before + [x % 128 + 128];
      assert tmp[..i + 1] + rest == before + ([x % 128 + 128] + rest);
      x := x / 128;
      i := i + 1;
    }
    ghost var before := tmp[..i];
    tmp[i] := x;
    assert tmp[..i + 1] == before + [x];
    count := i + 1;
  }

  lemma UvarintPositive(n: nat)
    ensures |Uvarint(n)| > 0
  {}

  class Buffer {
    var data: Bytes

    constructor ()
      ensures data == []
    {
      data := [];
    }

    method Write(bytes: Bytes)
      modifies this
      ensures data == old(data) + bytes
    {
      data := data + bytes;
    }

    method WriteUvarint(n: nat)
      requires n < TWO_64
      modifies this
      ensures data == old(data) + Uvarint(n)
    {
      var tmp := new byte[10];
      var count := PutUvarint(tmp, n);
      Write(tmp[..count]);
    }

    method EncodeString(s: Bytes)
      requires |s| < TWO_63
      modifies this
      ensures data == old(data) + EncString(s)
    {
      Write([TAG_STRING]);
      WriteUvarint(|s|);
      Write(s);
    }

    method EncodeBytes(b: Bytes)
      requires |b| < TWO_63
      modifies this
      ensures data == old(data) + Enc(Blob(b))
    {
      Write([TAG_BYTES]);
      WriteUvarint(|b|);
      Write(b);
    }

    method EncodeInt(n: int)
      requires -TWO_63 <= n < TWO_63
      modifies this
      ensures data == old(data) + Enc(Int(n))
    {
      ZigZagRoundTrip(n);
      Write([TAG_INT]);
      WriteUvarint(ZigZag(n));
    }

    method EncodeUint(n: nat)
      requires n < TWO_64
      modifies this
      ensures data == old(data) + Enc(Uint(n))
    {
      Write([TAG_UINT]);
      WriteUvarint(n);
    }

    /** False on the first element that has no encoding, with what precedes it already written. */
    method EncodeList(items: seq<Value>) returns (ok: bool)
      requires |items| < TWO_63 && AllFit(items)
      modifies this
      ensures ok <==> AllEncodable(items)
      ensures ok ==> data == old(data) + Enc(List(items))
      decreases items
    {
      ListFacts(items, data);
      Write([TAG_LIST]);
      WriteUvarint(|items|);
      ghost var header, parts := data, Encs(items);
      var i := 0;
      while i < |items|
        invariant 0 <= i <= |items|
        invariant Okay(items, i) && data == Written(header, parts, i)
      {
        ok := EncodeValue(items[i]);
        if !ok {
          OneFails(items, i);
          return;
        }
        i := i + 1;
      }
      LoopDone(items, header, parts);
      return true;
    }

    /** A name and its value: a field of a preimage, or a map entry. */
    method EncodeField(f: Field) returns (ok: bool)
      requires |f.name| < TWO_63 && Fits(f.value)
      modifies this
      ensures ok <==> Encodable(f.value)
      ensures ok ==> data == old(data) + FieldPart(f)
      decreases f.value, 3
    {
      EncodeString(f.name);
      ok := EncodeValue(f.value);
      Joined(old(data), EncString(f.name), Enc(f.value));
    }

    /** Field i, when those before it have been written. */
    method EncodeFieldAt(fields: seq<Field>, i: nat, ghost header: Bytes, ghost values: seq<Value>,
                         ghost parts: seq<Bytes>)
      returns (ok: bool)
      requires i < |fields| && FieldsFit(fields) && values == Values(fields) && parts == FieldParts(fields)
      requires Okay(values, i) && data == Written(header, parts, i)
      modifies this
      ensures ok ==> Okay(values, i + 1) && data == Written(header, parts, i + 1)
      ensures !ok ==> !AllEncodable(values)
      decreases fields[i].value, 4
    {
      FieldFacts(fields, i);
      ok := EncodeField(fields[i]);
      if !ok { OneFails(values, i); }
    }

    /** Names with their values, each value a part of whole. */
    method EncodePairs(fields: seq<Field>, ghost whole: Value) returns (ok: bool)
      requires FieldsFit(fields) && Below(fields, whole)
      modifies this
      ensures ok <==> AllEncodable(Values(fields))
      ensures ok ==> data == old(data) + Concat(FieldParts(fields))
      decreases whole, 0
    {
      ghost var header, parts, values := data, FieldParts(fields), Values(fields);
      var i := 0;
      while i < |fields|
        invariant 0 <= i <= |fields|
        invariant Okay(values, i) && data == Written(header, parts, i)
      {
        ok := EncodeFieldAt(fields, i, header, values, parts);
        if !ok { return; }
        i := i + 1;
      }
      LoopDone(values, header, parts);
      return true;
    }

    method EncodeMap(v: Value) returns (ok: bool)
      requires v.Map? && Fits(v)
      modifies this
      ensures ok <==> EntriesEncodable(v)
      ensures ok ==> data == old(data) + Enc(v)
      decreases v, 1
    {
      var keys := SortedMapKeys(v.entries);
      MapFacts(v, data);
      Write([TAG_MAP]);
      WriteUvarint(|v.entries|);
      ok := EncodePairs(EntryFields(v, keys), v);
    }

    /** Appends the encoding of v, or reports that v contains something that has none. */
    method EncodeValue(v: Value) returns (ok: bool)
      requires Fits(v)
      modifies this
      ensures ok <==> Encodable(v)
      ensures ok ==> data == old(data) + Enc(v)
      decreases v, 2
    {
      match v {
        case Str(s) => EncodeString(s); ok := true;
        case Blob(b) => EncodeBytes(b); ok := true;
        case Int(n) => EncodeInt(n); ok := true;
        case Uint(u) => EncodeUint(u); ok := true;
        case List(items) => ok := EncodeList(items);
        case Map(_) => ok := EncodeMap(v);
        case Unsupported => ok := false;
      }
    }
  }

  /** The keys of a map, read in whatever order it yields them, then sorted. */
  method SortedMapKeys(m: map<Bytes, Value>) returns (keys: seq<Bytes>)
    ensures keys == SortedKeys(m.Keys)
  {
    var listing: seq<Bytes>, unread := [], m.Keys;
    while unread != {}
      invariant unread <= m.Keys && Unique(listing)
      invariant forall k :: k in listing <==> k in m && k !in unread
      decreases |unread|
    {
      var key :| key in unread;
      listing := listing + [key];
      unread := unread - {key};
    }
    IterationOrderForgotten(m, listing);
    keys := Sort(listing);
  }

  /** The preimage of an identifier or a signature: the fields in the caller's order. */
  method EncodeFields(fields: seq<Field>) returns (r: Option<Bytes>)
    requires FieldsFit(fields)
    ensures r == if FieldsEncodable(fields) then Some(EncFields(fields)) else None
  {
    var buf := new Buffer();
    ValuesBelow(fields);
    ValuesEncodable(fields);
    buf.Write([TAG_FIELDS]);
    buf.WriteUvarint(|fields|);
    assert buf.data == [TAG_FIELDS] + Uvarint(|fields|);
    var ok := buf.EncodePairs(fields, List(Values(fields)));
    return if ok then Some(buf.data) else None;
  }
}
