/** The concrete bytes of the canonical encoding, which identifiers and signatures of every node must share. */
module CanonicalBytes {
  import opened Base
  import opened Canonical

  // ---- Numbers ----

  /** The k-th group of seven bits of a number, the lowest first. */
  function Group(n: nat, k: nat): nat {
    if k == 0 then n % 128 else Group(n / 128, k - 1)
  }

  /** A varint is the groups of seven bits, lowest first, all but the last with the high bit set; the last is
      not zero unless it is the only one. */
  lemma {:induction false} UvarintBytes(n: nat, k: nat)
    requires k < |Uvarint(n)|
    ensures var bs := Uvarint(n);
      && bs[k] == Group(n, k) + (if k + 1 < |bs| then 128 else 0)
      && (bs[|bs| - 1] != 0 || |bs| == 1)
    decreases n
  {
    if n >= 128 {
      var rest := Uvarint(n / 128);
      assert Uvarint(n) == [n % 128 + 128] + rest;
      UvarintBytes(n / 128, if k == 0 then 0 else k - 1);
      if |rest| == 1 { assert rest[0] != 0 by { UvarintBytes(n / 128, 0); OneGroup(n / 128); } }
    }
  }

  lemma OneGroup(n: nat)
    requires |Uvarint(n)| == 1 && n > 0
    ensures Uvarint(n)[0] != 0
  {}

  lemma ZigZagValue(n: int)
    requires -TWO_63 <= n < TWO_63
    ensures ZigZag(n) == if n >= 0 then 2 * n else -2 * n - 1
  {
    if n < 0 { Wraps(2 * n); }
  }

  lemma Wraps(x: int)
    requires -TWO_64 <= x < 0
    ensures Unsigned(x) == x + TWO_64
  {}

  // ---- Keys ----

  /** Keys are ordered by the first byte in which they differ, a proper prefix coming first. */
  lemma {:induction false} LessFirstByte(a: Bytes, b: Bytes)
    ensures Less(a, b) <==>
      exists k: nat :: k <= |a| && k < |b| && a[..k] == b[..k] && (k == |a| || a[k] < b[k])
    decreases |a|
  {
    if b == [] || a == [] {
      if a == [] && b != [] { assert a[..0] == b[..0]; }
    } else {
      LessFirstByte(a[1..], b[1..]);
      if Less(a, b) {
        if a[0] < b[0] {
          assert a[..0] == b[..0];
        } else {
          var k: nat :| k <= |a[1..]| && k < |b[1..]| && a[1..][..k] == b[1..][..k]
            && (k == |a[1..]| || a[1..][k] < b[1..][k]);
          Longer(a, b, k);
        }
      }
      if k: nat :| k <= |a| && k < |b| && a[..k] == b[..k] && (k == |a| || a[k] < b[k]) {
        if k > 0 {
          assert a[0] == a[..k][0] == b[..k][0] == b[0];
          Shorter(a, b, k);
        }
      }
    }
  }

  lemma Longer(a: Bytes, b: Bytes, k: nat)
    requires a != [] && b != [] && a[0] == b[0] && k <= |a| - 1 && k < |b| - 1 && a[1..][..k] == b[1..][..k]
    ensures a[..k + 1] == b[..k + 1]
  {
    assert a[..k + 1] == [a[0]] + a[1..][..k] && b[..k + 1] == [b[0]] + b[1..][..k];
  }

  lemma Shorter(a: Bytes, b: Bytes, k: nat)
    requires 0 < k <= |a| && k < |b| && a[..k] == b[..k]
    ensures a[1..][..k - 1] == b[1..][..k - 1]
  {
    assert a[1..][..k - 1] == a[..k][1..] && b[1..][..k - 1] == b[..k][1..];
  }

  // ---- Values and fields ----

  /** Concatenation is one part after the other. */
  lemma {:induction false} ConcatInOrder(parts: seq<Bytes>, last: Bytes)
    ensures Concat([]) == [] && Concat(parts + [last]) == Concat(parts) + last
  {
    if parts == [] {
      assert [] + [last] == [last] && [last][1..] == [];
    } else {
      ConcatInOrder(parts[1..], last);
      assert (parts + [last])[1..] == parts[1..] + [last];
    }
  }

  /** The tags, and what follows them: a length and the bytes themselves, a zigzag number, a plain number. */
  lemma ScalarBytes(s: Bytes, n: int, u: nat)
    requires -TWO_63 <= n < TWO_63
    ensures Enc(Str(s)) == [115] + Uvarint(|s|) + s
    ensures Enc(Blob(s)) == [98] + Uvarint(|s|) + s
    ensures Enc(Int(n)) == [105] + Uvarint(if n >= 0 then 2 * n else -2 * n - 1)
    ensures Enc(Uint(u)) == [117] + Uvarint(u)
  {
    ZigZagValue(n);
  }

  /** A list is its length and the encodings of its elements, in order. */
  lemma ListBytes(items: seq<Value>, parts: seq<Bytes>)
    requires |parts| == |items| && forall i :: 0 <= i < |items| ==> parts[i] == Enc(items[i])
    ensures Enc(List(items)) == [108] + Uvarint(|items|) + Concat(parts)
  {
    assert parts == Encs(items);
  }

  /** A preimage is the number of its fields and, in order, the name of each, as a string, and its value. */
  lemma FieldBytes(fields: seq<Field>, parts: seq<Bytes>)
    requires |parts| == |fields|
    requires forall i :: 0 <= i < |fields| ==>
      parts[i] == [115] + Uvarint(|fields[i].name|) + fields[i].name + Enc(fields[i].value)
    ensures EncFields(fields) == [102] + Uvarint(|fields|) + Concat(parts)
  {
    assert parts == FieldParts(fields);
  }

  /** A map is the number of its entries and then, in rising order of keys, each key as a string and its value. */
  lemma MapBytes(entries: map<Bytes, Value>, keys: seq<Bytes>, parts: seq<Bytes>)
    requires (forall k :: k in entries <==> k in keys) && Sorted(keys) && |parts| == |keys|
    requires forall i :: 0 <= i < |keys| ==>
      parts[i] == [115] + Uvarint(|keys[i]|) + keys[i] + Enc(entries[keys[i]])
    ensures Enc(Map(entries)) == [109] + Uvarint(|entries|) + Concat(parts)
  {
    SortedUnique(keys, SortedKeys(entries.Keys));
    assert parts == EntryParts(Map(entries), keys);
  }
}
