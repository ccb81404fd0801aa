/** Header names as Go's `textproto` writes them (`cgi.rs` and `context.rs` have
    the same routine) and the header multimap of `context.rs`. */
module HeaderName {
  import opened Bytes

  /** A token byte of section 5.6.2 of RFC 9110. */
  predicate FieldByte(b: byte) {
    || 48 <= b <= 57 || 65 <= b <= 90 || 97 <= b <= 122
    || b in {33, 35, 36, 37, 38, 39, 42, 43, 45, 46, 94, 95, 96, 124, 126}
  }

  predicate WellFormed(name: bytes) {
    forall k :: 0 <= k < |name| ==> FieldByte(name[k])
  }

  /** The case of a letter depends on what precedes it. */
  function CasedAt(name: bytes, k: nat): byte
    requires k < |name|
  {
    if k == 0 || name[k - 1] == HYPHEN then Upper(name[k]) else Lower(name[k])
  }

  function Canonical(name: bytes): (r: bytes) {
    if WellFormed(name) then seq(|name|, k requires 0 <= k < |name| => CasedAt(name, k)) else name
  }

  method AllFieldBytes(name: bytes) returns (all: bool)
    ensures all == WellFormed(name)
  {
    for k := 0 to |name|
      invariant forall j :: 0 <= j < k ==> FieldByte(name[j])
    {
      if !FieldByte(name[k]) {
        return false;
      }
    }
    return true;
  }

  method CanonicalName(name: bytes) returns (canonical: bytes)
    ensures canonical == Canonical(name)
  {
    var all := AllFieldBytes(name);
    if !all {
      return name;
    }
    canonical := [];
    var uppercase := true;
    for k := 0 to |name|
      invariant |canonical| == k && forall j :: 0 <= j < k ==> canonical[j] == CasedAt(name, j)
      invariant uppercase == (k == 0 || name[k - 1] == HYPHEN)
    {
      var b := if uppercase then Upper(name[k]) else Lower(name[k]);
      canonical := canonical + [b];
      uppercase := b == HYPHEN;
    }
  }

  /** Equal but for ASCII case. */
  predicate EqualFold(a: bytes, b: bytes) {
    |a| == |b| && forall k :: 0 <= k < |a| ==> Lower(a[k]) == Lower(b[k])
  }

  /** Two spellings of one field name: any case for a well-formed name, but only
      the identical bytes for anything else. */
  predicate SameField(a: bytes, b: bytes) {
    a == b || (WellFormed(a) && WellFormed(b) && EqualFold(a, b))
  }

  lemma CanonicalFolds(name: bytes)
    ensures |Canonical(name)| == |name|
    ensures EqualFold(Canonical(name), name)
    ensures WellFormed(Canonical(name)) <==> WellFormed(name)
  {
  }

  lemma CasedByFold(a: bytes, b: bytes, k: nat)
    requires EqualFold(a, b) && k < |a|
    ensures CasedAt(a, k) == CasedAt(b, k)
  {
  }

  /** The canonical form identifies exactly the spellings of one field name. */
  lemma CanonicalDecides(a: bytes, b: bytes)
    ensures Canonical(a) == Canonical(b) <==> SameField(a, b)
  {
    CanonicalFolds(a);
    CanonicalFolds(b);
    if SameField(a, b) && a != b {
      forall k: nat | k < |a| ensures Canonical(a)[k] == Canonical(b)[k] {
        CasedByFold(a, b, k);
      }
      assert Canonical(a) == Canonical(b);
    }
    if Canonical(a) == Canonical(b) && WellFormed(a) {
      forall k: nat | k < |a| ensures Lower(a[k]) == Lower(b[k]) {
        assert Lower(Canonical(a)[k]) == Lower(a[k]) && Lower(Canonical(b)[k]) == Lower(b[k]);
      }
    }
  }

  lemma CanonicalIsIdempotent(name: bytes)
    ensures Canonical(Canonical(name)) == Canonical(name)
  {
  }
}

module Headers {
  import opened Wrappers
  import opened Bytes
  import opened HeaderName

  datatype Entry = Entry(name: bytes, values: seq<bytes>)

  /** The offset of the entry for a canonical name, or the length. */
  function IndexOf(es: seq<Entry>, canon: bytes): (n: nat)
    ensures n <= |es|
    ensures n < |es| ==> es[n].name == canon
    ensures forall k :: 0 <= k < n ==> es[k].name != canon
  {
    if es == [] || es[0].name == canon then 0 else
    var n := 1 + IndexOf(es[1..], canon);
    assert forall k :: 1 <= k < n ==> es[k] == es[1..][k - 1];
    n
  }

  predicate OnePerName(es: seq<Entry>) {
    && (forall i, j :: 0 <= i < j < |es| ==> es[i].name != es[j].name)
    && (forall i :: 0 <= i < |es| ==> es[i].values != [])
  }

  function Values(es: seq<Entry>, canon: bytes): seq<bytes> {
    var n := IndexOf(es, canon);
    if n < |es| then es[n].values else []
  }

  function Inserted(es: seq<Entry>, canon: bytes, value: bytes): seq<Entry> {
    var n := IndexOf(es, canon);
    if n < |es| then es[n := Entry(canon, es[n].values + [value])] else es + [Entry(canon, [value])]
  }

  lemma IndexIs(es: seq<Entry>, canon: bytes, n: nat)
    requires n < |es| && es[n].name == canon && forall k :: 0 <= k < n ==> es[k].name != canon
    ensures IndexOf(es, canon) == n
  {
  }

  lemma InsertedKeepsOne(es: seq<Entry>, canon: bytes, value: bytes)
    requires OnePerName(es)
    ensures OnePerName(Inserted(es, canon, value))
  {
  }

  lemma InsertedHere(es: seq<Entry>, canon: bytes, value: bytes)
    ensures Values(Inserted(es, canon, value), canon) == Values(es, canon) + [value]
  {
    var n := IndexOf(es, canon);
    var ns := Inserted(es, canon, value);
    assert forall k :: 0 <= k < n ==> ns[k] == es[k];
    IndexIs(ns, canon, n);
  }

  lemma InsertedElsewhere(es: seq<Entry>, canon: bytes, value: bytes, other: bytes)
    requires other != canon
    ensures Values(Inserted(es, canon, value), other) == Values(es, other)
  {
    var n, m := IndexOf(es, canon), IndexOf(es, other);
    var ns := Inserted(es, canon, value);
    assert forall k :: 0 <= k < |es| && k != n ==> ns[k] == es[k];
    assert forall k :: 0 <= k < |es| ==> ns[k].name == es[k].name;
    if m < |es| {
      IndexIs(ns, other, m);
    }
  }

  lemma InsertedValues(es: seq<Entry>, canon: bytes, value: bytes, other: bytes)
    requires OnePerName(es)
    ensures var ns := Inserted(es, canon, value);
            && OnePerName(ns)
            && Values(ns, other) == Values(es, other) + if other == canon then [value] else []
  {
    InsertedKeepsOne(es, canon, value);
    if other == canon {
      InsertedHere(es, canon, value);
    } else {
      InsertedElsewhere(es, canon, value, other);
    }
  }

  class Map {
    var entries: seq<Entry>

    ghost predicate Valid()
      reads this
    {
      OnePerName(entries)
    }

    constructor ()
      ensures Valid() && entries == []
    {
      entries := [];
    }

    method Position(canon: bytes) returns (n: nat)
      ensures n == IndexOf(entries, canon)
    {
      n := 0;
      while n < |entries| && entries[n].name != canon
        invariant n <= |entries| && forall k :: 0 <= k < n ==> entries[k].name != canon
      {
        n := n + 1;
      }
      if n < |entries| {
        IndexIs(entries, canon, n);
      }
    }

    method Insert(name: bytes, value: bytes)
      requires Valid()
      modifies this
      ensures Valid()
      ensures entries == Inserted(old(entries), Canonical(name), value)
    {
      var canon := CanonicalName(name);
      var n := Position(canon);
      InsertedValues(entries, canon, value, canon);
      if n < |entries| {
        entries := entries[n := entries[n].(values := entries[n].values + [value])];
      } else {
        entries := entries + [Entry(canon, [value])];
      }
    }

    method GetAll(name: bytes) returns (values: Option<seq<bytes>>)
      requires Valid()
      ensures values == if Values(entries, Canonical(name)) == [] then None else Some(Values(entries, Canonical(name)))
    {
      var canon := CanonicalName(name);
      var n := Position(canon);
      values := if n < |entries| then Some(entries[n].values) else None;
    }

    method GetFirst(name: bytes) returns (value: Option<bytes>)
      requires Valid()
      ensures var all := Values(entries, Canonical(name));
              value == if all == [] then None else Some(all[0])
    {
      var canon := CanonicalName(name);
      var n := Position(canon);
      value := if n < |entries| then Some(entries[n].values[0]) else None;
    }

    /** No name is left: a later lookup finds nothing in any spelling. */
    method Clear()
      modifies this
      ensures Valid() && entries == []
      ensures forall name: bytes :: Values(entries, Canonical(name)) == []
    {
      entries := [];
    }
  }

  // ---- What a reader sees of a whole header section -----------------------

  datatype Field = Field(name: bytes, value: bytes)

  /** The entries after inserting `fields` in order. */
  function Loaded(fields: seq<Field>): seq<Entry> {
    if fields == [] then [] else
    var f := fields[|fields| - 1];
    Inserted(Loaded(fields[..|fields| - 1]), Canonical(f.name), f.value)
  }

  /** The values of the fields that spell `name`, in order of arrival. */
  function Spelling(fields: seq<Field>, name: bytes): seq<bytes> {
    if fields == [] then [] else
    var f := fields[|fields| - 1];
    Spelling(fields[..|fields| - 1], name) + if SameField(f.name, name) then [f.value] else []
  }

  /** Looking a name up, in any spelling, yields the values of all its fields in
      the order they came, and of no other field. */
  lemma {:induction false} LookupFindsAllSpellings(fields: seq<Field>, name: bytes)
    ensures OnePerName(Loaded(fields))
    ensures Values(Loaded(fields), Canonical(name)) == Spelling(fields, name)
  {
    if fields != [] {
      var f := fields[|fields| - 1];
      LookupFindsAllSpellings(fields[..|fields| - 1], name);
      InsertedValues(Loaded(fields[..|fields| - 1]), Canonical(f.name), f.value, Canonical(name));
      CanonicalDecides(f.name, name);
    }
  }
}
