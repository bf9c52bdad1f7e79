/** The primary-key ordinal list CREATE TABLE hands to `alterAddPK`: the
    positions of the primary-key fields, in field order. */
module PrimaryKeys {
  import opened Symbols

  predicate StrictlyIncreasing(keys: seq<nat>) {
    forall j, k :: 0 <= j < k < |keys| ==> keys[j] < keys[k]
  }

  /** The reference meaning of the key list: ascending, and holding exactly
      the positions of the fields whose primary-key flag is set. */
  predicate IsPkOrdinalList(fields: seq<FieldSymbol>, keys: seq<nat>) {
    && StrictlyIncreasing(keys)
    && (forall j :: 0 <= j < |keys| ==> keys[j] < |fields| && fields[keys[j]].isPk)
    && (forall i :: 0 <= i < |fields| && fields[i].isPk ==> i in keys)
  }

  /** The positions of the primary-key fields, computed field by field. */
  function PkOrdinals(fields: seq<FieldSymbol>): (keys: seq<nat>)
    ensures IsPkOrdinalList(fields, keys)
    ensures |keys| <= |fields|
  {
    if |fields| == 0 then []
    else
      var n := |fields| - 1;
      var prefix := fields[..n];
      assert forall i :: 0 <= i < n ==> prefix[i] == fields[i];
      PkOrdinals(prefix) + (if fields[n].isPk then [n] else [])
  }

  /** The key list is empty exactly when no field is a primary key, which is
      when CREATE TABLE skips `alterAddPK`. */
  lemma NoKeysIffNoPkField(fields: seq<FieldSymbol>)
    ensures PkOrdinals(fields) == [] <==> forall i :: 0 <= i < |fields| ==> !fields[i].isPk
  {
  }

  /** The reference meaning pins the list down: any list that meets it is the
      one `PkOrdinals` computes. */
  lemma PkOrdinalsUnique(fields: seq<FieldSymbol>, keys: seq<nat>)
    requires IsPkOrdinalList(fields, keys)
    ensures keys == PkOrdinals(fields)
  {
    var other := PkOrdinals(fields);
    forall x
      ensures x in keys <==> x in other
    {
      if x in keys {
        var j :| 0 <= j < |keys| && keys[j] == x;
        assert fields[x].isPk;
      }
      if x in other {
        var j :| 0 <= j < |other| && other[j] == x;
        assert fields[x].isPk;
      }
    }
    IncreasingSameElements(keys, other);
  }

  /** Two ascending lists with the same elements are the same list. */
  lemma {:induction false} IncreasingSameElements(a: seq<nat>, b: seq<nat>)
    requires StrictlyIncreasing(a) && StrictlyIncreasing(b)
    requires forall x :: x in a <==> x in b
    ensures a == b
  {
    FirstIsMember(a);
    FirstIsMember(b);
    if a != [] && b != [] {
      HeadIsLeast(a, b[0]);
      HeadIsLeast(b, a[0]);
      assert a[0] == b[0];
      TailElements(a);
      TailElements(b);
      IncreasingSameElements(a[1..], b[1..]);
      assert a == [a[0]] + a[1..];
      assert b == [b[0]] + b[1..];
    }
  }

  /** The head of an ascending list is below every element of the list. */
  lemma HeadIsLeast(a: seq<nat>, x: nat)
    requires StrictlyIncreasing(a)
    requires x in a
    ensures a[0] <= x
  {
  }

  /** The tail of a non-empty ascending list is ascending and holds the
      list's elements other than its head. */
  lemma TailElements(a: seq<nat>)
    requires StrictlyIncreasing(a) && a != []
    ensures StrictlyIncreasing(a[1..])
    ensures forall x :: x in a[1..] <==> x in a && x != a[0]
  {
  }

  lemma FirstIsMember(s: seq<nat>)
    ensures s != [] ==> s[0] in s
  {
  }

  // The source computes the list as
  // `map(lambda x: fields.index(x), filter(lambda f: f.is_pk == True, fields))`.
  // The functions below follow that shape, with `list.index` returning the
  // first position holding an equal field.

  /** `list.index`: the first position of `x` in `s`. */
  function IndexOf(s: seq<FieldSymbol>, x: FieldSymbol): (i: nat)
    requires x in s
    ensures i < |s| && s[i] == x
    ensures forall j :: 0 <= j < i ==> s[j] != x
  {
    if s[0] == x then 0 else 1 + IndexOf(s[1..], x)
  }

  /** `filter(lambda key: key.is_pk == True, fields)`. */
  function PkFields(fields: seq<FieldSymbol>): (pks: seq<FieldSymbol>)
    ensures forall f :: f in pks ==> f in fields && f.isPk
    ensures forall f :: f in fields && f.isPk ==> f in pks
    ensures |pks| == |PkOrdinals(fields)|
    ensures forall j :: 0 <= j < |pks| ==> pks[j] == fields[PkOrdinals(fields)[j]]
  {
    if |fields| == 0 then []
    else
      var n := |fields| - 1;
      var prefix := fields[..n];
      assert forall i :: 0 <= i < n ==> prefix[i] == fields[i];
      var keys := PkOrdinals(prefix);
      assert PkOrdinals(fields) == keys + (if fields[n].isPk then [n] else []);
      var rest := PkFields(prefix);
      assert forall j :: 0 <= j < |rest| ==> rest[j] == fields[keys[j]];
      rest + (if fields[n].isPk then [fields[n]] else [])
  }

  /** `map(lambda x: all.index(x), xs)`. */
  function IndicesIn(all: seq<FieldSymbol>, xs: seq<FieldSymbol>): (r: seq<nat>)
    requires forall x :: x in xs ==> x in all
    ensures |r| == |xs|
    ensures forall j :: 0 <= j < |xs| ==> r[j] < |all| && all[r[j]] == xs[j]
  {
    if |xs| == 0 then []
    else
      var m := |xs| - 1;
      IndicesIn(all, xs[..m]) + [IndexOf(all, xs[m])]
  }

  /** The key list as the source writes it. */
  function KeysAsWritten(fields: seq<FieldSymbol>): seq<nat> {
    IndicesIn(fields, PkFields(fields))
  }

  predicate Distinct(fields: seq<FieldSymbol>) {
    forall i, j :: 0 <= i < j < |fields| ==> fields[i] != fields[j]
  }

  /** With distinct field objects (which `list.index` compares by identity),
      the source's filter-and-index computation yields exactly the ascending
      primary-key positions. */
  lemma {:induction false} KeysAsWrittenArePositions(fields: seq<FieldSymbol>)
    requires Distinct(fields)
    ensures KeysAsWritten(fields) == PkOrdinals(fields)
  {
    PrefixKeys(fields, |fields|);
    assert fields[..|fields|] == fields;
  }

  lemma {:induction false} PrefixKeys(fields: seq<FieldSymbol>, m: nat)
    requires Distinct(fields)
    requires m <= |fields|
    ensures forall f :: f in PkFields(fields[..m]) ==> f in fields
    ensures IndicesIn(fields, PkFields(fields[..m])) == PkOrdinals(fields[..m])
  {
    if m > 0 {
      var n := m - 1;
      PrefixKeys(fields, n);
      var head := PkFields(fields[..n]);
      var tail := if fields[n].isPk then [fields[n]] else [];
      PrefixStep(fields, n);
      assert PkFields(fields[..m]) == head + tail;
      assert PkOrdinals(fields[..m]) == PkOrdinals(fields[..n]) + (if fields[n].isPk then [n] else []);
      if fields[n].isPk {
        DistinctIndex(fields, n);
        IndicesInSnoc(fields, head, fields[n]);
      } else {
        assert head + tail == head;
      }
    }
  }

  /** Extending a prefix by one field extends the filtered list and the
      ordinal list by at most that field and its position. */
  lemma PrefixStep(fields: seq<FieldSymbol>, n: nat)
    requires n < |fields|
    ensures PkFields(fields[..n + 1])
         == PkFields(fields[..n]) + (if fields[n].isPk then [fields[n]] else [])
    ensures PkOrdinals(fields[..n + 1])
         == PkOrdinals(fields[..n]) + (if fields[n].isPk then [n] else [])
  {
    var pre := fields[..n + 1];
    assert pre[..n] == fields[..n];
    assert pre[n] == fields[n];
  }

  lemma DistinctIndex(fields: seq<FieldSymbol>, n: nat)
    requires Distinct(fields)
    requires n < |fields|
    ensures IndexOf(fields, fields[n]) == n
  {
  }

  lemma IndicesInSnoc(all: seq<FieldSymbol>, xs: seq<FieldSymbol>, x: FieldSymbol)
    requires forall y :: y in xs ==> y in all
    requires x in all
    ensures IndicesIn(all, xs + [x]) == IndicesIn(all, xs) + [IndexOf(all, x)]
  {
  }
}
