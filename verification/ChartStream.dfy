/** The byte stream a chart package is hashed over: canonical, order-free and injective. */
module ChartStream {
  import opened Wrappers

  type Byte = b: int | 0 <= b < 256
  type Bytes = seq<Byte>

  /** A file of a package: its name inside the package, its listed size, and its content. */
  datatype Entry = Entry(name: Bytes, size: nat, content: Bytes)

  // ---- Fixed-width lengths ----

  function Pow256(k: nat): nat {
    if k == 0 then 1 else 256 * Pow256(k - 1)
  }

  /** The `k` low bytes of a number, least significant first. */
  function LittleEndian(n: nat, k: nat): (bytes: Bytes)
    ensures |bytes| == k
  {
    if k == 0 then [] else [n % 256] + LittleEndian(n / 256, k - 1)
  }

  function FromLittleEndian(bytes: Bytes): nat {
    if bytes == [] then 0 else bytes[0] + 256 * FromLittleEndian(bytes[1..])
  }

  lemma {:induction false} LengthRoundTrip(n: nat, k: nat)
    requires n < Pow256(k)
    ensures FromLittleEndian(LittleEndian(n, k)) == n
    decreases k
  {
    if k > 0 {
      LengthRoundTrip(n / 256, k - 1);
      assert LittleEndian(n, k)[1..] == LittleEndian(n / 256, k - 1);
    }
  }

  // ---- The stream ----

  /** The listed size is true, and lengths fit 64 bits. */
  predicate Sized(e: Entry) {
    e.size == |e.content| && |e.name| < Pow256(8) && |e.content| < Pow256(8)
  }

  predicate AllSized(entries: seq<Entry>) {
    forall e :: e in entries ==> Sized(e)
  }

  function EntryBytes(e: Entry): Bytes {
    LittleEndian(|e.name|, 8) + e.name + LittleEndian(e.size, 8) + e.content
  }

  function Stream(entries: seq<Entry>): Bytes {
    if entries == [] then [] else EntryBytes(entries[0]) + Stream(entries[1..])
  }

  lemma PrefixOf(a: Bytes, x: Bytes, b: Bytes, y: Bytes)
    requires |a| == |b| && a + x == b + y
    ensures a == b && x == y
  {
    assert a == (a + x)[..|a|] && b == (b + y)[..|b|];
    assert x == (a + x)[|a|..] && y == (b + y)[|b|..];
  }

  /** A length-prefixed field can be cut off the front of a stream in one way only. */
  lemma FieldIsDecodable(a: Bytes, x: Bytes, b: Bytes, y: Bytes, k: nat)
    requires |a| < Pow256(k) && |b| < Pow256(k)
    requires LittleEndian(|a|, k) + a + x == LittleEndian(|b|, k) + b + y
    ensures a == b && x == y
  {
    hide LittleEndian, FromLittleEndian, Pow256;
    var la, lb := LittleEndian(|a|, k), LittleEndian(|b|, k);
    assert la + a + x == la + (a + x) && lb + b + y == lb + (b + y);
    PrefixOf(la, a + x, lb, b + y);
    LengthRoundTrip(|a|, k);
    LengthRoundTrip(|b|, k);
    PrefixOf(a, x, b, y);
  }

  lemma EntryIsDecodable(e: Entry, x: Bytes, f: Entry, y: Bytes)
    requires Sized(e) && Sized(f) && EntryBytes(e) + x == EntryBytes(f) + y
    ensures e == f && x == y
  {
    hide LittleEndian, Pow256;
    var restE, restF := LittleEndian(|e.content|, 8) + e.content + x, LittleEndian(|f.content|, 8) + f.content + y;
    assert EntryBytes(e) + x == LittleEndian(|e.name|, 8) + e.name + restE;
    assert EntryBytes(f) + y == LittleEndian(|f.name|, 8) + f.name + restF;
    FieldIsDecodable(e.name, restE, f.name, restF, 8);
    FieldIsDecodable(e.content, x, f.content, y, 8);
  }

  lemma EntryBytesNonEmpty(e: Entry)
    ensures |EntryBytes(e)| >= 16
  {
    hide LittleEndian;
  }

  /** Entry lists with the same stream are the same list. */
  lemma {:induction false} StreamIsInjective(a: seq<Entry>, b: seq<Entry>)
    requires AllSized(a) && AllSized(b) && Stream(a) == Stream(b)
    ensures a == b
    decreases |a|
  {
    hide EntryBytes, Sized;
    if a == [] {
      if b != [] { EntryBytesNonEmpty(b[0]); }
    } else if b == [] {
      EntryBytesNonEmpty(a[0]);
    } else {
      assert a[0] in a && b[0] in b;
      EntryIsDecodable(a[0], Stream(a[1..]), b[0], Stream(b[1..]));
      assert forall e :: e in a[1..] ==> e in a;
      assert forall e :: e in b[1..] ==> e in b;
      StreamIsInjective(a[1..], b[1..]);
      assert a == [a[0]] + a[1..] && b == [b[0]] + b[1..];
    }
  }

  /** An entry is the length of its name in eight bytes, least significant first, the name, the listed size in the
      same form, and the content. */
  lemma EntryLayout(e: Entry)
    ensures var bytes, n := EntryBytes(e), |e.name|;
            && |bytes| == 16 + n + |e.content|
            && (|e.name| < 0x1_0000_0000_0000_0000 ==> FromLittleEndian(bytes[..8]) == |e.name|)
            && bytes[8..8 + n] == e.name && bytes[16 + n..] == e.content
            && (e.size < 0x1_0000_0000_0000_0000 ==> FromLittleEndian(bytes[8 + n..16 + n]) == e.size)
  {
    EightBytes();
    hide LittleEndian, FromLittleEndian, Pow256;
    var bytes, n := EntryBytes(e), |e.name|;
    assert bytes[..8] == LittleEndian(n, 8) && bytes[8 + n..16 + n] == LittleEndian(e.size, 8);
    if n < 0x1_0000_0000_0000_0000 { LengthRoundTrip(n, 8); }
    if e.size < 0x1_0000_0000_0000_0000 { LengthRoundTrip(e.size, 8); }
  }

  lemma EightBytes()
    ensures Pow256(8) == 0x1_0000_0000_0000_0000
  {
    assert Pow256(4) == 0x1_0000_0000 && Pow256(8) == 256 * (256 * (256 * (256 * Pow256(4))));
  }

  // ---- Sorting by name ----

  /** Byte order. */
  predicate Before(a: Bytes, b: Bytes) {
    if b == [] then false
    else if a == [] then true
    else if a[0] != b[0] then a[0] < b[0]
    else Before(a[1..], b[1..])
  }

  /** One name comes before another exactly when it is a proper prefix of it or, at the first byte in which they
      differ, has the smaller one. */
  lemma {:induction false} BeforeIff(a: Bytes, b: Bytes)
    ensures Before(a, b) <==>
            exists k: nat :: k <= |a| && k <= |b| && a[..k] == b[..k]
              && ((k == |a| && k < |b|) || (k < |a| && k < |b| && a[k] < b[k]))
    decreases |a|
  {
    if a == [] || b == [] || a[0] != b[0] {
      assert a[..0] == b[..0];
      forall k | 0 < k <= |a| && k <= |b| ensures a[..k] != b[..k] {
        assert a[..k][0] == a[0] && b[..k][0] == b[0];
      }
    } else {
      BeforeIff(a[1..], b[1..]);
      if k: nat :| k <= |a| && k <= |b| && a[..k] == b[..k]
                   && ((k == |a| && k < |b|) || (k < |a| && k < |b| && a[k] < b[k])) {
        assert a[1..][..k - 1] == a[..k][1..] && b[1..][..k - 1] == b[..k][1..];
      }
      if k: nat :| k <= |a[1..]| && k <= |b[1..]| && a[1..][..k] == b[1..][..k]
                   && ((k == |a[1..]| && k < |b[1..]|) || (k < |a[1..]| && k < |b[1..]| && a[1..][k] < b[1..][k])) {
        assert a[..k + 1] == [a[0]] + a[1..][..k] && b[..k + 1] == [b[0]] + b[1..][..k];
      }
    }
  }

  lemma {:induction false} BeforeIsTotal(a: Bytes, b: Bytes)
    ensures Before(a, b) || Before(b, a) || a == b
    ensures !(Before(a, b) && Before(b, a)) && !Before(a, a)
    decreases |a|
  {
    if a != [] && b != [] && a[0] == b[0] {
      BeforeIsTotal(a[1..], b[1..]);
      assert a == [a[0]] + a[1..] && b == [b[0]] + b[1..];
    }
    if a != [] && b != [] { BeforeIsTotal(a[1..], a[1..]); }
    if a != [] && b == [] { BeforeIsTotal(a[1..], a[1..]); }
  }

  lemma {:induction false} BeforeIsTransitive(a: Bytes, b: Bytes, c: Bytes)
    requires Before(a, b) && Before(b, c)
    ensures Before(a, c)
    decreases |a|
  {
    if a != [] && b != [] && c != [] && a[0] == b[0] && b[0] == c[0] { BeforeIsTransitive(a[1..], b[1..], c[1..]); }
  }

  /** Nothing before it in the list has a later name. */
  predicate Sorted(entries: seq<Entry>) {
    forall i, j :: 0 <= i < j < |entries| ==> !Before(entries[j].name, entries[i].name)
  }

  /** Stable: an entry goes behind those with its name. */
  function Insert(e: Entry, sorted: seq<Entry>): seq<Entry> {
    if sorted == [] then [e]
    else if Before(e.name, sorted[|sorted| - 1].name) then Insert(e, sorted[..|sorted| - 1]) + [sorted[|sorted| - 1]]
    else sorted + [e]
  }

  function Sort(entries: seq<Entry>): seq<Entry> {
    if entries == [] then [] else Insert(entries[|entries| - 1], Sort(entries[..|entries| - 1]))
  }

  /** The entries under one name, in list order. */
  function Under(entries: seq<Entry>, name: Bytes): seq<Entry> {
    if entries == [] then []
    else Under(entries[..|entries| - 1], name) + if entries[|entries| - 1].name == name then [entries[|entries| - 1]]
      else []
  }

  lemma {:induction false} UnderConcat(a: seq<Entry>, b: seq<Entry>, name: Bytes)
    ensures Under(a + b, name) == Under(a, name) + Under(b, name)
    decreases |b|
  {
    if b == [] {
      assert a + b == a;
    } else {
      assert (a + b)[..|a + b| - 1] == a + b[..|b| - 1];
      UnderConcat(a, b[..|b| - 1], name);
    }
  }

  lemma UnderOne(e: Entry, name: Bytes)
    ensures Under([e], name) == if e.name == name then [e] else []
  {
    assert [e][..0] == [];
  }

  lemma {:induction false} InsertPermutes(e: Entry, sorted: seq<Entry>)
    ensures multiset(Insert(e, sorted)) == multiset(sorted) + multiset{e}
    decreases |sorted|
  {
    hide Before;
    if sorted != [] {
      var n := |sorted| - 1;
      assert sorted == sorted[..n] + [sorted[n]];
      InsertPermutes(e, sorted[..n]);
    }
  }

  /** No entry of the list has a later name. */
  predicate AllUpTo(entries: seq<Entry>, name: Bytes) {
    forall x :: x in entries ==> !Before(name, x.name)
  }

  lemma SortedSnoc(entries: seq<Entry>, last: Entry)
    requires Sorted(entries) && AllUpTo(entries, last.name)
    ensures Sorted(entries + [last])
  {
    hide Before;
  }

  lemma SortedFront(entries: seq<Entry>)
    requires Sorted(entries) && entries != []
    ensures Sorted(entries[..|entries| - 1]) && AllUpTo(entries[..|entries| - 1], entries[|entries| - 1].name)
  {
    hide Before;
  }

  lemma {:induction false} InsertIsSorted(e: Entry, sorted: seq<Entry>)
    requires Sorted(sorted)
    ensures Sorted(Insert(e, sorted))
    decreases |sorted|
  {
    hide Before, Sorted;
    if sorted == [] {
      SortedOne(e);
    } else {
      var n := |sorted| - 1;
      var front, last := sorted[..n], sorted[n];
      SortedFront(sorted);
      if Before(e.name, last.name) {
        InsertIsSorted(e, front);
        InsertPermutes(e, front);
        BeforeIsTotal(e.name, last.name);
        forall x | x in Insert(e, front) ensures !Before(last.name, x.name) { assert x in multiset(Insert(e, front)); }
        SortedSnoc(Insert(e, front), last);
      } else {
        forall x | x in sorted ensures !Before(e.name, x.name) {
          assert x == last || x in front;
          NotBefore(e.name, last.name, x.name);
        }
        SortedSnoc(sorted, e);
      }
    }
  }

  lemma SortedOne(e: Entry)
    ensures Sorted([e])
  {
  }

  lemma {:induction false} InsertIsStable(e: Entry, sorted: seq<Entry>, name: Bytes)
    ensures Under(Insert(e, sorted), name) == Under(sorted, name) + if e.name == name then [e] else []
    decreases |sorted|
  {
    hide Before, Under;
    UnderOne(e, name);
    EmptyUnder(name);
    if sorted == [] {
      assert [] + [e] == [e];
    } else {
      var n := |sorted| - 1;
      var front, last := sorted[..n], sorted[n];
      assert sorted == front + [last];
      if Before(e.name, last.name) {
        InsertIsStable(e, front, name);
        UnderConcat(Insert(e, front), [last], name);
        UnderConcat(front, [last], name);
        UnderOne(last, name);
        BeforeIsTotal(e.name, e.name);
      } else {
        UnderConcat(sorted, [e], name);
      }
    }
  }

  lemma NotBefore(a: Bytes, b: Bytes, c: Bytes)
    requires !Before(a, b) && (!Before(b, c) || b == c)
    ensures !Before(a, c)
  {
    BeforeIsTotal(a, b);
    BeforeIsTotal(b, c);
    if Before(a, c) {
      if a == b || b == c { return; }
      BeforeIsTransitive(b, a, c);
    }
  }

  lemma {:induction false} SortIsSorted(entries: seq<Entry>)
    ensures Sorted(Sort(entries)) && multiset(Sort(entries)) == multiset(entries)
    ensures forall name :: Under(Sort(entries), name) == Under(entries, name)
    decreases |entries|
  {
    hide Insert;
    if entries != [] {
      var n := |entries| - 1;
      SortIsSorted(entries[..n]);
      InsertIsSorted(entries[n], Sort(entries[..n]));
      InsertPermutes(entries[n], Sort(entries[..n]));
      assert entries == entries[..n] + [entries[n]];
      forall name ensures Under(Sort(entries), name) == Under(entries, name) {
        InsertIsStable(entries[n], Sort(entries[..n]), name);
      }
    }
  }

  lemma {:induction false} UnderFirst(entries: seq<Entry>)
    requires entries != []
    ensures Under(entries, entries[0].name) != [] && Under(entries, entries[0].name)[0] == entries[0]
    ensures forall name ::
              Under(entries, name) == (if entries[0].name == name then [entries[0]] else []) + Under(entries[1..], name)
  {
    hide Under;
    forall name
      ensures Under(entries, name) == (if entries[0].name == name then [entries[0]] else []) + Under(entries[1..], name)
    {
      assert entries == [entries[0]] + entries[1..];
      UnderConcat([entries[0]], entries[1..], name);
      UnderOne(entries[0], name);
    }
  }

  lemma {:induction false} UnderMeansPresent(entries: seq<Entry>, name: Bytes)
    requires Under(entries, name) != []
    ensures exists i :: 0 <= i < |entries| && entries[i].name == name
    decreases |entries|
  {
    var n := |entries| - 1;
    if entries[n].name != name {
      UnderMeansPresent(entries[..n], name);
      var i :| 0 <= i < n && entries[..n][i].name == name;
      assert entries[i].name == name;
    }
  }

  /** A sorted list is determined by what it lists under each name. */
  lemma {:induction false} SortedIsUnique(a: seq<Entry>, b: seq<Entry>)
    requires Sorted(a) && Sorted(b) && forall name :: Under(a, name) == Under(b, name)
    ensures a == b
    decreases |a|
  {
    hide Under, Before;
    if a == [] {
      if b != [] { UnderFirst(b); EmptyUnder(b[0].name); }
    } else if b == [] {
      UnderFirst(a);
      EmptyUnder(a[0].name);
    } else {
      UnderFirst(a);
      UnderFirst(b);
      UnderMeansPresent(b, a[0].name);
      UnderMeansPresent(a, b[0].name);
      assert a[0].name == b[0].name by {
        var i :| 0 <= i < |b| && b[i].name == a[0].name;
        var j :| 0 <= j < |a| && a[j].name == b[0].name;
        BeforeIsTotal(a[0].name, b[0].name);
      }
      forall name ensures Under(a[1..], name) == Under(b[1..], name) {
        var head := if a[0].name == name then [a[0]] else [];
        assert head + Under(a[1..], name) == head + Under(b[1..], name);
        assert Under(a[1..], name) == (head + Under(a[1..], name))[|head|..];
        assert Under(b[1..], name) == (head + Under(b[1..], name))[|head|..];
      }
      SortedIsUnique(a[1..], b[1..]);
      assert a == [a[0]] + a[1..] && b == [b[0]] + b[1..];
    }
  }

  lemma EmptyUnder(name: Bytes)
    ensures Under([], name) == []
  {
  }

  // ---- The canonical stream of a package ----

  /** The same contents in the same order under every name. */
  ghost predicate SameListing(a: seq<Entry>, b: seq<Entry>) {
    forall name :: Under(a, name) == Under(b, name)
  }

  ghost predicate SameFiles(a: seq<Entry>, b: seq<Entry>) {
    forall e :: e in a <==> e in b
  }

  function Canonical(entries: seq<Entry>): Bytes {
    Stream(Sort(entries))
  }

  /** Two packages feed the hash the same bytes exactly when they list the same contents, in the same
      order, under every name: nothing else about the traversal shows. */
  lemma CanonicalIff(a: seq<Entry>, b: seq<Entry>)
    requires AllSized(a) && AllSized(b)
    ensures Canonical(a) == Canonical(b) <==> SameListing(a, b)
  {
    hide Sort, Stream, Under, Sorted, Sized;
    SortIsSorted(a);
    SortIsSorted(b);
    if Canonical(a) == Canonical(b) {
      SortedSized(a);
      SortedSized(b);
      StreamIsInjective(Sort(a), Sort(b));
      forall name ensures Under(a, name) == Under(b, name) {
        assert Under(Sort(a), name) == Under(a, name) && Under(Sort(b), name) == Under(b, name);
      }
    }
    if SameListing(a, b) {
      forall name ensures Under(Sort(a), name) == Under(Sort(b), name) { assert Under(a, name) == Under(b, name); }
      SortedIsUnique(Sort(a), Sort(b));
    }
  }

  lemma SortedSized(entries: seq<Entry>)
    requires AllSized(entries)
    ensures AllSized(Sort(entries))
  {
    hide Sort, Sized;
    SortIsSorted(entries);
    forall e | e in Sort(entries) ensures Sized(e) { assert e in multiset(Sort(entries)); }
  }

  predicate DistinctNames(entries: seq<Entry>) {
    forall i, j :: 0 <= i < j < |entries| ==> entries[i].name != entries[j].name
  }

  lemma {:induction false} UnderOfDistinct(entries: seq<Entry>, name: Bytes)
    requires DistinctNames(entries)
    ensures |Under(entries, name)| <= 1
    ensures forall e: Entry :: e.name == name ==> (Under(entries, name) == [e] <==> e in entries)
    decreases |entries|
  {
    if entries != [] {
      var n := |entries| - 1;
      UnderOfDistinct(entries[..n], name);
      assert entries == entries[..n] + [entries[n]];
      if entries[n].name == name && Under(entries[..n], name) != [] {
        UnderMeansPresent(entries[..n], name);
        assert false;
      }
      if entries[n].name == name {
        assert Under(entries, name) == [entries[n]];
        forall e | e in entries && e.name == name ensures e == entries[n] {
          var i :| 0 <= i < |entries| && entries[i] == e;
        }
      }
    }
  }

  lemma {:induction false} UnderNamed(entries: seq<Entry>, name: Bytes)
    ensures forall e :: e in Under(entries, name) ==> e.name == name && e in entries
    decreases |entries|
  {
    if entries != [] { UnderNamed(entries[..|entries| - 1], name); }
  }

  /** With distinct names the hash input is the set of files: same set, same bytes, whatever the
      traversal order; different set, different bytes. */
  lemma SameBytesIffSameFiles(a: seq<Entry>, b: seq<Entry>)
    requires AllSized(a) && AllSized(b) && DistinctNames(a) && DistinctNames(b)
    ensures Canonical(a) == Canonical(b) <==> SameFiles(a, b)
  {
    hide Canonical, Under, Sized, DistinctNames;
    CanonicalIff(a, b);
    if SameListing(a, b) {
      forall e ensures e in a <==> e in b {
        UnderOfDistinct(a, e.name);
        UnderOfDistinct(b, e.name);
        assert Under(a, e.name) == [e] <==> Under(b, e.name) == [e];
      }
    }
    if SameFiles(a, b) {
      forall name ensures Under(a, name) == Under(b, name) {
        UnderOfDistinct(a, name);
        UnderOfDistinct(b, name);
        if Under(a, name) != [] {
          UnderNamed(a, name);
          assert Under(a, name) == [Under(a, name)[0]] && Under(a, name)[0] in b;
        }
        if Under(b, name) != [] {
          UnderNamed(b, name);
          assert Under(b, name) == [Under(b, name)[0]] && Under(b, name)[0] in a;
        }
      }
    }
  }

  /** Two entries under one name with different contents: the order of the archive shows. */
  lemma RepeatedNameShowsOrder(c: Entry, d: Entry)
    requires c != d && c.name == d.name && Sized(c) && Sized(d)
    ensures Canonical([c, d]) != Canonical([d, c])
  {
    hide Canonical, Under, Sized;
    var a, b := [c, d], [d, c];
    CanonicalIff(a, b);
    UnderFirst(a);
    UnderFirst(b);
  }
}
