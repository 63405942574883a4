/** The two package walkers that feed the hasher: a directory tree and a zip archive. */
module ChartHasher {
  import opened Wrappers
  import opened ChartStream

  const MAX_CHART_FILES: nat := 20_000
  const MAX_CHART_BYTES: nat := 1024 * 1024 * 1024
  const MAX_CHART_PATH_BYTES: nat := 1_024
  const CHUNK: nat := 64 * 1024

  /** What a walk meets: a path relative to the package, its listed size and its content. */
  datatype Item = Item(path: Bytes, isFile: bool, size: nat, content: Bytes)

  function Ascii(s: string): Bytes {
    seq(|s|, i requires 0 <= i < |s| => (s[i] as int) % 256)
  }

  function Header(): Bytes {
    Ascii("beatblock-online-chart-package-v1") + [0]
  }

  // ---- Names ----

  /** Backslashes become slashes. */
  function Normalized(path: Bytes): (name: Bytes)
    ensures |name| == |path|
  {
    seq(|path|, i requires 0 <= i < |path| => if path[i] == 92 then 47 else path[i])
  }

  /** What follows the last slash. */
  function FileName(name: Bytes): Bytes {
    if name == [] || name[|name| - 1] == 47 then [] else FileName(name[..|name| - 1]) + [name[|name| - 1]]
  }

  function Lower(name: Bytes): Bytes {
    seq(|name|, i requires 0 <= i < |name| => if 65 <= name[i] <= 90 then name[i] + 32 else name[i])
  }

  predicate JunkName(file: Bytes) {
    var lower := Lower(file);
    lower == Ascii(".ds_store") || lower == Ascii("thumbs.db") || lower == Ascii("desktop.ini")
    || lower == Ascii(".bbt-import.json") || lower == Ascii(".bbt-chart-hash")
  }

  predicate Junk(item: Item) {
    JunkName(FileName(Normalized(item.path)))
  }

  predicate Counts(item: Item) {
    item.isFile && !Junk(item)
  }

  // ---- What a package consists of ----

  function EntryOf(item: Item): Entry {
    Entry(Normalized(item.path), item.size, item.content)
  }

  /** The files that count, in walk order. */
  function Wanted(items: seq<Item>): seq<Entry> {
    if items == [] then []
    else
      var before, item := Wanted(items[..|items| - 1]), items[|items| - 1];
      if Counts(item) then before + [EntryOf(item)] else before
  }

  function TotalSize(entries: seq<Entry>): nat {
    if entries == [] then 0 else TotalSize(entries[..|entries| - 1]) + entries[|entries| - 1].size
  }

  predicate ShortNames(entries: seq<Entry>) {
    forall e :: e in entries ==> |e.name| <= MAX_CHART_PATH_BYTES
  }

  predicate WithinLimits(entries: seq<Entry>) {
    ShortNames(entries) && |entries| <= MAX_CHART_FILES && TotalSize(entries) <= MAX_CHART_BYTES
  }

  /** Every file turned out as long as it was listed. */
  predicate Honest(entries: seq<Entry>) {
    forall e :: e in entries ==> e.size == |e.content|
  }

  /** A directory is held to the limits by its counted files alone. */
  predicate DirectoryAccepts(items: seq<Item>) {
    WithinLimits(Wanted(items)) && Honest(Wanted(items))
  }

  predicate ShortFile(item: Item) {
    item.isFile ==> |item.path| <= MAX_CHART_PATH_BYTES
  }

  /** An archive is held to them by all of its members: every member counts towards the number of
      files, and every file towards the path length, junk or not. */
  predicate ZipAccepts(items: seq<Item>) {
    && |items| <= MAX_CHART_FILES
    && (forall item :: item in items ==> ShortFile(item))
    && WithinLimits(Wanted(items)) && Honest(Wanted(items))
  }

  /** The bytes of a file name spell this lower-case name, in either case of each letter. */
  predicate Spells(file: Bytes, name: string) {
    |file| == |name| && forall i :: 0 <= i < |name| ==>
      file[i] == name[i] as int || ('a' <= name[i] <= 'z' && file[i] == name[i] as int - 32)
  }

  lemma SpellsIff(file: Bytes, name: string)
    requires forall c :: c in name ==> 'a' <= c <= 'z' || ' ' <= c <= '9' || c == '_'
    ensures Lower(file) == Ascii(name) <==> Spells(file, name)
  {
    if Lower(file) == Ascii(name) {
      forall i | 0 <= i < |name|
        ensures file[i] == name[i] as int || ('a' <= name[i] <= 'z' && file[i] == name[i] as int - 32)
      {
        assert Lower(file)[i] == Ascii(name)[i] && name[i] in name;
      }
    }
    if Spells(file, name) {
      forall i | 0 <= i < |name| ensures Lower(file)[i] == Ascii(name)[i] { assert name[i] in name; }
    }
  }

  /** The junk files are these five, in any case. */
  lemma JunkNameIff(file: Bytes)
    ensures JunkName(file) <==>
            Spells(file, ".ds_store") || Spells(file, "thumbs.db") || Spells(file, "desktop.ini")
            || Spells(file, ".bbt-import.json") || Spells(file, ".bbt-chart-hash")
  {
    hide Spells, Lower, Ascii;
    SpellsIff(file, ".ds_store");
    SpellsIff(file, "thumbs.db");
    SpellsIff(file, "desktop.ini");
    SpellsIff(file, ".bbt-import.json");
    SpellsIff(file, ".bbt-chart-hash");
  }

  /** A file name is what stands behind the last slash, or the whole path when there is none. */
  lemma {:induction false} FileNameIs(name: Bytes)
    ensures var file := FileName(name); var n := |name| - |file|;
            && |file| <= |name| && name[n..] == file && 47 !in file && (n == 0 || name[n - 1] == 47)
  {
    if name != [] && name[|name| - 1] != 47 {
      var front := name[..|name| - 1];
      FileNameIs(front);
      assert name == front + [name[|name| - 1]];
    }
  }

  /** A package lists exactly its files that are not junk, in walk order, each under its path with slashes for
      backslashes. */
  lemma {:induction false} WantedSplits(a: seq<Item>, b: seq<Item>)
    ensures Wanted(a + b) == Wanted(a) + Wanted(b)
    decreases |b|
  {
    hide Counts;
    if b == [] {
      assert a + b == a;
    } else {
      assert (a + b)[..|a + b| - 1] == a + b[..|b| - 1];
      WantedSplits(a, b[..|b| - 1]);
    }
  }

  lemma WantedOne(item: Item)
    ensures if item.isFile && !Junk(item)
            then |Wanted([item])| == 1
                 && var e := Wanted([item])[0];
                    e.size == item.size && e.content == item.content && |e.name| == |item.path|
                    && forall i :: 0 <= i < |item.path| ==>
                         e.name[i] == if item.path[i] == 92 then 47 else item.path[i]
            else Wanted([item]) == []
  {
    hide Junk;
    assert [item][..0] == [];
  }

  /** The limits: 20,000 files, 1 GiB in all and 1,024 bytes of path, and every file as long as listed. */
  lemma AcceptedIff(items: seq<Item>)
    ensures var files := Wanted(items);
            var fits := |files| <= 20_000 && TotalSize(files) <= 1_073_741_824
                        && forall e :: e in files ==> |e.name| <= 1_024 && e.size == |e.content|;
            && (DirectoryAccepts(items) <==> fits)
            && (ZipAccepts(items) <==>
                fits && |items| <= 20_000 && forall item :: item in items && item.isFile ==> |item.path| <= 1_024)
  {
    hide Wanted, TotalSize;
  }

  /** The stream starts with the name of the format and a zero byte. */
  lemma HeaderIs()
    ensures var name := "beatblock-online-chart-package-v1";
            |Header()| == 34 && Header()[33] == 0
            && forall i :: 0 <= i < 33 ==> Header()[i] == name[i] as int
  {
    var name := "beatblock-online-chart-package-v1";
    forall i | 0 <= i < 33 ensures Header()[i] == name[i] as int { LetterCode(name, i); }
  }

  lemma LetterCode(name: string, i: nat)
    requires i < |name| && (name[i] == '-' || '0' <= name[i] <= '9' || 'a' <= name[i] <= 'z')
    ensures Ascii(name)[i] == name[i] as int
  {
  }

  /** The same members are accepted as an archive exactly when they are accepted as a directory, are
      at most 20,000 in all, and no junk file has a long path. */
  lemma ZipIsStricterIff(items: seq<Item>)
    ensures ZipAccepts(items) <==>
      && DirectoryAccepts(items) && |items| <= MAX_CHART_FILES
      && forall item :: item in items && item.isFile && Junk(item) ==> |item.path| <= MAX_CHART_PATH_BYTES
  {
    hide Wanted, Junk, Normalized;
    forall item | item in items && Counts(item) && ShortNames(Wanted(items))
      ensures |item.path| <= MAX_CHART_PATH_BYTES
    {
      WantedHas(items, item);
      assert EntryOf(item) in Wanted(items);
    }
  }

  lemma {:induction false} WantedHas(items: seq<Item>, item: Item)
    requires item in items && Counts(item)
    ensures EntryOf(item) in Wanted(items)
    decreases |items|
  {
    hide Junk, Normalized;
    if items[|items| - 1] != item { WantedHas(items[..|items| - 1], item); }
  }

  /** Files the operating system or the importer leaves around do not show, wherever they are. */
  lemma {:induction false} JunkDoesNotShow(before: seq<Item>, junk: Item, after: seq<Item>)
    requires !Counts(junk)
    ensures Wanted(before + [junk] + after) == Wanted(before + after)
    decreases |after|
  {
    hide Counts;
    var items := before + [junk] + after;
    if after == [] {
      assert items[..|items| - 1] == before && before + after == before;
    } else {
      var n := |after| - 1;
      assert items[..|items| - 1] == before + [junk] + after[..n];
      assert (before + after)[..|before + after| - 1] == before + after[..n];
      JunkDoesNotShow(before, junk, after[..n]);
    }
  }

  /** What either walker feeds the hash. */
  function PackageBytes(items: seq<Item>): Bytes {
    Header() + Canonical(Wanted(items))
  }

  lemma AcceptedAreSized(entries: seq<Entry>)
    requires WithinLimits(entries) && Honest(entries)
    ensures AllSized(entries)
  {
    assert Pow256(4) == 0x1_0000_0000 && Pow256(8) == 256 * (256 * (256 * (256 * Pow256(4))));
    forall e | e in entries ensures Sized(e) { SizeWithinTotal(entries, e); }
  }

  lemma {:induction false} SizeWithinTotal(entries: seq<Entry>, e: Entry)
    requires e in entries
    ensures e.size <= TotalSize(entries)
    decreases |entries|
  {
    if entries[|entries| - 1] != e { SizeWithinTotal(entries[..|entries| - 1], e); }
  }

  /** Any two accepted packages, directory or archive: the same bytes are hashed exactly when the
      non-junk files have the same contents, in the same order, under every name. */
  lemma PackagesHashAlikeIff(a: seq<Item>, b: seq<Item>)
    requires DirectoryAccepts(a) || ZipAccepts(a)
    requires DirectoryAccepts(b) || ZipAccepts(b)
    ensures PackageBytes(a) == PackageBytes(b) <==> SameListing(Wanted(a), Wanted(b))
  {
    hide Wanted, Canonical, WithinLimits, Honest, SameListing, AllSized;
    AcceptedAreSized(Wanted(a));
    AcceptedAreSized(Wanted(b));
    CanonicalIff(Wanted(a), Wanted(b));
    if PackageBytes(a) == PackageBytes(b) { PrefixOf(Header(), Canonical(Wanted(a)), Header(), Canonical(Wanted(b))); }
  }

  /** When no name repeats, as in any directory, that is when the non-junk files are the same. */
  lemma DistinctPackagesHashAlikeIff(a: seq<Item>, b: seq<Item>)
    requires DirectoryAccepts(a) || ZipAccepts(a)
    requires DirectoryAccepts(b) || ZipAccepts(b)
    requires DistinctNames(Wanted(a)) && DistinctNames(Wanted(b))
    ensures PackageBytes(a) == PackageBytes(b) <==> SameFiles(Wanted(a), Wanted(b))
  {
    hide Wanted, Canonical, WithinLimits, Honest, DistinctNames, SameFiles, SameListing, AllSized;
    AcceptedAreSized(Wanted(a));
    AcceptedAreSized(Wanted(b));
    CanonicalIff(Wanted(a), Wanted(b));
    SameBytesIffSameFiles(Wanted(a), Wanted(b));
    PackagesHashAlikeIff(a, b);
  }

  // ---- The hasher ----

  datatype Result = Hashed(count: nat) | TooLong | TooMany | Changed

  class PackageHasher {
    /** Everything the digest has been fed so far. */
    var fed: Bytes

    constructor ()
      ensures fed == Header()
    {
      fed := Header();
    }

    method Update(bytes: Bytes)
      modifies this
      ensures fed == old(fed) + bytes
    {
      fed := fed + bytes;
    }

    /** Name, listed size and then the content, read in chunks of whatever length arrives. */
    method HashEntry(e: Entry, arrives: nat -> nat) returns (ok: bool)
      modifies this
      ensures ok <==> e.size == |e.content|
      ensures fed == old(fed) + EntryBytes(e)
    {
      hide LittleEndian;
      Update(LittleEndian(|e.name|, 8));
      Update(e.name);
      Update(LittleEndian(e.size, 8));
      ghost var start := fed;
      var total, turns := 0, 0;
      while total < |e.content|
        invariant total <= |e.content| && fed == start + e.content[..total]
        decreases |e.content| - total
      {
        var read := ChunkLength(arrives(turns), |e.content| - total);
        assert e.content[..total] + e.content[total..total + read] == e.content[..total + read];
        Update(e.content[total..total + read]);
        total := total + read;
        turns := turns + 1;
      }
      assert e.content[..total] == e.content;
      ok := total == e.size;
    }

    /** The sorted entries one after the other; the first that changed ends it. */
    method HashSorted(entries: seq<Entry>, arrives: nat -> nat) returns (ok: bool)
      modifies this
      ensures ok <==> Honest(entries)
      ensures ok ==> fed == old(fed) + Stream(entries)
    {
      hide EntryBytes;
      var i := 0;
      while i < |entries|
        invariant i <= |entries| && Honest(entries[..i]) && fed + Stream(entries[i..]) == old(fed) + Stream(entries)
      {
        assert entries[i] in entries;
        assert entries[i..][1..] == entries[i + 1..];
        ghost var before := fed;
        ok := HashEntry(entries[i], arrives);
        if !ok { return; }
        assert before + (EntryBytes(entries[i]) + Stream(entries[i + 1..])) == fed + Stream(entries[i + 1..]);
        i := i + 1;
      }
      assert entries[..i] == entries && entries[i..] == [];
      ok := true;
    }

    method HashDirectory(items: seq<Item>, arrives: nat -> nat) returns (r: Result)
      modifies this
      ensures r.Hashed? <==> DirectoryAccepts(items)
      ensures r.Hashed? ==> fed == old(fed) + Canonical(Wanted(items)) && r.count == |Wanted(items)|
    {
      hide Junk, Normalized, Sort, Stream, Wanted, TotalSize, Header;
      NothingWanted(items);
      var entries: seq<Entry> := [];
      var total, i := 0, 0;
      while i < |items|
        invariant i <= |items| && entries == Wanted(items[..i]) && total == TotalSize(entries)
          && WithinLimits(entries) && fed == old(fed)
      {
        WantedGrows(items, i);
        if items[i].isFile && !Junk(items[i]) {
          var name := Normalized(items[i].path);
          if |name| > MAX_CHART_PATH_BYTES {
            assert EntryOf(items[i]) in Wanted(items[..i + 1]);
            return TooLong;
          }
          total := total + items[i].size;
          TotalGrows(entries, EntryOf(items[i]));
          if |entries| >= MAX_CHART_FILES || total > MAX_CHART_BYTES { return TooMany; }
          entries := entries + [EntryOf(items[i])];
        }
        i := i + 1;
      }
      assert items[..i] == items;
      SortedHonest(entries);
      var ok := HashSorted(Sort(entries), arrives);
      if !ok { return Changed; }
      return Hashed(|entries|);
    }

    method HashZip(items: seq<Item>, arrives: nat -> nat) returns (r: Result)
      modifies this
      ensures r.Hashed? <==> ZipAccepts(items)
      ensures r.Hashed? ==> fed == old(fed) + Canonical(Wanted(items)) && r.count == |Wanted(items)|
    {
      hide Junk, Normalized, Sort, Stream, Wanted, TotalSize, Header;
      NothingWanted(items);
      if |items| > MAX_CHART_FILES { return TooMany; }
      var entries: seq<Entry> := [];
      var total, i := 0, 0;
      while i < |items|
        invariant i <= |items| && entries == Wanted(items[..i]) && total == TotalSize(entries)
          && WithinLimits(entries) && fed == old(fed)
        invariant forall j :: 0 <= j < i ==> ShortFile(items[j])
      {
        WantedGrows(items, i);
        if items[i].isFile {
          var name := Normalized(items[i].path);
          if |name| > MAX_CHART_PATH_BYTES { assert !ShortFile(items[i]); return TooLong; }
          if !Junk(items[i]) {
            total := total + items[i].size;
            TotalGrows(entries, EntryOf(items[i]));
            if |entries| >= MAX_CHART_FILES || total > MAX_CHART_BYTES { return TooMany; }
            entries := entries + [EntryOf(items[i])];
          }
        }
        i := i + 1;
      }
      assert items[..i] == items;
      SortedHonest(entries);
      var ok := HashSorted(Sort(entries), arrives);
      if !ok { return Changed; }
      return Hashed(|entries|);
    }
  }

  /** A read returns between one byte and a whole buffer, and never more than is left. */
  function ChunkLength(offered: nat, left: nat): (read: nat)
    requires left > 0
    ensures 1 <= read <= left && read <= 65_536
  {
    var wished := if offered == 0 then 1 else if offered > CHUNK then CHUNK else offered;
    if wished > left then left else wished
  }

  lemma NothingWanted(items: seq<Item>)
    ensures Wanted(items[..0]) == [] && TotalSize([]) == 0
  {
  }

  lemma TotalGrows(entries: seq<Entry>, e: Entry)
    ensures TotalSize(entries + [e]) == TotalSize(entries) + e.size
  {
    assert (entries + [e])[..|entries|] == entries;
  }

  lemma SortedHonest(entries: seq<Entry>)
    ensures Honest(Sort(entries)) <==> Honest(entries)
  {
    hide Sort, Sorted, Under;
    SortIsSorted(entries);
    assert forall e :: e in Sort(entries) <==> e in multiset(Sort(entries));
    assert forall e :: e in entries <==> e in multiset(entries);
  }

  lemma {:induction false} WantedPrefix(items: seq<Item>, n: nat)
    requires n <= |items|
    ensures Wanted(items[..n]) <= Wanted(items)
    ensures |Wanted(items[..n])| <= |Wanted(items)| && TotalSize(Wanted(items[..n])) <= TotalSize(Wanted(items))
    decreases |items|
  {
    hide Counts;
    if n < |items| {
      assert items[..|items| - 1][..n] == items[..n];
      WantedPrefix(items[..|items| - 1], n);
      var before, item := Wanted(items[..|items| - 1]), items[|items| - 1];
      assert (before + [EntryOf(item)])[..|before|] == before;
    } else {
      assert items[..n] == items;
    }
  }

  /** One more item adds at most itself, and what a prefix exceeds the whole exceeds too. */
  lemma WantedGrows(items: seq<Item>, i: nat)
    requires i < |items|
    ensures Wanted(items[..i + 1]) == Wanted(items[..i]) + if Counts(items[i]) then [EntryOf(items[i])] else []
    ensures Wanted(items[..i + 1]) <= Wanted(items) && TotalSize(Wanted(items[..i + 1])) <= TotalSize(Wanted(items))
  {
    hide Counts, TotalSize;
    assert items[..i + 1][..i] == items[..i];
    WantedPrefix(items, i + 1);
  }
}
