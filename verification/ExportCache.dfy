/** Writing a batch of export files through the cache that skips unchanged content. */
module ExportCache {
  import opened Wrappers

  type Path = string
  type Files = map<Path, string>

  datatype Write = Write(path: Path, content: string)

  // ---- What a batch writes, in order ----

  datatype Gameplay = Gameplay(playerName: string, songName: string, accuracy: string, combo: string, misses: string,
                               rank: string, lobbyName: string, json: string)

  /** The room part is a list of writes of its own, ended by the state file. */
  datatype Batch = Batch(room: Option<seq<Write>>, gameplay: Option<Gameplay>, featured: Option<Option<Gameplay>>,
      metadata: Option<string>)

  function GameplayWrites(g: Gameplay): seq<Write> {
    [Write("player_name.txt", g.playerName), Write("song_name.txt", g.songName), Write("accuracy.txt", g.accuracy),
     Write("combo.txt", g.combo), Write("misses.txt", g.misses), Write("rank.txt", g.rank),
     Write("lobby_name.txt", g.lobbyName), Write("gameplay.json", g.json)]
  }

  function FeaturedWrites(name: string, accuracy: string, combo: string, misses: string, rank: string): seq<Write> {
    [Write("featured_name.txt", name), Write("featured_accuracy.txt", accuracy), Write("featured_combo.txt", combo),
     Write("featured_misses.txt", misses), Write("featured_rank.txt", rank)]
  }

  /** What was featured, or empty texts when nothing is any more. */
  function FeaturedPart(b: Batch): seq<Write> {
    match b.featured
    case None => []
    case Some(None) => FeaturedWrites("", "", "", "", "")
    case Some(Some(g)) => FeaturedWrites(g.playerName, g.accuracy, g.combo, g.misses, g.rank)
  }

  function Writes(b: Batch): seq<Write> {
    (if b.room.Some? then b.room.value else [])
    + (if b.gameplay.Some? then GameplayWrites(b.gameplay.value) else [])
    + FeaturedPart(b)
    + (if b.metadata.Some? then [Write("broadcast_metadata.json", b.metadata.value)] else [])
  }

  // ---- Plain and cached writing ----

  /** Every write carried out, without a cache and without a failure. */
  function Written(files: Files, writes: seq<Write>): Files {
    if writes == [] then files
    else Written(files, writes[..|writes| - 1])[writes[|writes| - 1].path := writes[|writes| - 1].content]
  }

  /** Files, cache and counters; `ok` turns false at the first failing write and stays so. */
  datatype Disk = Disk(files: Files, cache: Files, count: nat, bytes: nat, ok: bool)

  /** A write whose content is cached succeeds without touching the disk. */
  function WriteOne(d: Disk, w: Write, fails: bool): Disk {
    if !d.ok || (w.path in d.cache && d.cache[w.path] == w.content) then d
    else if fails then d.(ok := false)
    else Disk(d.files[w.path := w.content], d.cache[w.path := w.content], d.count + 1, d.bytes + |w.content|, true)
  }

  function WriteAll(d: Disk, writes: seq<Write>, faults: nat -> bool): Disk {
    if writes == [] then d
    else WriteOne(WriteAll(d, writes[..|writes| - 1], faults), writes[|writes| - 1], faults(|writes| - 1))
  }

  /** What the cache remembers is what the file holds. */
  predicate Coherent(d: Disk) {
    forall p :: p in d.cache ==> p in d.files && d.files[p] == d.cache[p]
  }

  /** How many writes a batch got through before the first that failed. */
  function Reached(d: Disk, writes: seq<Write>, faults: nat -> bool): (n: nat)
    ensures n <= |writes|
  {
    if writes == [] then 0
    else
      var before := WriteAll(d, writes[..|writes| - 1], faults);
      if WriteOne(before, writes[|writes| - 1], faults(|writes| - 1)).ok then |writes|
        else Reached(d, writes[..|writes| - 1], faults)
  }

  /** Skipping is invisible: the files are those of plainly carrying out the writes up to the first
      failure, nothing after it is done, and the batch succeeds exactly when none failed. */
  lemma {:induction false} SkippingRefinesPlainWrites(d: Disk, writes: seq<Write>, faults: nat -> bool)
    requires Coherent(d) && d.ok
    ensures var e := WriteAll(d, writes, faults); var n := Reached(d, writes, faults);
            && Coherent(e) && e.files == Written(d.files, writes[..n])
            && (e.ok <==> n == |writes|)
            && (!e.ok ==> faults(n) && !(writes[n].path in e.cache && e.cache[writes[n].path] == writes[n].content))
            && d.count <= e.count <= d.count + n
  {
    hide WriteOne, Coherent;
    if writes != [] {
      var m := |writes| - 1;
      SkippingRefinesPlainWrites(d, writes[..m], faults);
      OneWrite(WriteAll(d, writes[..m], faults), writes[m], faults(m));
      var before, n := WriteAll(d, writes[..m], faults), Reached(d, writes, faults);
      if before.ok {
        assert Reached(d, writes[..m], faults) == m;
        assert writes[..m][..m] == writes[..m];
        if n == |writes| { assert writes[..n] == writes; }
        else { ReachedBeforeFailure(d, writes, faults, m); assert n == m; }
      } else {
        assert writes[..m][..n] == writes[..n];
      }
    }
  }

  /** One write through the cache leaves the files a plain write would, unless it fails. */
  lemma OneWrite(d: Disk, w: Write, fails: bool)
    requires Coherent(d)
    ensures var e := WriteOne(d, w, fails);
            && Coherent(e) && d.count <= e.count <= d.count + 1
            && (!d.ok ==> e == d)
            && (d.ok && e.ok ==> e.files == d.files[w.path := w.content])
            && (d.ok && !e.ok ==> fails && e == d.(ok := false))
            && (d.ok && !e.ok ==> !(w.path in e.cache && e.cache[w.path] == w.content))
  {
  }

  lemma {:induction false} ReachedBeforeFailure(d: Disk, writes: seq<Write>, faults: nat -> bool, m: nat)
    requires m <= |writes| && WriteAll(d, writes[..m], faults).ok
    ensures Reached(d, writes[..m], faults) == m
  {
    if m > 0 { assert writes[..m][..m - 1] == writes[..m - 1] && writes[..m][m - 1] == writes[m - 1]; }
  }

  /** Writing the same batch again, with nothing changed on disk, touches nothing and cannot fail. */
  lemma {:induction false} RepeatIsFree(d: Disk, writes: seq<Write>, faults: nat -> bool)
    requires d.ok && forall w :: w in writes ==> w.path in d.cache && d.cache[w.path] == w.content
    ensures WriteAll(d, writes, faults) == d
    decreases |writes|
  {
    if writes != [] { RepeatIsFree(d, writes[..|writes| - 1], faults); }
  }

  // ---- What is in which file ----

  /** The last write to a path decides. */
  lemma {:induction false} LastWriteDecides(files: Files, writes: seq<Write>, i: nat)
    requires i < |writes| && forall j :: i < j < |writes| ==> writes[j].path != writes[i].path
    ensures writes[i].path in Written(files, writes) && Written(files, writes)[writes[i].path] == writes[i].content
    decreases |writes|
  {
    if i < |writes| - 1 { LastWriteDecides(files, writes[..|writes| - 1], i); }
  }

  predicate Holds(files: Files, p: Path, content: string) {
    p in files && files[p] == content
  }

  predicate ShowsGameplay(files: Files, g: Gameplay) {
    && Holds(files, "player_name.txt", g.playerName) && Holds(files, "song_name.txt", g.songName)
    && Holds(files, "accuracy.txt", g.accuracy) && Holds(files, "combo.txt", g.combo)
    && Holds(files, "misses.txt", g.misses) && Holds(files, "rank.txt", g.rank)
    && Holds(files, "lobby_name.txt", g.lobbyName) && Holds(files, "gameplay.json", g.json)
  }

  predicate ShowsFeatured(files: Files, name: string, accuracy: string, combo: string, misses: string, rank: string) {
    && Holds(files, "featured_name.txt", name) && Holds(files, "featured_accuracy.txt", accuracy)
    && Holds(files, "featured_combo.txt", combo) && Holds(files, "featured_misses.txt", misses)
    && Holds(files, "featured_rank.txt", rank)
  }

  lemma {:induction false} WrittenSplits(files: Files, a: seq<Write>, b: seq<Write>)
    ensures Written(files, a + b) == Written(Written(files, a), b)
    decreases |b|
  {
    if b == [] {
      assert a + b == a;
    } else {
      assert (a + b)[..|a + b| - 1] == a + b[..|b| - 1];
      WrittenSplits(files, a, b[..|b| - 1]);
    }
  }

  lemma {:induction false} OtherPathsStay(files: Files, writes: seq<Write>, p: Path)
    requires forall w :: w in writes ==> w.path != p
    ensures p in Written(files, writes) <==> p in files
    ensures p in files ==> Written(files, writes)[p] == files[p]
  {
    if writes != [] { OtherPathsStay(files, writes[..|writes| - 1], p); }
  }

  /** In a list that names each path once every write is on its path afterwards. */
  lemma EachHolds(files: Files, writes: seq<Write>)
    requires forall i, j :: 0 <= i < j < |writes| ==> writes[i].path != writes[j].path
    ensures forall i :: 0 <= i < |writes| ==> Holds(Written(files, writes), writes[i].path, writes[i].content)
  {
    hide Written;
    forall i | 0 <= i < |writes| ensures Holds(Written(files, writes), writes[i].path, writes[i].content) {
      LastWriteDecides(files, writes, i);
    }
  }

  lemma GameplayShown(files: Files, g: Gameplay)
    ensures ShowsGameplay(Written(files, GameplayWrites(g)), g)
  {
    hide Written, Holds;
    var writes := GameplayWrites(g);
    assert writes[1].path[0] == 's' && writes[7].path[0] == 'g';
    EachHolds(files, writes);
    var after := Written(files, writes);
    assert Holds(after, writes[0].path, g.playerName) && Holds(after, writes[1].path, g.songName);
    assert Holds(after, writes[2].path, g.accuracy) && Holds(after, writes[3].path, g.combo);
    assert Holds(after, writes[4].path, g.misses) && Holds(after, writes[5].path, g.rank);
    assert Holds(after, writes[6].path, g.lobbyName) && Holds(after, writes[7].path, g.json);
  }

  lemma FeaturedShown(files: Files, name: string, accuracy: string, combo: string, misses: string, rank: string)
    ensures ShowsFeatured(Written(files, FeaturedWrites(name, accuracy, combo, misses, rank)), name, accuracy, combo,
                misses, rank)
  {
    hide Written, Holds;
    var writes := FeaturedWrites(name, accuracy, combo, misses, rank);
    assert writes[0].path[9] == 'n' && writes[4].path[9] == 'r';
    EachHolds(files, writes);
    var after := Written(files, writes);
    assert Holds(after, writes[0].path, name) && Holds(after, writes[1].path, accuracy);
    assert Holds(after, writes[2].path, combo) && Holds(after, writes[3].path, misses);
    assert Holds(after, writes[4].path, rank);
  }

  /** Writes to longer names than those of the gameplay files leave the gameplay files alone. */
  lemma GameplayStays(files: Files, writes: seq<Write>, g: Gameplay)
    requires ShowsGameplay(files, g) && forall w :: w in writes ==> |w.path| > 15
    ensures ShowsGameplay(Written(files, writes), g)
  {
    hide Written;
    OtherPathsStay(files, writes, "player_name.txt");
    OtherPathsStay(files, writes, "song_name.txt");
    OtherPathsStay(files, writes, "accuracy.txt");
    OtherPathsStay(files, writes, "combo.txt");
    OtherPathsStay(files, writes, "misses.txt");
    OtherPathsStay(files, writes, "rank.txt");
    OtherPathsStay(files, writes, "lobby_name.txt");
    OtherPathsStay(files, writes, "gameplay.json");
  }

  lemma FeaturedStays(files: Files, metadata: string, name: string, accuracy: string, combo: string, misses: string,
                      rank: string)
    requires ShowsFeatured(files, name, accuracy, combo, misses, rank)
    ensures ShowsFeatured(files["broadcast_metadata.json" := metadata], name, accuracy, combo, misses, rank)
  {
  }

  /** A batch that is carried out in full leaves each of its parts in the files of that part. */
  lemma BatchIsShown(files: Files, b: Batch)
    ensures var after := Written(files, Writes(b));
            && (b.gameplay.Some? ==> ShowsGameplay(after, b.gameplay.value))
            && (b.featured == Some(None) ==> ShowsFeatured(after, "", "", "", "", ""))
            && (b.featured.Some? && b.featured.value.Some? ==>
                  var g := b.featured.value.value;
                  ShowsFeatured(after, g.playerName, g.accuracy, g.combo, g.misses, g.rank))
            && (b.metadata.Some? ==> Holds(after, "broadcast_metadata.json", b.metadata.value))
  {
    hide Written, GameplayWrites, ShowsGameplay, ShowsFeatured;
    var room := if b.room.Some? then b.room.value else [];
    var gameplay := if b.gameplay.Some? then GameplayWrites(b.gameplay.value) else [];
    var featured := FeaturedPart(b);
    var metadata := if b.metadata.Some? then [Write("broadcast_metadata.json", b.metadata.value)] else [];
    assert Writes(b) == room + gameplay + featured + metadata;
    WrittenSplits(files, room + gameplay + featured, metadata);
    WrittenSplits(files, room + gameplay, featured);
    WrittenSplits(files, room, gameplay);
    var fs1 := Written(files, room);
    var fs2 := Written(fs1, gameplay);
    var fs3 := Written(fs2, featured);
    MetadataWritten(fs3, b.metadata);
    LongNames(b);
    if b.gameplay.Some? {
      GameplayShown(fs1, b.gameplay.value);
      GameplayStays(fs2, featured, b.gameplay.value);
      GameplayStays(fs3, metadata, b.gameplay.value);
    }
    match b.featured
    case None =>
    case Some(None) =>
      FeaturedShown(fs2, "", "", "", "", "");
      if b.metadata.Some? { FeaturedStays(fs3, b.metadata.value, "", "", "", "", ""); }
    case Some(Some(g)) =>
      FeaturedShown(fs2, g.playerName, g.accuracy, g.combo, g.misses, g.rank);
      if b.metadata.Some? {
        FeaturedStays(fs3, b.metadata.value, g.playerName, g.accuracy, g.combo, g.misses, g.rank);
      }
  }

  lemma MetadataWritten(files: Files, metadata: Option<string>)
    ensures Written(files, if metadata.Some? then [Write("broadcast_metadata.json", metadata.value)] else []) ==
            if metadata.Some? then files["broadcast_metadata.json" := metadata.value] else files
  {
    if metadata.Some? { assert [Write("broadcast_metadata.json", metadata.value)][..0] == []; }
  }

  lemma LongNames(b: Batch)
    ensures forall w :: w in FeaturedPart(b) ==> |w.path| > 15
    ensures |"broadcast_metadata.json"| > 15
  {
  }

  // ---- The writer ----

  class ExportWriter {
    var files: Files
    var cache: Files
    var completedWrites: nat
    var completedBytes: nat

    constructor (fs: Files)
      ensures Valid() && files == fs && cache == map[] && completedWrites == 0 && completedBytes == 0
    {
      files, cache, completedWrites, completedBytes := fs, map[], 0, 0;
    }

    ghost predicate Valid()
      reads this
    {
      Coherent(View())
    }

    ghost function View(): Disk
      reads this
    {
      Disk(files, cache, completedWrites, completedBytes, true)
    }

    method WriteCached(path: Path, content: string, fails: bool) returns (ok: bool)
      modifies this
      ensures Disk(files, cache, completedWrites, completedBytes, ok) == WriteOne(old(View()), Write(path, content),
          fails)
    {
      if path in cache && cache[path] == content { return true; }
      if fails { return false; }
      files := files[path := content];
      cache := cache[path := content];
      completedWrites := completedWrites + 1;
      completedBytes := completedBytes + |content|;
      return true;
    }

    /** The whole batch; the first failure ends it. */
    method WritePending(batch: Batch, faults: nat -> bool) returns (ok: bool)
      requires Valid()
      modifies this
      ensures Valid()
      ensures ok <==> Reached(old(View()), Writes(batch), faults) == |Writes(batch)|
      ensures files == Written(old(files), Writes(batch)[..Reached(old(View()), Writes(batch), faults)])
    {
      hide Writes, Written, Reached, WriteOne;
      var writes := Writes(batch);
      ghost var d := View();
      SkippingRefinesPlainWrites(d, writes, faults);
      ok := true;
      var i := 0;
      while ok && i < |writes|
        invariant 0 <= i <= |writes|
        invariant ok ==> Disk(files, cache, completedWrites, completedBytes, ok) == WriteAll(d, writes[..i], faults)
        invariant !ok ==> Disk(files, cache, completedWrites, completedBytes, ok) == WriteAll(d, writes, faults)
        decreases |writes| - i, if ok then 1 else 0
      {
        assert writes[..i + 1][..i] == writes[..i] && writes[..i + 1][i] == writes[i];
        ok := WriteCached(writes[i].path, writes[i].content, faults(i));
        i := i + 1;
        if !ok { FailureEndsBatch(d, writes, faults, i); }
      }
      assert writes[..|writes|] == writes;
    }
  }

  lemma {:induction false} FailureEndsBatch(d: Disk, writes: seq<Write>, faults: nat -> bool, n: nat)
    requires n <= |writes| && !WriteAll(d, writes[..n], faults).ok
    ensures WriteAll(d, writes, faults) == WriteAll(d, writes[..n], faults)
    decreases |writes| - n
  {
    if n < |writes| {
      assert writes[..n + 1][..n] == writes[..n];
      FailureEndsBatch(d, writes, faults, n + 1);
    } else {
      assert writes[..n] == writes;
    }
  }
}
