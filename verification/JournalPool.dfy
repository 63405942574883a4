/** The bounded pool of buffered run-journal writers, and why it looks like plain appending. */
module JournalPool {
  import opened Wrappers

  const MAX_OPEN_JOURNALS: nat := 32
  const IDLE_TIMEOUT: nat := 10_000
  const FLUSH_INTERVAL: nat := 50
  const CAPACITY: nat := 64 * 1024

  /** Text is a byte string; times are milliseconds. */
  datatype File = File(text: string, modified: nat)

  datatype Active = Active(buffer: string, lastUsed: nat)

  datatype Pool = Pool(files: map<string, File>, writers: map<string, Active>, dirty: bool, nextFlush: nat)

  function TextOf(files: map<string, File>, id: string): string {
    if id in files then files[id].text else ""
  }

  function BufferOf(writers: map<string, Active>, id: string): string {
    if id in writers then writers[id].buffer else ""
  }

  /** What a reader would find if everything buffered were written out now. */
  function Contents(p: Pool, id: string): string {
    TextOf(p.files, id) + BufferOf(p.writers, id)
  }

  // ---- One writer ----

  /** Appending to a file nobody holds open creates it. */
  function Extend(files: map<string, File>, id: string, text: string, now: nat): map<string, File> {
    if text == "" then files else files[id := File(TextOf(files, id) + text, now)]
  }

  /** Buffered unless it does not fit behind what is buffered, or would fill a buffer by itself. */
  function Buffered(buffer: string, text: string): (string, string) {
    if |buffer| + |text| < CAPACITY then ("", buffer + text)
    else
      var (out, kept) := if |buffer| + |text| > CAPACITY then (buffer, "") else ("", buffer);
      if |text| >= CAPACITY then (out + kept + text, "") else (out, kept + text)
  }

  /** What goes to the file and what stays in the buffer are, in order, the old buffer and the text. */
  lemma BufferKeepsOrder(buffer: string, text: string)
    ensures Buffered(buffer, text).0 + Buffered(buffer, text).1 == buffer + text
    ensures |buffer| <= CAPACITY ==> |Buffered(buffer, text).1| <= CAPACITY
  {
  }

  /** Text shorter than 64 KiB stays in the buffer, which is written out first if the two do not fit; longer text
      goes straight to the file behind what was buffered. */
  lemma BufferedIff(buffer: string, text: string)
    requires |buffer| <= 65_536
    ensures Buffered(buffer, text) ==
            if |text| >= 65_536 then (buffer + text, "")
            else if |buffer| + |text| > 65_536 then (buffer, text)
            else ("", buffer + text)
  {
    assert buffer + "" == buffer && "" + buffer == buffer && "" + text == text;
    if |text| >= 65_536 && |buffer| + |text| == 65_536 { assert buffer == ""; }
  }

  // ---- Steps ----

  /** Writing out every buffer. */
  function AllFlushed(p: Pool, now: nat): Pool {
    p.(files := map id | id in p.files.Keys + p.writers.Keys && (id in p.files || BufferOf(p.writers, id) != "")
                  :: if BufferOf(p.writers, id) == "" then p.files[id] else File(Contents(p, id), now),
       writers := map id | id in p.writers :: p.writers[id].(buffer := ""))
  }

  function Closed(p: Pool, ids: set<string>, now: nat): Pool {
    p.(files := map id | id in p.files.Keys + ids && (id in p.files || BufferOf(p.writers, id) != "")
                  :: if id !in ids || BufferOf(p.writers, id) == "" then p.files[id] else File(Contents(p, id), now),
       writers := p.writers - ids)
  }

  /** Any writer that has been unused for longest. */
  predicate Oldest(writers: map<string, Active>, id: string) {
    id in writers && forall other :: other in writers ==> writers[id].lastUsed <= writers[other].lastUsed
  }

  predicate Crowded(p: Pool, id: string) {
    id !in p.writers && |p.writers| >= MAX_OPEN_JOURNALS
  }

  function MadeRoom(p: Pool, id: string, victim: string, now: nat): Pool {
    if Crowded(p, id) then Closed(p, {victim}, now) else p
  }

  /** A file that cannot be opened loses the line, after room was made for its writer. */
  function Append(p: Pool, id: string, line: string, victim: string, opens: bool, now: nat): Pool {
    var room := MadeRoom(p, id, victim, now);
    if id !in room.writers && !opens then room
    else
      var files := if id in room.writers || id in room.files then room.files else room.files[id := File("", now)];
      var (out1, kept1) := Buffered(BufferOf(room.writers, id), line);
      var (out2, kept2) := Buffered(kept1, "\n");
      Pool(Extend(Extend(files, id, out1, now), id, out2, now), room.writers[id := Active(kept2, now)], true,
          room.nextFlush)
  }

  function Idle(p: Pool, now: nat): set<string> {
    set id | id in p.writers && now >= p.writers[id].lastUsed + IDLE_TIMEOUT
  }

  /** The periodic part after every signal. */
  function Tick(p: Pool, now: nat): Pool {
    if now < p.nextFlush then p
    else
      var flushed := if p.dirty then AllFlushed(p, now).(dirty := false) else p;
      Closed(flushed, Idle(flushed, now), now).(nextFlush := now + FLUSH_INTERVAL)
  }

  function FlushNow(p: Pool, now: nat): Pool {
    AllFlushed(p, now).(dirty := false, nextFlush := now + FLUSH_INTERVAL)
  }

  /** The journals a prune deletes: last written before the limit, and removable. */
  function Expired(files: map<string, File>, olderThan: nat, stuck: set<string>): set<string> {
    set id | id in files && files[id].modified < olderThan && id !in stuck
  }

  function Prune(p: Pool, olderThan: nat, stuck: set<string>, now: nat): Pool {
    var flushed := FlushNow(p, now);
    flushed.(writers := map[], files := flushed.files - Expired(flushed.files, olderThan, stuck))
  }

  datatype Step =
    | Line(id: string, line: string, victim: string, opens: bool, now: nat)
    | AskFlush(now: nat)
    | AskPrune(olderThan: nat, stuck: set<string>, now: nat)
    | Timeout(now: nat)

  function Signal(p: Pool, step: Step): Pool {
    match step
    case Line(id, line, victim, opens, now) => Append(p, id, line, victim, opens, now)
    case AskFlush(now) => FlushNow(p, now)
    case AskPrune(olderThan, stuck, now) => Prune(p, olderThan, stuck, now)
    case Timeout(_) => p
  }

  function Apply(p: Pool, step: Step): Pool {
    Tick(Signal(p, step), step.now)
  }

  predicate Possible(p: Pool, step: Step) {
    step.Line? && Crowded(p, step.id) ==> Oldest(p.writers, step.victim)
  }

  // ---- Plain appending ----

  /** What has been appended to a journal since it was last deleted, and when last. */
  datatype Journal = Journal(text: string, last: nat)

  type Journals = map<string, Journal>

  function Logged(log: Journals, id: string): string {
    if id in log then log[id].text else ""
  }

  /** The same run without a pool: lines are appended, pruned journals forgotten. */
  function Plain(log: Journals, p: Pool, step: Step): Journals {
    match step
    case Line(id, line, victim, opens, now) =>
      if id !in MadeRoom(p, id, victim, now).writers && !opens then log
        else log[id := Journal(Logged(log, id) + line + "\n", now)]
    case AskFlush(_) => log
    case AskPrune(olderThan, stuck, now) => log - Expired(FlushNow(p, now).files, olderThan, stuck)
    case Timeout(_) => log
  }

  // ---- The invariant ----

  predicate Clean(p: Pool) {
    forall id :: id in p.writers ==> p.writers[id].buffer == ""
  }

  function FileAt(files: map<string, File>, id: string): Option<File> {
    if id in files then Some(files[id]) else None
  }

  function EntryAt(log: Journals, id: string): Option<Journal> {
    if id in log then Some(log[id]) else None
  }

  /** One journal: file then buffer read as the plain journal, and with nothing buffered the file was
      last written no earlier than the journal was last appended to. */
  predicate Stands(file: Option<File>, buffer: string, entry: Option<Journal>) {
    && (if file.Some? then file.value.text else "") + buffer == (if entry.Some? then entry.value.text else "")
    && (entry.Some? && buffer == "" ==> file.Some? && entry.value.last <= file.value.modified)
  }

  /** The pool stands for the plain journals; an unset dirty flag is right; the pool is bounded. */
  ghost predicate Inv(p: Pool, log: Journals) {
    && (forall id :: Stands(FileAt(p.files, id), BufferOf(p.writers, id), EntryAt(log, id)))
    && (!p.dirty ==> Clean(p))
    && |p.writers| <= MAX_OPEN_JOURNALS
  }

  ghost predicate UpTo(log: Journals, now: nat) {
    forall id :: id in log ==> log[id].last <= now
  }

  /** One journal's file with its buffer written out. */
  function WrittenOut(file: Option<File>, buffer: string, now: nat): Option<File> {
    if buffer == "" then file else Some(File((if file.Some? then file.value.text else "") + buffer, now))
  }

  lemma WrittenOutStands(file: Option<File>, buffer: string, entry: Option<Journal>, now: nat)
    requires Stands(file, buffer, entry) && (entry.Some? ==> entry.value.last <= now)
    ensures Stands(WrittenOut(file, buffer, now), "", entry)
  {
    if file.Some? { assert file.value.text + "" == file.value.text; }
    if buffer != "" {
      var written := WrittenOut(file, buffer, now).value.text;
      assert written + "" == written;
    }
  }

  lemma AllFlushedAt(p: Pool, now: nat, id: string)
    ensures var q := AllFlushed(p, now);
            && FileAt(q.files, id) == WrittenOut(FileAt(p.files, id), BufferOf(p.writers, id), now)
            && BufferOf(q.writers, id) == "" && q.writers.Keys == p.writers.Keys
  {
  }

  lemma ClosedAt(p: Pool, ids: set<string>, now: nat, id: string)
    ensures var q := Closed(p, ids, now);
            && FileAt(q.files, id) == (if id in ids then WrittenOut(FileAt(p.files, id), BufferOf(p.writers, id), now)
                else FileAt(p.files, id))
            && BufferOf(q.writers, id) == (if id in ids then "" else BufferOf(p.writers, id))
              && q.writers.Keys == p.writers.Keys - ids
  {
  }

  lemma AllFlushedClean(p: Pool, now: nat)
    ensures Clean(AllFlushed(p, now)) && AllFlushed(p, now).writers.Keys == p.writers.Keys
  {
  }

  lemma SameKeysSameSize(a: map<string, Active>, b: map<string, Active>)
    requires a.Keys == b.Keys
    ensures |a| == |b|
  {
    assert |a| == |a.Keys| && |b| == |b.Keys|;
  }

  lemma AllFlushedKeepsInv(p: Pool, log: Journals, now: nat)
    requires Inv(p, log) && UpTo(log, now)
    ensures Inv(AllFlushed(p, now).(dirty := false), log)
  {
    hide Stands, AllFlushed, WrittenOut, Clean;
    var q := AllFlushed(p, now).(dirty := false);
    AllFlushedClean(p, now);
    SameKeysSameSize(p.writers, q.writers);
    CleanIgnoresFlag(AllFlushed(p, now), q);
    forall id ensures Stands(FileAt(q.files, id), BufferOf(q.writers, id), EntryAt(log, id)) {
      AllFlushedAt(p, now, id);
      WrittenOutStands(FileAt(p.files, id), BufferOf(p.writers, id), EntryAt(log, id), now);
    }
  }

  lemma CleanIgnoresFlag(p: Pool, q: Pool)
    requires p.writers == q.writers
    ensures Clean(p) <==> Clean(q)
  {
  }

  lemma ClosedClean(p: Pool, ids: set<string>, now: nat)
    ensures Clean(p) ==> Clean(Closed(p, ids, now))
    ensures |Closed(p, ids, now).writers| <= |p.writers|
    ensures Closed(p, ids, now).dirty == p.dirty
  {
    var q := Closed(p, ids, now);
    assert q.writers.Keys == p.writers.Keys - ids;
    SubsetSmaller(q.writers.Keys, p.writers.Keys);
  }

  lemma ClosedKeepsInv(p: Pool, log: Journals, ids: set<string>, now: nat)
    requires Inv(p, log) && UpTo(log, now)
    ensures Inv(Closed(p, ids, now), log)
  {
    hide Stands, Closed, WrittenOut, Clean;
    var q := Closed(p, ids, now);
    ClosedClean(p, ids, now);
    forall id ensures Stands(FileAt(q.files, id), BufferOf(q.writers, id), EntryAt(log, id)) {
      ClosedAt(p, ids, now, id);
      WrittenOutStands(FileAt(p.files, id), BufferOf(p.writers, id), EntryAt(log, id), now);
    }
  }

  lemma {:induction false} SubsetSmaller<T>(a: set<T>, b: set<T>)
    requires a <= b
    ensures |a| <= |b|
  {
    if a != {} {
      var x :| x in a;
      SubsetSmaller(a - {x}, b - {x});
    }
  }

  lemma RoomKeepsInv(p: Pool, log: Journals, id: string, victim: string, now: nat)
    requires Inv(p, log) && UpTo(log, now) && (Crowded(p, id) ==> Oldest(p.writers, victim))
    ensures var room := MadeRoom(p, id, victim, now);
            Inv(room, log) && (id in room.writers || |room.writers| < MAX_OPEN_JOURNALS)
              && (id in room.writers <==> id in p.writers)
  {
    hide Inv;
    if Crowded(p, id) {
      ClosedKeepsInv(p, log, {victim}, now);
      var room := Closed(p, {victim}, now);
      assert room.writers.Keys == p.writers.Keys - {victim};
      InvBound(p, log);
    }
  }

  lemma InvBound(p: Pool, log: Journals)
    requires Inv(p, log)
    ensures |p.writers| <= MAX_OPEN_JOURNALS
  {
  }

  /** One line through a buffer, whatever part of it is written out on the way. */
  function WithLine(p: Pool, id: string, line: string, now: nat): Pool {
    var files := if id in p.writers || id in p.files then p.files else p.files[id := File("", now)];
    var (out1, kept1) := Buffered(BufferOf(p.writers, id), line);
    var (out2, kept2) := Buffered(kept1, "\n");
    Pool(Extend(Extend(files, id, out1, now), id, out2, now), p.writers[id := Active(kept2, now)], true, p.nextFlush)
  }

  function ExtendedOne(file: Option<File>, text: string, now: nat): Option<File> {
    if text == "" then file else Some(File((if file.Some? then file.value.text else "") + text, now))
  }

  lemma ExtendAt(files: map<string, File>, id: string, text: string, now: nat)
    ensures FileAt(Extend(files, id, text, now), id) == ExtendedOne(FileAt(files, id), text, now)
  {
  }

  /** Where the line's journal is afterwards; a journal that was not open may have been created. */
  lemma LineAt(p: Pool, id: string, line: string, now: nat)
    ensures var q := WithLine(p, id, line, now);
            var first := Buffered(BufferOf(p.writers, id), line); var second := Buffered(first.1, "\n");
            var created := if id in p.writers || id in p.files then FileAt(p.files, id) else Some(File("", now));
            && FileAt(q.files, id) == ExtendedOne(ExtendedOne(created, first.0, now), second.0, now)
            && BufferOf(q.writers, id) == second.1
  {
    hide Buffered, Extend, ExtendedOne;
    var first := Buffered(BufferOf(p.writers, id), line);
    var second := Buffered(first.1, "\n");
    var files := if id in p.writers || id in p.files then p.files else p.files[id := File("", now)];
    ExtendAt(files, id, first.0, now);
    ExtendAt(Extend(files, id, first.0, now), id, second.0, now);
  }

  /** Its file then buffer grow by exactly the line. */
  lemma LineStandsOn(file: Option<File>, buffer: string, entry: Option<Journal>, created: Option<File>, line: string,
                     now: nat, out1: string, kept1: string, out2: string, kept2: string)
    requires Stands(file, buffer, entry) && (created == file || (file.None? && created == Some(File("", now))))
    requires out1 + kept1 == buffer + line && out2 + kept2 == kept1 + "\n"
    ensures var text := if entry.Some? then entry.value.text else "";
            Stands(ExtendedOne(ExtendedOne(created, out1, now), out2, now), kept2,
                Some(Journal(text + line + "\n", now)))
  {
    var text := if file.Some? then file.value.text else "";
    LineIsWhole(text, buffer, line, out1, kept1, out2, kept2);
    assert |out1| + |kept1| == |buffer + line| && |out2| + |kept2| == |kept1| + 1;
    var grown := ExtendedOne(ExtendedOne(created, out1, now), out2, now);
    assert text + "" == text && text + out1 + "" == text + out1;
    assert (if grown.Some? then grown.value.text else "") == text + out1 + out2;
  }

  lemma LineStands(p: Pool, id: string, line: string, now: nat, entry: Option<Journal>)
    requires Stands(FileAt(p.files, id), BufferOf(p.writers, id), entry)
    ensures var q := WithLine(p, id, line, now); var text := if entry.Some? then entry.value.text else "";
            Stands(FileAt(q.files, id), BufferOf(q.writers, id), Some(Journal(text + line + "\n", now)))
  {
    hide Buffered, Stands, WithLine, ExtendedOne;
    var buffer := BufferOf(p.writers, id);
    var (out1, kept1) := Buffered(buffer, line);
    var (out2, kept2) := Buffered(kept1, "\n");
    BufferKeepsOrder(buffer, line);
    BufferKeepsOrder(kept1, "\n");
    LineAt(p, id, line, now);
    var created := if id in p.writers || id in p.files then FileAt(p.files, id) else Some(File("", now));
    LineStandsOn(FileAt(p.files, id), buffer, entry, created, line, now, out1, kept1, out2, kept2);
  }

  lemma LineIsWhole(text: string, buffer: string, line: string, out1: string, kept1: string, out2: string,
                    kept2: string)
    requires out1 + kept1 == buffer + line && out2 + kept2 == kept1 + "\n"
    ensures text + out1 + out2 + kept2 == text + buffer + line + "\n"
  {
    assert text + out1 + out2 + kept2 == text + (out1 + (out2 + kept2));
    assert text + (out1 + (kept1 + "\n")) == text + ((out1 + kept1) + "\n");
    assert text + ((buffer + line) + "\n") == text + buffer + line + "\n";
  }

  lemma LineSparesOthers(p: Pool, id: string, line: string, now: nat, other: string)
    requires other != id
    ensures var q := WithLine(p, id, line, now); FileAt(q.files, other) == FileAt(p.files, other)
                                                 && BufferOf(q.writers, other) == BufferOf(p.writers, other)
    ensures WithLine(p, id, line, now).writers.Keys == p.writers.Keys + {id} && WithLine(p, id, line, now).dirty
  {
    hide Buffered;
  }

  lemma LineKeepsInv(p: Pool, log: Journals, id: string, line: string, now: nat)
    requires Inv(p, log) && (id in p.writers || |p.writers| < MAX_OPEN_JOURNALS)
    ensures Inv(WithLine(p, id, line, now), log[id := Journal(Logged(log, id) + line + "\n", now)])
  {
    hide Stands, WithLine, Clean;
    var q := WithLine(p, id, line, now);
    LineStands(p, id, line, now, EntryAt(log, id));
    LineSparesOthers(p, id, line, now, id + "x");
    OneMoreKey(p.writers, q.writers, id);
    var after := log[id := Journal(Logged(log, id) + line + "\n", now)];
    forall j ensures Stands(FileAt(q.files, j), BufferOf(q.writers, j), EntryAt(after, j)) {
      if j != id { LineSparesOthers(p, id, line, now, j); }
    }
  }

  lemma OneMoreKey(a: map<string, Active>, b: map<string, Active>, id: string)
    requires b.Keys == a.Keys + {id}
    ensures |b| == if id in a then |a| else |a| + 1
  {
    assert |a| == |a.Keys| && |b| == |b.Keys|;
    if id in a { assert a.Keys + {id} == a.Keys; }
  }

  lemma AppendKeepsInv(p: Pool, log: Journals, id: string, line: string, victim: string, opens: bool, now: nat)
    requires Inv(p, log) && UpTo(log, now) && (Crowded(p, id) ==> Oldest(p.writers, victim))
    ensures Inv(Append(p, id, line, victim, opens, now), Plain(log, p, Line(id, line, victim, opens, now)))
  {
    hide Inv, MadeRoom, Buffered, Crowded;
    RoomKeepsInv(p, log, id, victim, now);
    var room := MadeRoom(p, id, victim, now);
    if id in room.writers || opens { LineKeepsInv(room, log, id, line, now); }
  }

  lemma PruneKeepsInv(p: Pool, log: Journals, olderThan: nat, stuck: set<string>, now: nat)
    requires Inv(p, log) && UpTo(log, now)
    ensures Inv(Prune(p, olderThan, stuck, now), log - Expired(FlushNow(p, now).files, olderThan, stuck))
  {
    hide AllFlushed, Stands, Expired;
    AllFlushedKeepsInv(p, log, now);
    var f := AllFlushed(p, now).(dirty := false);
    var q := Prune(p, olderThan, stuck, now);
    var gone := Expired(FlushNow(p, now).files, olderThan, stuck);
    forall id ensures Stands(FileAt(q.files, id), BufferOf(q.writers, id), EntryAt(log - gone, id)) {
      assert Stands(FileAt(f.files, id), BufferOf(f.writers, id), EntryAt(log, id));
      AllFlushedAt(p, now, id);
      NothingStands();
    }
  }

  lemma NothingStands()
    ensures Stands(None, "", None)
  {
  }

  lemma TickKeepsInv(p: Pool, log: Journals, now: nat)
    requires Inv(p, log) && UpTo(log, now)
    ensures Inv(Tick(p, now), log)
    ensures now >= p.nextFlush ==> Clean(Tick(p, now)) && Tick(p, now).nextFlush == now + FLUSH_INTERVAL
  {
    hide AllFlushed, Closed, Idle, Inv, Clean;
    if now >= p.nextFlush {
      AllFlushedKeepsInv(p, log, now);
      AllFlushedClean(p, now);
      var flushed := if p.dirty then AllFlushed(p, now).(dirty := false) else p;
      CleanIgnoresFlag(AllFlushed(p, now), AllFlushed(p, now).(dirty := false));
      FlagIsRight(p, log);
      ClosedKeepsInv(flushed, log, Idle(flushed, now), now);
      ClosedClean(flushed, Idle(flushed, now), now);
      var closed := Closed(flushed, Idle(flushed, now), now);
      SameBooks(closed, closed.(nextFlush := now + FLUSH_INTERVAL), log);
      CleanIgnoresFlag(closed, closed.(nextFlush := now + FLUSH_INTERVAL));
    }
  }

  lemma FlagIsRight(p: Pool, log: Journals)
    requires Inv(p, log)
    ensures !p.dirty ==> Clean(p)
  {
  }

  lemma SameBooks(p: Pool, q: Pool, log: Journals)
    requires Inv(p, log) && q.files == p.files && q.writers == p.writers && q.dirty == p.dirty
    ensures Inv(q, log)
  {
    hide Stands, Clean;
    CleanIgnoresFlag(p, q);
  }

  ghost predicate Timely(log: Journals, step: Step) {
    UpTo(log, step.now)
  }

  lemma SignalIsTimely(p: Pool, log: Journals, step: Step)
    requires Inv(p, log) && Possible(p, step) && Timely(log, step)
    ensures Inv(Signal(p, step), Plain(log, p, step)) && UpTo(Plain(log, p, step), step.now)
  {
    hide Inv, Append, Prune, AllFlushed, MadeRoom, Crowded;
    match step
    case Line(id, line, victim, opens, now) => AppendKeepsInv(p, log, id, line, victim, opens, now);
    case AskFlush(now) =>
      AllFlushedKeepsInv(p, log, now);
      SameBooks(AllFlushed(p, now).(dirty := false), FlushNow(p, now), log);
    case AskPrune(olderThan, stuck, now) => PruneKeepsInv(p, log, olderThan, stuck, now);
    case Timeout(now) =>
  }

  lemma ApplyKeepsInv(p: Pool, log: Journals, step: Step)
    requires Inv(p, log) && Possible(p, step) && Timely(log, step)
    ensures Inv(Apply(p, step), Plain(log, p, step)) && UpTo(Plain(log, p, step), step.now)
  {
    hide Inv, Signal, Plain, Possible, Tick;
    SignalIsTimely(p, log, step);
    TickKeepsInv(Signal(p, step), Plain(log, p, step), step.now);
  }

  // ---- Whole runs ----

  function Run(p: Pool, steps: seq<Step>): Pool
    decreases |steps|
  {
    if steps == [] then p else Run(Apply(p, steps[0]), steps[1..])
  }

  function PlainRun(log: Journals, p: Pool, steps: seq<Step>): Journals
    decreases |steps|
  {
    if steps == [] then log else PlainRun(Plain(log, p, steps[0]), Apply(p, steps[0]), steps[1..])
  }

  /** Time does not run backwards, and evictions pick an oldest writer. */
  predicate PossibleRun(p: Pool, steps: seq<Step>, now: nat)
    decreases |steps|
  {
    steps != [] ==> now <= steps[0].now && Possible(p, steps[0])
                    && PossibleRun(Apply(p, steps[0]), steps[1..], steps[0].now)
  }

  lemma {:induction false} RunKeepsInv(p: Pool, log: Journals, steps: seq<Step>, now: nat)
    requires Inv(p, log) && PossibleRun(p, steps, now) && UpTo(log, now)
    ensures Inv(Run(p, steps), PlainRun(log, p, steps))
    decreases |steps|
  {
    hide Inv, Apply, Plain, Possible;
    if steps != [] {
      ApplyKeepsInv(p, log, steps[0]);
      RunKeepsInv(Apply(p, steps[0]), Plain(log, p, steps[0]), steps[1..], steps[0].now);
    }
  }

  /** The journals found on disk when the worker starts. */
  function Found(files: map<string, File>): Journals {
    map id | id in files :: Journal(files[id].text, files[id].modified)
  }

  /** Through eviction, idle closing, periodic and requested flushes and pruning: every journal reads,
      file then buffer, as plain appending would have left it, and at most 32 writers are open. */
  lemma PoolLooksLikePlainAppend(files: map<string, File>, steps: seq<Step>, start: nat, id: string)
    requires PossibleRun(Pool(files, map[], false, start + 50), steps, start)
    requires forall j :: j in files ==> files[j].modified <= start
    ensures var p0 := Pool(files, map[], false, start + 50);
            Contents(Run(p0, steps), id) == Logged(PlainRun(Found(files), p0, steps), id)
              && |Run(p0, steps).writers| <= 32
  {
    hide Run, PlainRun, PossibleRun;
    var p0 := Pool(files, map[], false, start + 50);
    StartIsInv(files, start);
    RunKeepsInv(p0, Found(files), steps, start);
    ContentsStand(Run(p0, steps), PlainRun(Found(files), p0, steps), id);
  }

  lemma ContentsStand(p: Pool, log: Journals, id: string)
    requires Inv(p, log)
    ensures Contents(p, id) == Logged(log, id) && |p.writers| <= MAX_OPEN_JOURNALS
  {
    assert Stands(FileAt(p.files, id), BufferOf(p.writers, id), EntryAt(log, id));
  }

  lemma StartIsInv(files: map<string, File>, start: nat)
    ensures Inv(Pool(files, map[], false, start + FLUSH_INTERVAL), Found(files))
  {
  }

  /** Once a tick is due, or a flush was asked for, nothing is buffered: the files alone hold everything. */
  lemma TickWritesEverything(p: Pool, log: Journals, step: Step, id: string)
    requires Inv(p, log) && Possible(p, step) && Timely(log, step)
    requires step.AskFlush? || step.AskPrune? || step.now >= p.nextFlush
    ensures TextOf(Apply(p, step).files, id) == Logged(Plain(log, p, step), id)
  {
    hide Inv, Append, AllFlushed, Plain, Possible, Timely, Buffered;
    ApplyKeepsInv(p, log, step);
    SignalIsTimely(p, log, step);
    assert Clean(Apply(p, step)) by {
      if step.Line? || step.Timeout? {
        SignalKeepsDeadline(p, step);
        TickKeepsInv(Signal(p, step), Plain(log, p, step), step.now);
      } else {
        FlushLeavesClean(p, log, step);
      }
    }
    ContentsWhenClean(Apply(p, step), Plain(log, p, step), id);
  }

  lemma SignalKeepsDeadline(p: Pool, step: Step)
    requires step.Line? || step.Timeout?
    ensures Signal(p, step).nextFlush == p.nextFlush
  {
    hide Buffered, Crowded;
  }

  lemma FlushLeavesClean(p: Pool, log: Journals, step: Step)
    requires step.AskFlush? || step.AskPrune?
    ensures Clean(Apply(p, step))
  {
    var s := Signal(p, step);
    assert Clean(s);
  }

  lemma ContentsWhenClean(p: Pool, log: Journals, id: string)
    requires Inv(p, log) && Clean(p)
    ensures TextOf(p.files, id) == Logged(log, id)
  {
    ContentsStand(p, log, id);
    assert BufferOf(p.writers, id) == "" && TextOf(p.files, id) + "" == TextOf(p.files, id);
  }

  /** A prune forgets a journal only if nothing was appended to it at or after the limit. */
  lemma PruneForgetsOnlyOldJournals(p: Pool, log: Journals, olderThan: nat, stuck: set<string>, now: nat, id: string)
    requires Inv(p, log) && UpTo(log, now)
    requires id in log && id !in Plain(log, p, AskPrune(olderThan, stuck, now))
    ensures log[id].last < olderThan
  {
    hide AllFlushed;
    AllFlushedKeepsInv(p, log, now);
    var f := AllFlushed(p, now).(dirty := false);
    AllFlushedAt(p, now, id);
    assert Stands(FileAt(f.files, id), BufferOf(f.writers, id), EntryAt(log, id));
  }

  /** When a journal's file was last written once every buffer is written out. */
  function LastWritten(p: Pool, id: string, now: nat): nat {
    if BufferOf(p.writers, id) != "" then now else if id in p.files then p.files[id].modified else 0
  }

  /** A prune leaves exactly the journals that were written at or after the limit, or cannot be removed, each with
      everything buffered for it, and no writer open. */
  lemma PruneOutcome(p: Pool, olderThan: nat, stuck: set<string>, now: nat)
    ensures var after := Prune(p, olderThan, stuck, now);
            && (forall id :: id in after.files <==>
                  (id in p.files || BufferOf(p.writers, id) != "")
                  && (LastWritten(p, id, now) >= olderThan || id in stuck))
            && (forall id :: id in after.files ==>
                  after.files[id] == File(Contents(p, id), LastWritten(p, id, now)))
            && after.writers == map[] && !after.dirty && after.nextFlush == now + 50
  {
    forall id | id in p.files && BufferOf(p.writers, id) == "" ensures Contents(p, id) == p.files[id].text {
      assert p.files[id].text + "" == p.files[id].text;
    }
  }

  /** Appending closes a writer, the one unused for longest, only when 32 others are open; it opens the journal's own
      unless its file cannot be opened, and leaves all the others as they are. */
  lemma AppendOutcome(p: Pool, id: string, line: string, victim: string, opens: bool, now: nat)
    ensures var after := Append(p, id, line, victim, opens, now);
            var closes := id !in p.writers && |p.writers| >= 32;
            && (id in after.writers <==> id in p.writers || opens)
            && (id in after.writers ==> after.writers[id].lastUsed == now && after.dirty)
            && (id !in after.writers ==> after.dirty == p.dirty)
            && (forall other :: other != id ==>
                  (other in after.writers <==> other in p.writers && !(closes && other == victim))
                  && (other in after.writers ==> after.writers[other] == p.writers[other]))
            && after.nextFlush == p.nextFlush
  {
    hide Buffered;
  }

  /** A tick that is due writes everything out if anything was appended, closes exactly the writers unused for ten
      seconds and sets the next one 50 ms ahead; one that is not due does nothing. */
  lemma TickOutcome(p: Pool, now: nat)
    ensures var after := Tick(p, now);
            if now < p.nextFlush then after == p
            else && after.nextFlush == now + 50 && !after.dirty
                 && (forall id :: id in after.writers <==> id in p.writers && now < p.writers[id].lastUsed + 10_000)
                 && (forall id :: id in after.writers ==>
                       after.writers[id] == Active(if p.dirty then "" else p.writers[id].buffer,
                                                p.writers[id].lastUsed))
                 && (p.dirty ==> forall id :: TextOf(after.files, id) == Contents(p, id))
  {
    if p.dirty {
      var flushed := AllFlushed(p, now).(dirty := false);
      forall id ensures TextOf(Tick(p, now).files, id) == Contents(p, id) || now < p.nextFlush {
        AllFlushedAt(p, now, id);
        ClosedAt(flushed, Idle(flushed, now), now, id);
        assert TextOf(p.files, id) + "" == TextOf(p.files, id);
      }
    }
  }

  // ---- Run ids ----

  predicate SafeChar(c: char) {
    '0' <= c <= '9' || 'a' <= c <= 'z' || 'A' <= c <= 'Z' || c == '-' || c == '_'
  }

  function OnlySafe(s: string): string {
    if s == [] then [] else OnlySafe(s[..|s| - 1]) + if SafeChar(s[|s| - 1]) then [s[|s| - 1]] else []
  }

  function SafeRunId(s: string): string {
    var safe := OnlySafe(s);
    var cut := if |safe| > 96 then safe[..96] else safe;
    if cut == "" then "unassigned" else cut
  }

  lemma {:induction false} OnlySafeMeaning(s: string)
    ensures forall c :: c in OnlySafe(s) ==> SafeChar(c)
    ensures (forall c :: c in s ==> SafeChar(c)) ==> OnlySafe(s) == s
  {
    if s != [] {
      OnlySafeMeaning(s[..|s| - 1]);
      assert s == s[..|s| - 1] + [s[|s| - 1]];
    }
  }

  /** A sanitized id names a file in the journal folder and nothing else, and sanitizing it again changes nothing. */
  lemma SanitizedIsSafe(s: string)
    ensures var id := SafeRunId(s); 1 <= |id| <= 96 && (forall c :: c in id ==> SafeChar(c)) && SafeRunId(id) == id
  {
    hide OnlySafe;
    var id := SafeRunId(s);
    OnlySafeMeaning(s);
    assert forall c :: c in "unassigned" ==> SafeChar(c);
    OnlySafeMeaning(id);
  }

  /** Sanitizing goes character by character: letters, digits, hyphen and underscore stay, in order, and nothing
      else does. */
  lemma {:induction false} SanitizingSplits(s: string, t: string)
    ensures OnlySafe(s + t) == OnlySafe(s) + OnlySafe(t)
    decreases |t|
  {
    if t == [] {
      assert s + t == s;
    } else {
      assert (s + t)[..|s + t| - 1] == s + t[..|t| - 1];
      SanitizingSplits(s, t[..|t| - 1]);
    }
  }

  lemma SanitizingOne(c: char)
    ensures OnlySafe([c]) ==
            if 'a' <= c <= 'z' || 'A' <= c <= 'Z' || '0' <= c <= '9' || c == '-' || c == '_' then [c] else []
  {
    assert [c][..0] == [];
  }

  /** A run id is the first 96 of its safe characters, or "unassigned" when it has none. */
  lemma SanitizedIs(s: string)
    ensures var safe, id := OnlySafe(s), SafeRunId(s);
            && (safe == "" ==> id == "unassigned")
            && (safe != "" ==> id <= safe && |id| == if |safe| <= 96 then |safe| else 96)
  {
    hide OnlySafe;
  }

  // ---- The worker's state changed in place ----

  lemma SameFileMaps(a: map<string, File>, b: map<string, File>)
    requires forall id :: FileAt(a, id) == FileAt(b, id)
    ensures a == b
  {
    assert forall id :: id in a ==> FileAt(a, id) == Some(a[id]) && FileAt(b, id) == Some(a[id]);
    assert forall id :: id in b ==> FileAt(b, id) == Some(b[id]) && FileAt(a, id) == Some(b[id]);
  }

  lemma SameWriterMaps(a: map<string, Active>, b: map<string, Active>)
    requires a.Keys == b.Keys && forall id :: id in a ==> a[id] == b[id]
    ensures a == b
  {
  }

  class JournalWorker {
    var files: map<string, File>
    var writers: map<string, Active>
    var dirty: bool
    var nextFlush: nat

    constructor (found: map<string, File>, now: nat)
      ensures View() == Pool(found, map[], false, now + FLUSH_INTERVAL)
    {
      files, writers, dirty, nextFlush := found, map[], false, now + FLUSH_INTERVAL;
    }

    ghost function View(): Pool
      reads this
    {
      Pool(files, writers, dirty, nextFlush)
    }

    /** One buffer goes to its file. */
    method FlushOne(id: string, now: nat)
      requires id in writers
      modifies this`files, this`writers
      ensures writers == old(writers)[id := old(writers)[id].(buffer := "")]
      ensures FileAt(files, id) == WrittenOut(old(FileAt(files, id)), old(writers)[id].buffer, now)
      ensures forall other :: other != id ==> FileAt(files, other) == old(FileAt(files, other))
    {
      if writers[id].buffer != "" {
        files := files[id := File(TextOf(files, id) + writers[id].buffer, now)];
        writers := writers[id := writers[id].(buffer := "")];
      }
    }

    method FlushWriters(now: nat)
      modifies this`files, this`writers
      ensures View() == AllFlushed(old(View()), now)
    {
      hide AllFlushed, WrittenOut, FileAt;
      NothingToWrite(now);
      ghost var p := View();
      var ids := writers.Keys;
      while ids != {}
        invariant ids <= writers.Keys && writers.Keys == p.writers.Keys
        invariant forall id :: id in writers
                   ==> writers[id] == if id in ids then p.writers[id] else p.writers[id].(buffer := "")
        invariant forall id :: FileAt(files, id) == if id in p.writers && id !in ids
          then WrittenOut(FileAt(p.files, id), p.writers[id].buffer, now) else FileAt(p.files, id)
        decreases |ids|
      {
        var id :| id in ids;
        FlushOne(id, now);
        ids := ids - {id};
      }
      forall id ensures FileAt(files, id) == FileAt(AllFlushed(p, now).files, id) { AllFlushedAt(p, now, id); }
      SameFileMaps(files, AllFlushed(p, now).files);
      AllFlushedWriters(p, now);
      SameWriterMaps(writers, AllFlushed(p, now).writers);
    }

    /** Closing writes out what is buffered and forgets the writer. */
    method CloseAll(ids: set<string>, now: nat)
      requires ids <= writers.Keys
      modifies this`files, this`writers
      ensures View() == Closed(old(View()), ids, now)
    {
      hide Closed, WrittenOut, FileAt;
      ghost var p := View();
      var left := ids;
      while left != {}
        invariant left <= ids && writers.Keys == p.writers.Keys - (ids - left)
        invariant forall id :: id in writers ==> writers[id] == p.writers[id]
        invariant forall id :: FileAt(files, id) == if id in ids && id !in left
          then WrittenOut(FileAt(p.files, id), BufferOf(p.writers, id), now) else FileAt(p.files, id)
        decreases |left|
      {
        var id :| id in left;
        FlushOne(id, now);
        writers := writers - {id};
        left := left - {id};
      }
      var q := Closed(p, ids, now);
      forall id ensures FileAt(files, id) == FileAt(q.files, id) { ClosedAt(p, ids, now, id); }
      SameFileMaps(files, q.files);
      ClosedWriters(p, ids, now);
      SameWriterMaps(writers, q.writers);
    }

    method CloseOldest(now: nat) returns (victim: string)
      requires writers != map[]
      modifies this`files, this`writers
      ensures Oldest(old(writers), victim) && View() == Closed(old(View()), {victim}, now)
    {
      var ids := writers.Keys;
      victim :| victim in ids;
      ids := ids - {victim};
      while ids != {}
        invariant ids <= writers.Keys && victim in writers
        invariant forall id :: id in writers && id !in ids ==> writers[victim].lastUsed <= writers[id].lastUsed
        decreases |ids|
      {
        var id :| id in ids;
        if writers[id].lastUsed < writers[victim].lastUsed { victim := id; }
        ids := ids - {id};
      }
      CloseAll({victim}, now);
    }

    method HandleAppend(id: string, line: string, opens: bool, now: nat) returns (ghost victim: string)
      modifies this
      ensures Crowded(old(View()), id) ==> Oldest(old(writers), victim)
      ensures View() == Append(old(View()), id, line, victim, opens, now)
    {
      hide Closed, Buffered, Oldest, Extend;
      victim := MakeRoom(id, now);
      ghost var room := View();
      if id !in writers {
        if !opens { return; }
        if id !in files { files := files[id := File("", now)]; }
        writers := writers[id := Active("", now)];
      }
      WriteLine(id, line, now);
      dirty := true;
    }

    method MakeRoom(id: string, now: nat) returns (ghost victim: string)
      modifies this`files, this`writers
      ensures Crowded(old(View()), id) ==> Oldest(old(writers), victim)
      ensures View() == MadeRoom(old(View()), id, victim, now)
    {
      hide Closed, Oldest;
      victim := id;
      if id !in writers && |writers| >= MAX_OPEN_JOURNALS { victim := CloseOldest(now); }
    }

    method WriteLine(id: string, line: string, now: nat)
      requires id in writers
      modifies this`files, this`writers
      ensures var first := Buffered(old(writers)[id].buffer, line); var second := Buffered(first.1, "\n");
              && files == Extend(Extend(old(files), id, first.0, now), id, second.0, now)
              && writers == old(writers)[id := Active(second.1, now)]
    {
      hide Buffered, Extend;
      var kept := WriteThrough(id, writers[id].buffer, line, now);
      kept := WriteThrough(id, kept, "\n", now);
      writers := writers[id := Active(kept, now)];
    }

    /** A buffered write: what does not fit goes to the file, in order. */
    method WriteThrough(id: string, buffer: string, text: string, now: nat) returns (kept: string)
      modifies this`files
      ensures files == Extend(old(files), id, Buffered(buffer, text).0, now) && kept == Buffered(buffer, text).1
    {
      if |buffer| + |text| < CAPACITY { return buffer + text; }
      var out := "";
      kept := buffer;
      if |buffer| + |text| > CAPACITY {
        out := kept;
        kept := "";
      }
      if |text| >= CAPACITY {
        out := out + kept + text;
        kept := "";
      } else {
        kept := kept + text;
      }
      if out != "" { files := files[id := File(TextOf(files, id) + out, now)]; }
    }

    method HandleFlush(now: nat)
      modifies this
      ensures View() == FlushNow(old(View()), now)
    {
      hide AllFlushed;
      FlushWriters(now);
      dirty := false;
      nextFlush := now + FLUSH_INTERVAL;
    }

    /** Every writer is written out and closed before any file goes. */
    method HandlePrune(olderThan: nat, stuck: set<string>, now: nat) returns (count: nat)
      modifies this
      ensures View() == Prune(old(View()), olderThan, stuck, now)
      ensures count == |Expired(FlushNow(old(View()), now).files, olderThan, stuck)|
    {
      hide AllFlushed, Expired;
      HandleFlush(now);
      writers := map[];
      count := RemoveExpired(olderThan, stuck);
    }

    method RemoveExpired(olderThan: nat, stuck: set<string>) returns (count: nat)
      modifies this`files
      ensures files == old(files) - Expired(old(files), olderThan, stuck)
        && count == |Expired(old(files), olderThan, stuck)|
    {
      var removed := FindExpired(files, olderThan, stuck);
      files := files - removed;
      count := |removed|;
    }

    static method FindExpired(found: map<string, File>, olderThan: nat, stuck: set<string>)
      returns (removed: set<string>)
      ensures removed == Expired(found, olderThan, stuck)
    {
      removed := {};
      var ids := found.Keys;
      while ids != {}
        invariant ids <= found.Keys
        invariant forall id :: id in removed
                   <==> id in found && id !in ids && found[id].modified < olderThan && id !in stuck
        decreases |ids|
      {
        var id :| id in ids;
        if found[id].modified < olderThan && id !in stuck { removed := removed + {id}; }
        ids := ids - {id};
      }
    }

    method PeriodicTick(now: nat)
      modifies this
      ensures View() == Tick(old(View()), now)
    {
      hide AllFlushed, Closed;
      if now < nextFlush { return; }
      if dirty {
        FlushWriters(now);
        dirty := false;
      }
      var idle := set id | id in writers && now >= writers[id].lastUsed + IDLE_TIMEOUT;
      CloseAll(idle, now);
      nextFlush := now + FLUSH_INTERVAL;
    }
  }

  lemma NothingToWrite(now: nat)
    ensures forall file :: WrittenOut(file, "", now) == file
  {
  }

  lemma AllFlushedWriters(p: Pool, now: nat)
    ensures AllFlushed(p, now) == p.(files := AllFlushed(p, now).files, writers := AllFlushed(p, now).writers)
    ensures AllFlushed(p, now).writers.Keys == p.writers.Keys
    ensures forall id :: id in p.writers ==> AllFlushed(p, now).writers[id] == p.writers[id].(buffer := "")
  {
  }

  lemma ClosedWriters(p: Pool, ids: set<string>, now: nat)
    ensures Closed(p, ids, now).writers == p.writers - ids
    ensures Closed(p, ids, now) == p.(files := Closed(p, ids, now).files, writers := p.writers - ids)
  {
  }
}
