/** The durable event backlog: queued, taken, committed first-wins, or merged back after a failure. */
module EventBacklog {
  import opened Wrappers

  const MAX_EVENTS: nat := 32_768
  const MAX_BYTES: nat := 16 * 1024 * 1024

  /** The in-memory size of one queued record beside its three strings. */
  const RECORD_SIZE: nat := 88

  /** Strings are byte strings; `id` is the arrival number. */
  datatype Event = Event(id: nat, room: string, run: string, sequence: nat, received: nat, json: string)

  datatype Key = Key(room: string, run: string, sequence: nat)
  datatype Row = Row(received: nat, json: string)
  type Database = map<Key, Row>

  function KeyOf(e: Event): Key { Key(e.room, e.run, e.sequence) }
  function RowOf(e: Event): Row { Row(e.received, e.json) }

  function Estimate(e: Event): nat { |e.room| + |e.run| + |e.json| + RECORD_SIZE }

  function Bytes(events: seq<Event>): nat {
    if events == [] then 0 else Bytes(events[..|events| - 1]) + Estimate(events[|events| - 1])
  }

  // ---- The database ----

  function InsertOrIgnore(db: Database, e: Event): Database {
    if KeyOf(e) in db then db else db[KeyOf(e) := RowOf(e)]
  }

  function FirstWins(db: Database, events: seq<Event>): Database {
    if events == [] then db else InsertOrIgnore(FirstWins(db, events[..|events| - 1]), events[|events| - 1])
  }

  lemma {:induction false} FirstWinsConcat(db: Database, a: seq<Event>, b: seq<Event>)
    ensures FirstWins(db, a + b) == FirstWins(FirstWins(db, a), b)
    decreases |b|
  {
    if b == [] {
      assert a + b == a;
    } else {
      var front := b[..|b| - 1];
      assert (a + b)[..|a + b| - 1] == a + front;
      FirstWinsConcat(db, a, front);
    }
  }

  /** The first event with a key decides its row, unless the database already had one. */
  predicate IsFirst(events: seq<Event>, i: nat, k: Key) {
    i < |events| && KeyOf(events[i]) == k && forall j :: 0 <= j < i ==> KeyOf(events[j]) != k
  }

  lemma {:induction false} FirstWinsMeaning(db: Database, events: seq<Event>, k: Key)
    ensures k in db ==> k in FirstWins(db, events) && FirstWins(db, events)[k] == db[k]
    ensures k !in db && (forall e :: e in events ==> KeyOf(e) != k) ==> k !in FirstWins(db, events)
    ensures k !in db ==> forall i: nat :: IsFirst(events, i, k)
                          ==> k in FirstWins(db, events) && FirstWins(db, events)[k] == RowOf(events[i])
  {
    if events != [] {
      var front, last := events[..|events| - 1], events[|events| - 1];
      FirstWinsMeaning(db, front, k);
      forall i: nat | k !in db && IsFirst(events, i, k)
        ensures k in FirstWins(db, events) && FirstWins(db, events)[k] == RowOf(events[i])
      {
        if i < |front| { assert IsFirst(front, i, k); }
        else { assert forall e :: e in front ==> KeyOf(e) != k; }
      }
    }
  }

  /** An event with these three fields. */
  predicate Carries(e: Event, room: string, run: string, sequence: nat) {
    e.room == room && e.run == run && e.sequence == sequence
  }

  /** A row for room, run and sequence is there after a batch exactly when it was there before or the batch holds an
      event with those three fields. A row that was there stays as it was; a new one has the receipt time and the
      text of the first such event. */
  lemma RowsIff(db: Database, batch: seq<Event>, room: string, run: string, sequence: nat)
    ensures var after, key := FirstWins(db, batch), Key(room, run, sequence);
            && (key in after <==> key in db || exists e :: e in batch && Carries(e, room, run, sequence))
            && (key in db ==> after[key] == db[key])
            && (key !in db ==>
                  forall i ::
                    0 <= i < |batch| && Carries(batch[i], room, run, sequence)
                    && (forall j :: 0 <= j < i ==> !Carries(batch[j], room, run, sequence))
                    ==> after[key].received == batch[i].received && after[key].json == batch[i].json)
  {
    hide FirstWins;
    var key := Key(room, run, sequence);
    FirstWinsMeaning(db, batch, key);
    if e :| e in batch && Carries(e, room, run, sequence) {
      var i := FirstCarrier(batch, room, run, sequence);
      assert IsFirst(batch, i, key);
    }
    forall i | 0 <= i < |batch| && Carries(batch[i], room, run, sequence)
               && (forall j :: 0 <= j < i ==> !Carries(batch[j], room, run, sequence))
      ensures IsFirst(batch, i, key)
    {
    }
  }

  lemma {:induction false} FirstCarrier(batch: seq<Event>, room: string, run: string, sequence: nat) returns (i: nat)
    requires exists e :: e in batch && Carries(e, room, run, sequence)
    ensures i < |batch| && Carries(batch[i], room, run, sequence)
    ensures forall j :: 0 <= j < i ==> !Carries(batch[j], room, run, sequence)
    decreases |batch|
  {
    if Carries(batch[0], room, run, sequence) { return 0; }
    assert batch == [batch[0]] + batch[1..];
    var rest := FirstCarrier(batch[1..], room, run, sequence);
    return rest + 1;
  }

  /** Events that differ in room, run or sequence get a row each. */
  lemma DifferentEventsBothStored(db: Database, batch: seq<Event>, a: Event, b: Event)
    requires a in batch && b in batch && (a.room != b.room || a.run != b.run || a.sequence != b.sequence)
    ensures var after := FirstWins(db, batch);
            var first, second := Key(a.room, a.run, a.sequence), Key(b.room, b.run, b.sequence);
            first != second && first in after && second in after
  {
    hide FirstWins;
    RowsIff(db, batch, a.room, a.run, a.sequence);
    RowsIff(db, batch, b.room, b.run, b.sequence);
  }

  /** Inserting again what is already there changes nothing, so a retry never duplicates a row. */
  lemma {:induction false} RetryInsertsNothing(db: Database, done: seq<Event>, again: seq<Event>)
    requires forall e :: e in again ==> e in done
    ensures FirstWins(FirstWins(db, done), again) == FirstWins(db, done)
    decreases |again|
  {
    if again != [] {
      RetryInsertsNothing(db, done, again[..|again| - 1]);
      KeysOfDone(db, done, again[|again| - 1]);
    }
  }

  lemma {:induction false} KeysOfDone(db: Database, done: seq<Event>, e: Event)
    requires e in done
    ensures KeyOf(e) in FirstWins(db, done)
  {
    if e != done[|done| - 1] { KeysOfDone(db, done[..|done| - 1], e); }
  }

  // ---- The ceilings ----

  predicate Fits(events: seq<Event>) {
    |events| <= MAX_EVENTS && Bytes(events) <= MAX_BYTES
  }

  /** The newest events go until the rest fits. */
  function Trim(events: seq<Event>): (kept: seq<Event>)
    ensures kept <= events
  {
    if events == [] || Fits(events) then events else Trim(events[..|events| - 1])
  }

  lemma {:induction false} TrimIsLongestFit(events: seq<Event>)
    ensures Trim(events) <= events && Fits(Trim(events))
    ensures forall n :: |Trim(events)| < n <= |events| ==> !Fits(events[..n])
  {
    if events != [] && !Fits(events) {
      TrimIsLongestFit(events[..|events| - 1]);
      forall n | |Trim(events)| < n <= |events| ensures !Fits(events[..n]) {
        if n < |events| { assert events[..n] == events[..|events| - 1][..n]; } else { assert events[..n] == events; }
      }
    }
  }

  lemma {:induction false} BytesConcat(a: seq<Event>, b: seq<Event>)
    ensures Bytes(a + b) == Bytes(a) + Bytes(b)
    decreases |b|
  {
    if b == [] {
      assert a + b == a;
    } else {
      assert (a + b)[..|a + b| - 1] == a + b[..|b| - 1];
      BytesConcat(a, b[..|b| - 1]);
    }
  }

  // ---- Any number of overlapping flushers ----

  /** `inflight[f]` is what flusher `f` has taken. The history: everything accepted in arrival
      order, everything committed in commit order, and the arrival numbers dropped. */
  datatype Store = Store(db: Database, pending: seq<Event>, bytes: nat, inflight: seq<seq<Event>>,
                         accepted: seq<Event>, committed: seq<Event>, dropped: seq<Event>)

  function Start(db: Database, flushers: nat): Store {
    Store(db, [], 0, seq(flushers, _ => []), [], [], [])
  }

  datatype Step =
    | Queue(room: string, run: string, sequence: nat, received: nat, json: string)
    | Take(flusher: nat)
    | Commit(flusher: nat)
    | Fail(flusher: nat)

  predicate Accepts(s: Store, e: Event) {
    |s.pending| < MAX_EVENTS && s.bytes + Estimate(e) <= MAX_BYTES
  }

  function Apply(s: Store, step: Step): Store {
    match step
    case Queue(room, run, sequence, received, json) =>
      var e := Event(|s.accepted|, room, run, sequence, received, json);
      if !Accepts(s, e) then s
      else s.(pending := s.pending + [e], bytes := s.bytes + Estimate(e), accepted := s.accepted + [e])
    case Take(f) =>
      if f >= |s.inflight| || s.inflight[f] != [] then s
      else s.(inflight := s.inflight[f := s.pending], pending := [], bytes := 0)
    case Commit(f) =>
      if f >= |s.inflight| then s
      else s.(db := FirstWins(s.db, s.inflight[f]), committed := s.committed + s.inflight[f],
          inflight := s.inflight[f := []])
    case Fail(f) =>
      if f >= |s.inflight| || s.inflight[f] == [] then s
      else
        var merged := s.inflight[f] + s.pending;
        var kept := Trim(merged);
        s.(pending := kept, bytes := Bytes(kept), inflight := s.inflight[f := []],
            dropped := s.dropped + merged[|kept|..])
  }

  function Run(s: Store, steps: seq<Step>): Store
    decreases |steps|
  {
    if steps == [] then s else Run(Apply(s, steps[0]), steps[1..])
  }

  function Flat(batches: seq<seq<Event>>): multiset<Event> {
    if batches == [] then multiset{} else Flat(batches[..|batches| - 1]) + multiset(batches[|batches| - 1])
  }

  lemma {:induction false} FlatUpdate(batches: seq<seq<Event>>, f: nat, batch: seq<Event>)
    requires f < |batches|
    ensures Flat(batches[f := batch]) + multiset(batches[f]) == Flat(batches) + multiset(batch)
  {
    var n := |batches| - 1;
    var after := batches[f := batch];
    if f == n {
      assert after[..n] == batches[..n] && after[n] == batch;
    } else {
      assert after[..n] == batches[..n][f := batch] && after[n] == batches[n];
      FlatUpdate(batches[..n], f, batch);
      Shift(Flat(after[..n]), multiset(batches[f]), Flat(batches[..n]), multiset(batch), multiset(batches[n]));
    }
  }

  lemma Shift<T>(a: multiset<T>, x: multiset<T>, b: multiset<T>, y: multiset<T>, c: multiset<T>)
    requires a + x == b + y
    ensures (a + c) + x == (b + c) + y
  {
    assert (a + c) + x == (a + x) + c;
    assert (b + c) + y == (b + y) + c;
  }

  /** Taking a batch into an idle flusher, and emptying a flusher. */
  lemma FlatTakes(batches: seq<seq<Event>>, f: nat, batch: seq<Event>)
    requires f < |batches|
    ensures batches[f] == [] ==> Flat(batches[f := batch]) == Flat(batches) + multiset(batch)
    ensures Flat(batches) == Flat(batches[f := []]) + multiset(batches[f])
  {
    hide Flat;
    FlatUpdate(batches, f, batch);
    FlatUpdate(batches, f, []);
    var empty: seq<Event> := [];
    assert multiset(empty) == multiset{};
    assert Flat(batches[f := batch]) + multiset{} == Flat(batches[f := batch]);
    assert Flat(batches) + multiset{} == Flat(batches);
  }

  lemma {:induction false} FlatOfIdle(n: nat)
    ensures Flat(seq(n, _ => [])) == multiset{}
  {
    if n > 0 {
      assert seq<seq<Event>>(n, _ => [])[..n - 1] == seq<seq<Event>>(n - 1, _ => []);
      FlatOfIdle(n - 1);
    }
  }

  /** Arrival numbers count up from zero. */
  predicate Numbered(accepted: seq<Event>) {
    forall i :: 0 <= i < |accepted| ==> accepted[i].id == i
  }

  /** Each accepted event is in exactly one place. */
  ghost predicate Conserved(accepted: seq<Event>, committed: seq<Event>, inflight: seq<seq<Event>>,
                            pending: seq<Event>, dropped: seq<Event>) {
    multiset(accepted) == multiset(committed) + Flat(inflight) + multiset(pending) + multiset(dropped)
  }

  ghost predicate Bounded(s: Store) {
    && s.bytes == Bytes(s.pending) && Fits(s.pending)
    && forall f :: 0 <= f < |s.inflight| ==> Fits(s.inflight[f])
  }

  ghost predicate Inv(s: Store, db0: Database) {
    && Numbered(s.accepted)
    && Conserved(s.accepted, s.committed, s.inflight, s.pending, s.dropped)
    && Bounded(s)
    && s.db == FirstWins(db0, s.committed)
  }

  lemma QueueConserves(accepted: seq<Event>, committed: seq<Event>, inflight: seq<seq<Event>>, pending: seq<Event>,
                       dropped: seq<Event>, e: Event)
    requires Conserved(accepted, committed, inflight, pending, dropped)
    ensures Conserved(accepted + [e], committed, inflight, pending + [e], dropped)
  {
    hide Flat;
  }

  lemma TakeConserves(accepted: seq<Event>, committed: seq<Event>, inflight: seq<seq<Event>>, pending: seq<Event>,
                      dropped: seq<Event>, f: nat)
    requires Conserved(accepted, committed, inflight, pending, dropped) && f < |inflight| && inflight[f] == []
    ensures Conserved(accepted, committed, inflight[f := pending], [], dropped)
  {
    hide Flat;
    FlatTakes(inflight, f, pending);
    var a, c, fl, p, d := multiset(accepted), multiset(committed), Flat(inflight), multiset(pending), multiset(dropped);
    var empty: seq<Event> := [];
    assert multiset(empty) == multiset{};
    assert c + (fl + p) + multiset(empty) + d == c + fl + p + d;
  }

  lemma CommitConserves(accepted: seq<Event>, committed: seq<Event>, inflight: seq<seq<Event>>, pending: seq<Event>,
                        dropped: seq<Event>, f: nat)
    requires Conserved(accepted, committed, inflight, pending, dropped) && f < |inflight|
    ensures Conserved(accepted, committed + inflight[f], inflight[f := []], pending, dropped)
  {
    hide Flat;
    FlatTakes(inflight, f, []);
    var c, fl, b, p, d := multiset(committed), Flat(inflight[f := []]), multiset(inflight[f]), multiset(pending),
        multiset(dropped);
    assert multiset(committed + inflight[f]) == c + b;
    assert (c + b) + fl + p + d == c + (fl + b) + p + d;
  }

  lemma FailConserves(accepted: seq<Event>, committed: seq<Event>, inflight: seq<seq<Event>>, pending: seq<Event>,
                      dropped: seq<Event>, f: nat, kept: seq<Event>, lost: seq<Event>)
    requires Conserved(accepted, committed, inflight, pending, dropped) && f < |inflight|
      && kept + lost == inflight[f] + pending
    ensures Conserved(accepted, committed, inflight[f := []], kept, dropped + lost)
  {
    hide Flat;
    FlatTakes(inflight, f, []);
    var c, fl, b, p, d, k, l := multiset(committed), Flat(inflight[f := []]), multiset(inflight[f]), multiset(pending),
        multiset(dropped), multiset(kept), multiset(lost);
    assert k + l == b + p by { assert multiset(kept + lost) == k + l && multiset(inflight[f] + pending) == b + p; }
    assert multiset(dropped + lost) == d + l;
    assert c + fl + k + (d + l) == c + fl + (k + l) + d;
    assert c + fl + (b + p) + d == c + (fl + b) + p + d;
  }

  lemma EmptyFits()
    ensures Fits([]) && Bytes([]) == 0
  {
  }

  lemma ApplyKeepsInv(s: Store, step: Step, db0: Database)
    requires Inv(s, db0)
    ensures Inv(Apply(s, step), db0)
  {
    hide FirstWins, Bytes, Trim, Conserved;
    EmptyFits();
    match step
    case Queue(room, run, sequence, received, json) =>
      var e := Event(|s.accepted|, room, run, sequence, received, json);
      QueueConserves(s.accepted, s.committed, s.inflight, s.pending, s.dropped, e);
      BytesSnoc(s.pending, e);
    case Take(f) =>
      if f < |s.inflight| && s.inflight[f] == [] {
        TakeConserves(s.accepted, s.committed, s.inflight, s.pending, s.dropped, f);
      }
    case Commit(f) =>
      if f < |s.inflight| {
        CommitConserves(s.accepted, s.committed, s.inflight, s.pending, s.dropped, f);
        FirstWinsConcat(db0, s.committed, s.inflight[f]);
      }
    case Fail(f) =>
      if f < |s.inflight| && s.inflight[f] != [] {
        var merged := s.inflight[f] + s.pending;
        var kept := Trim(merged);
        TrimIsLongestFit(merged);
        assert kept + merged[|kept|..] == merged;
        FailConserves(s.accepted, s.committed, s.inflight, s.pending, s.dropped, f, kept, merged[|kept|..]);
      }
  }

  lemma BytesSnoc(events: seq<Event>, e: Event)
    ensures Bytes(events + [e]) == Bytes(events) + Estimate(e)
  {
    assert (events + [e])[..|events|] == events;
  }

  /** In every interleaving of queueing, taking, committing and failing: each accepted event is in
      exactly one of committed, in flight, pending and dropped; the byte count is the sum of the
      estimates; both ceilings hold. */
  lemma {:induction false} RunKeepsInv(s: Store, steps: seq<Step>, db0: Database)
    requires Inv(s, db0)
    ensures Inv(Run(s, steps), db0)
    decreases |steps|
  {
    hide Inv, Apply;
    if steps != [] {
      ApplyKeepsInv(s, steps[0], db0);
      RunKeepsInv(Apply(s, steps[0]), steps[1..], db0);
    }
  }

  lemma StartIsInv(db: Database, flushers: nat)
    ensures Inv(Start(db, flushers), db)
  {
    FlatOfIdle(flushers);
  }

  /** An event is accepted, as the newest, exactly when fewer than 32,768 wait and its three strings and 88 bytes
      more keep the total within 16 MiB; a rejected one leaves no trace. */
  lemma QueuedIff(s: Store, db0: Database, room: string, run: string, sequence: nat, received: nat, json: string)
    requires Inv(s, db0)
    ensures var after := Apply(s, Queue(room, run, sequence, received, json));
            if |s.pending| < 32_768 && Bytes(s.pending) + |room| + |run| + |json| + 88 <= 16_777_216
            then var e := Event(|s.accepted|, room, run, sequence, received, json);
                 && after.pending == s.pending + [e] && after.accepted == s.accepted + [e]
                 && after.db == s.db && after.inflight == s.inflight && after.committed == s.committed
            else after == s
  {
    hide Bytes, FirstWins, Conserved;
  }

  /** In every run at most 32,768 events and 16 MiB wait, and as much at most is in flight with each flusher. */
  lemma CeilingsHold(db: Database, flushers: nat, steps: seq<Step>)
    ensures var s := Run(Start(db, flushers), steps);
            && |s.pending| <= 32_768 && s.bytes == Bytes(s.pending) <= 16_777_216
            && forall f :: 0 <= f < |s.inflight| ==> |s.inflight[f]| <= 32_768 && Bytes(s.inflight[f]) <= 16_777_216
  {
    hide Bytes, FirstWins, Conserved, Run;
    StartIsInv(db, flushers);
    RunKeepsInv(Start(db, flushers), steps, db);
  }

  /** What a failed flush puts back is everything, unless one event more would break a ceiling. */
  lemma FailKeepsAllThatFits(s: Store, f: nat)
    requires f < |s.inflight| && s.inflight[f] != []
    ensures var merged := s.inflight[f] + s.pending; var kept := Apply(s, Fail(f)).pending;
            && kept <= merged
            && (kept != merged ==>
                  |kept| + 1 > 32_768 || Bytes(kept) + Estimate(merged[|kept|]) > 16_777_216)
  {
    hide Bytes, Trim;
    var merged := s.inflight[f] + s.pending;
    var kept := Trim(merged);
    TrimIsLongestFit(merged);
    if kept != merged {
      assert merged[..|kept| + 1] == kept + [merged[|kept|]];
      BytesSnoc(kept, merged[|kept|]);
    }
  }

  /** With a flusher at rest, taking and committing leaves nothing waiting and a row for every event that was. */
  lemma FlushStoresEverything(s: Store, f: nat)
    requires f < |s.inflight| && s.inflight[f] == []
    ensures var after := Apply(Apply(s, Take(f)), Commit(f));
            && after.pending == [] && after.bytes == 0 && after.inflight == s.inflight
            && after.committed == s.committed + s.pending
            && (forall e :: e in s.pending ==> Key(e.room, e.run, e.sequence) in after.db)
            && forall key :: key in s.db ==> key in after.db && after.db[key] == s.db[key]
  {
    hide FirstWins;
    var after := Apply(Apply(s, Take(f)), Commit(f));
    assert after.db == FirstWins(s.db, s.pending);
    forall e | e in s.pending ensures Key(e.room, e.run, e.sequence) in after.db {
      RowsIff(s.db, s.pending, e.room, e.run, e.sequence);
      assert Carries(e, e.room, e.run, e.sequence);
    }
    forall key: Key | key in s.db ensures key in after.db && after.db[key] == s.db[key] {
      RowsIff(s.db, s.pending, key.room, key.run, key.sequence);
    }
  }

  /** In every run a row is there exactly when it was at the start or some committed event has its three fields. */
  lemma RunRowsIff(db: Database, flushers: nat, steps: seq<Step>, room: string, run: string, sequence: nat)
    ensures var s := Run(Start(db, flushers), steps); var key := Key(room, run, sequence);
            key in s.db <==> key in db || exists e :: e in s.committed && Carries(e, room, run, sequence)
  {
    hide Bytes, FirstWins, Conserved, Run, Bounded, Numbered;
    StartIsInv(db, flushers);
    RunKeepsInv(Start(db, flushers), steps, db);
    RowsIff(db, Run(Start(db, flushers), steps).committed, room, run, sequence);
  }

  /** A failed flush drops only a suffix of the merged list, and only as much as the ceilings force. */
  lemma FailDropsOnlyTheNewest(s: Store, f: nat)
    requires f < |s.inflight| && s.inflight[f] != []
    ensures var merged := s.inflight[f] + s.pending; var after := Apply(s, Fail(f));
            && after.pending <= merged && after.dropped == s.dropped + merged[|after.pending|..]
            && (after.pending != merged ==> !Fits(merged[..|after.pending| + 1]))
  {
    hide Trim, Fits, Bytes;
    TrimIsLongestFit(s.inflight[f] + s.pending);
  }

  /** Counted over the four places, every accepted event is there once. */
  lemma InExactlyOnePlace(s: Store, db0: Database, i: nat)
    requires Inv(s, db0) && i < |s.accepted|
    ensures var e := s.accepted[i];
            multiset(s.committed)[e] + Flat(s.inflight)[e] + multiset(s.pending)[e] + multiset(s.dropped)[e] == 1
  {
    hide Flat, FirstWins, Bounded;
    CountOfNumbered(s.accepted, i);
  }

  lemma {:induction false} CountOfNumbered(accepted: seq<Event>, i: nat)
    requires Numbered(accepted) && i < |accepted|
    ensures multiset(accepted)[accepted[i]] == 1
    decreases |accepted|
  {
    var n := |accepted| - 1;
    assert accepted == accepted[..n] + [accepted[n]];
    if i < n {
      CountOfNumbered(accepted[..n], i);
    } else {
      assert forall j :: 0 <= j < n ==> accepted[..n][j].id == j;
      assert accepted[n] !in accepted[..n];
    }
  }

  // ---- One flusher at a time ----

  /** The accepted events that were not dropped, in arrival order. */
  function Kept(accepted: seq<Event>, dropped: seq<Event>): seq<Event> {
    if accepted == [] then []
    else
      var before, e := Kept(accepted[..|accepted| - 1], dropped), accepted[|accepted| - 1];
      if e in dropped then before else before + [e]
  }

  lemma {:induction false} KeptMembers(accepted: seq<Event>, dropped: seq<Event>, e: Event)
    ensures e in Kept(accepted, dropped) <==> e in accepted && e !in dropped
  {
    if accepted != [] { KeptMembers(accepted[..|accepted| - 1], dropped, e); }
  }

  lemma {:induction false} KeptIgnores(accepted: seq<Event>, dropped: seq<Event>, more: seq<Event>)
    requires forall e :: e in more ==> e !in accepted
    ensures Kept(accepted, dropped + more) == Kept(accepted, dropped)
    decreases |accepted|
  {
    if accepted != [] { KeptIgnores(accepted[..|accepted| - 1], dropped, more); }
  }

  /** Dropping a suffix of what is kept keeps the rest as it is. */
  lemma {:induction false} KeptLosesSuffix(accepted: seq<Event>, dropped: seq<Event>, xs: seq<Event>, ys: seq<Event>)
    requires Numbered(accepted) && Kept(accepted, dropped) == xs + ys
    ensures Kept(accepted, dropped + ys) == xs
    decreases |accepted|
  {
    if accepted != [] {
      var n := |accepted| - 1;
      var front, last := accepted[..n], accepted[n];
      if last in dropped {
        KeptLosesSuffix(front, dropped, xs, ys);
      } else if ys == [] {
        assert dropped + ys == dropped && xs + ys == xs;
      } else {
        var m := |ys| - 1;
        assert (xs + ys)[|xs + ys| - 1] == ys[m] && ys[m] == last;
        assert Kept(front, dropped) == (xs + ys)[..|xs + ys| - 1] == xs + ys[..m];
        KeptLosesSuffix(front, dropped, xs, ys[..m]);
        assert last !in front by { assert forall j :: 0 <= j < n ==> front[j].id == j; }
        KeptIgnores(front, dropped + ys[..m], [last]);
        assert dropped + ys[..m] + [last] == dropped + ys by { assert ys == ys[..m] + [last]; }
      }
    }
  }

  ghost predicate SerialInv(s: Store, db0: Database) {
    Inv(s, db0) && |s.inflight| == 1 && Kept(s.accepted, s.dropped) == s.committed + s.inflight[0] + s.pending
  }

  lemma DroppedWereAccepted(s: Store, db0: Database, e: Event)
    requires Inv(s, db0) && e in s.dropped
    ensures e in s.accepted
  {
    hide Flat, FirstWins, Bounded;
    assert multiset(s.accepted)[e] >= multiset(s.dropped)[e] > 0;
  }

  lemma ApplyKeepsSerial(s: Store, step: Step, db0: Database)
    requires SerialInv(s, db0)
    ensures SerialInv(Apply(s, step), db0)
  {
    hide FirstWins, Inv, Trim;
    ApplyKeepsInv(s, step, db0);
    match step
    case Queue(room, run, sequence, received, json) =>
      var e := Event(|s.accepted|, room, run, sequence, received, json);
      if Accepts(s, e) {
        if e in s.dropped { DroppedWereAccepted(s, db0, e); AcceptedIds(s, db0, e); assert false; }
        assert (s.accepted + [e])[..|s.accepted|] == s.accepted;
        assert s.committed + s.inflight[0] + (s.pending + [e]) == s.committed + s.inflight[0] + s.pending + [e];
      }
    case Take(f) =>
      if f == 0 && s.inflight[0] == [] {
        assert s.committed + s.inflight[0] + s.pending == s.committed + s.pending + [];
      }
    case Commit(f) =>
      if f == 0 { assert s.committed + s.inflight[0] + [] + s.pending == s.committed + s.inflight[0] + s.pending; }
    case Fail(f) =>
      if f == 0 && s.inflight[0] != [] {
        var merged := s.inflight[0] + s.pending;
        var kept := Trim(merged);
        var lost := merged[|kept|..];
        assert merged == kept + lost;
        assert s.committed + s.inflight[0] + s.pending == (s.committed + kept) + lost;
        NumberedOf(s, db0);
        KeptLosesSuffix(s.accepted, s.dropped, s.committed + kept, lost);
        assert s.committed + [] + kept == s.committed + kept;
      }
  }

  lemma AcceptedIds(s: Store, db0: Database, e: Event)
    requires Inv(s, db0) && e in s.accepted
    ensures e.id < |s.accepted|
  {
  }

  lemma NumberedOf(s: Store, db0: Database)
    requires Inv(s, db0)
    ensures Numbered(s.accepted)
  {
  }

  lemma {:induction false} RunKeepsSerial(s: Store, steps: seq<Step>, db0: Database)
    requires SerialInv(s, db0)
    ensures SerialInv(Run(s, steps), db0)
    decreases |steps|
  {
    hide SerialInv, Apply;
    if steps != [] {
      ApplyKeepsSerial(s, steps[0], db0);
      RunKeepsSerial(Apply(s, steps[0]), steps[1..], db0);
    }
  }

  /** With one flusher, and any pattern of failures and arrivals: writing what is in flight and then
      what is pending gives the database that inserting every kept event on arrival would have given. */
  lemma FlushingRefinesImmediateInserts(db0: Database, steps: seq<Step>)
    ensures var s := Run(Start(db0, 1), steps);
            && |s.inflight| == 1
            && FirstWins(s.db, s.inflight[0] + s.pending) == FirstWins(db0, Kept(s.accepted, s.dropped))
  {
    hide Run, FirstWins, Kept;
    var s := Run(Start(db0, 1), steps);
    StartIsInv(db0, 1);
    assert Kept([], []) == [] by { NothingKept(); }
    RunKeepsSerial(Start(db0, 1), steps, db0);
    assert Inv(s, db0);
    FirstWinsConcat(db0, s.committed, s.inflight[0] + s.pending);
    assert s.committed + s.inflight[0] + s.pending == s.committed + (s.inflight[0] + s.pending);
  }

  lemma NothingKept()
    ensures Kept([], []) == []
  {
  }

  // ---- Overlapping flushers ----

  /** The earliest arrival with a key among the accepted events that are not in `lost`. */
  predicate Earliest(accepted: seq<Event>, lost: seq<Event>, k: Key, e: Event) {
    && e in accepted && e !in lost && KeyOf(e) == k
    && forall x :: x in accepted && x !in lost && KeyOf(x) == k ==> e.id <= x.id
  }

  /** Inserting on arrival gives a new key the row of its earliest kept event. */
  lemma {:induction false} EarliestDecides(db0: Database, accepted: seq<Event>, lost: seq<Event>, k: Key)
    requires Numbered(accepted) && k !in db0
    ensures var want := FirstWins(db0, Kept(accepted, lost));
            && (k in want <==> exists e :: Earliest(accepted, lost, k, e))
            && (forall e :: Earliest(accepted, lost, k, e) ==> k in want && want[k] == RowOf(e))
  {
    if accepted != [] {
      var front, last := accepted[..|accepted| - 1], accepted[|accepted| - 1];
      EarliestDecides(db0, front, lost, k);
      assert forall x :: x in accepted <==> x in front || x == last;
      assert forall x :: x in front ==> x.id < last.id;
      FirstWinsSnoc(db0, Kept(front, lost), last);
      if last in lost || KeyOf(last) != k {
        assert forall e :: Earliest(accepted, lost, k, e) <==> Earliest(front, lost, k, e);
      } else if e :| Earliest(front, lost, k, e) {
        assert Earliest(accepted, lost, k, e);
        assert forall x :: Earliest(accepted, lost, k, x) ==> x == e || Earliest(front, lost, k, x);
      } else {
        NoEarlier(front, lost, k);
        assert Earliest(accepted, lost, k, last);
        assert forall x :: Earliest(accepted, lost, k, x) ==> x == last;
      }
    }
  }

  lemma FirstWinsSnoc(db: Database, events: seq<Event>, e: Event)
    ensures FirstWins(db, events + [e]) == InsertOrIgnore(FirstWins(db, events), e)
  {
    assert (events + [e])[..|events|] == events;
  }

  /** A kept event with a key means there is an earliest one. */
  lemma {:induction false} NoEarlier(accepted: seq<Event>, lost: seq<Event>, k: Key)
    requires Numbered(accepted) && forall e :: !Earliest(accepted, lost, k, e)
    ensures forall x :: x in accepted && x !in lost ==> KeyOf(x) != k
  {
    if accepted != [] {
      var front, last := accepted[..|accepted| - 1], accepted[|accepted| - 1];
      assert forall x :: x in accepted <==> x in front || x == last;
      assert forall x :: x in front ==> x.id < last.id;
      forall e ensures !Earliest(front, lost, k, e) { assert !Earliest(accepted, lost, k, e); }
      NoEarlier(front, lost, k);
      assert !Earliest(accepted, lost, k, last);
    }
  }

  /** What the database holds is what inserting on arrival would have given those keys. */
  ghost predicate OnTrack(s: Store, db0: Database, lost: seq<Event>) {
    var want := FirstWins(db0, Kept(s.accepted, lost));
    forall k :: k in s.db ==> k in want && s.db[k] == want[k]
  }

  /** The batch gives a new key the row of `e`, although `first`, with another row, had arrived earlier and was kept. */
  predicate Passes(s: Store, batch: seq<Event>, lost: seq<Event>, j: nat, first: Event) {
    && j < |batch| && IsFirst(batch, j, KeyOf(batch[j])) && KeyOf(batch[j]) !in s.db
    && Earliest(s.accepted, lost, KeyOf(batch[j]), first) && RowOf(first) != RowOf(batch[j])
  }

  /** The step commits an event past an earlier arrival with its key. */
  ghost predicate Overtakes(s: Store, step: Step, lost: seq<Event>) {
    && step.Commit? && step.flusher < |s.inflight|
    && exists j: nat, first :: Passes(s, s.inflight[step.flusher], lost, j, first)
  }

  ghost predicate OvertakesDuring(s: Store, steps: seq<Step>, lost: seq<Event>)
    decreases |steps|
  {
    steps != [] && (Overtakes(s, steps[0], lost) || OvertakesDuring(Apply(s, steps[0]), steps[1..], lost))
  }

  /** What was overtaken arrived earlier and is not committed. */
  lemma OvertakenIsWaiting(s: Store, db0: Database, f: nat, lost: seq<Event>, j: nat, first: Event)
    requires Inv(s, db0) && f < |s.inflight| && Passes(s, s.inflight[f], lost, j, first)
    requires s.inflight[f][j] !in lost
    ensures first.id < s.inflight[f][j].id && first in s.accepted && first !in lost && first !in s.committed
  {
    hide Flat, Bounded, Conserved;
    var e := s.inflight[f][j];
    TakenWereAccepted(s, db0, f, e);
    if first in s.committed {
      KeysOfDone(db0, s.committed, first);
    }
  }

  lemma TakenWereAccepted(s: Store, db0: Database, f: nat, e: Event)
    requires Inv(s, db0) && f < |s.inflight| && e in s.inflight[f]
    ensures e in s.accepted && e !in s.committed
  {
    hide Flat, FirstWins, Bounded;
    FlatTakes(s.inflight, f, []);
    assert multiset(s.inflight[f])[e] > 0;
    assert Flat(s.inflight)[e] > 0;
    assert multiset(s.accepted)[e] > 0;
    var i :| 0 <= i < |s.accepted| && s.accepted[i] == e;
    InExactlyOnePlace(s, db0, i);
    assert multiset(s.committed)[e] == 0;
  }

  lemma CommittedWereAccepted(s: Store, db0: Database, e: Event)
    requires Inv(s, db0) && e in s.committed
    ensures e in s.accepted
  {
    hide Flat, FirstWins, Bounded;
    assert multiset(s.accepted)[e] >= multiset(s.committed)[e] > 0;
  }

  /** A key in the database was there from the start or is the key of a committed event. */
  lemma {:induction false} KeysComeFrom(db: Database, events: seq<Event>, k: Key)
    ensures k in FirstWins(db, events) <==> k in db || exists e :: e in events && KeyOf(e) == k
  {
    if events != [] {
      KeysComeFrom(db, events[..|events| - 1], k);
      assert forall e :: e in events <==> e in events[..|events| - 1] || e == events[|events| - 1];
    }
  }

  /** A commit that overtakes nothing stays on track, and one that overtakes never does. */
  lemma CommitOnTrackIff(s: Store, db0: Database, f: nat, lost: seq<Event>)
    requires Inv(s, db0) && f < |s.inflight| && forall e :: e in s.inflight[f] ==> e !in lost
    ensures OnTrack(Apply(s, Commit(f)), db0, lost) <==> OnTrack(s, db0, lost) && !Overtakes(s, Commit(f), lost)
  {
    hide FirstWins, Kept, Inv, Earliest, IsFirst;
    var batch, t := s.inflight[f], Apply(s, Commit(f));
    var want := FirstWins(db0, Kept(s.accepted, lost));
    forall k | k in s.db ensures k in t.db && t.db[k] == s.db[k] { FirstWinsMeaning(s.db, batch, k); }
    if OnTrack(t, db0, lost) && Overtakes(s, Commit(f), lost) {
      var j: nat, first :| Passes(s, batch, lost, j, first);
      NewKeyRow(s, db0, f, lost, j, first);
      assert false;
    }
    if OnTrack(s, db0, lost) && !Overtakes(s, Commit(f), lost) {
      forall k | k in t.db ensures k in want && t.db[k] == want[k] {
        if k !in s.db {
          var j, first := NewKeyFirst(s, db0, f, lost, k);
          NewKeyRow(s, db0, f, lost, j, first);
          assert !Passes(s, batch, lost, j, first);
        }
      }
    }
  }

  /** A key that a commit brings in has a first event in the batch and an earliest kept event. */
  lemma NewKeyFirst(s: Store, db0: Database, f: nat, lost: seq<Event>, k: Key) returns (j: nat, first: Event)
    requires Inv(s, db0) && f < |s.inflight| && (forall e :: e in s.inflight[f] ==> e !in lost)
    requires k !in s.db && k in FirstWins(s.db, s.inflight[f])
    ensures j < |s.inflight[f]| && KeyOf(s.inflight[f][j]) == k && IsFirst(s.inflight[f], j, k)
    ensures Earliest(s.accepted, lost, k, first)
  {
    hide FirstWins, Kept, Inv, Earliest;
    var batch := s.inflight[f];
    KeysComeFrom(s.db, batch, k);
    j := FirstIndex(batch, k);
    TakenWereAccepted(s, db0, f, batch[j]);
    NumberedOf(s, db0);
    first := EarliestOf(s.accepted, lost, k, batch[j]);
  }

  lemma EarliestOf(accepted: seq<Event>, lost: seq<Event>, k: Key, e: Event) returns (first: Event)
    requires Numbered(accepted) && e in accepted && e !in lost && KeyOf(e) == k
    ensures Earliest(accepted, lost, k, first)
  {
    if forall x :: !Earliest(accepted, lost, k, x) { NoEarlier(accepted, lost, k); }
    first :| Earliest(accepted, lost, k, first);
  }

  lemma {:induction false} FirstIndex(events: seq<Event>, k: Key) returns (j: nat)
    requires exists e :: e in events && KeyOf(e) == k
    ensures IsFirst(events, j, k)
  {
    j := 0;
    while KeyOf(events[j]) != k
      invariant j < |events| && forall i :: 0 <= i < j ==> KeyOf(events[i]) != k
      invariant exists i :: j <= i < |events| && KeyOf(events[i]) == k
      decreases |events| - j
    {
      j := j + 1;
    }
  }

  /** A new key gets the row of the first event of the batch; on arrival it would have got the earliest one's. */
  lemma NewKeyRow(s: Store, db0: Database, f: nat, lost: seq<Event>, j: nat, first: Event)
    requires Inv(s, db0) && f < |s.inflight| && j < |s.inflight[f]|
    requires var k := KeyOf(s.inflight[f][j]);
             IsFirst(s.inflight[f], j, k) && k !in s.db && Earliest(s.accepted, lost, k, first)
    ensures var k, want := KeyOf(s.inflight[f][j]), FirstWins(db0, Kept(s.accepted, lost));
            && k in Apply(s, Commit(f)).db && Apply(s, Commit(f)).db[k] == RowOf(s.inflight[f][j])
            && k in want && want[k] == RowOf(first)
  {
    hide FirstWins, Kept, Bounded, Conserved, Earliest;
    var k := KeyOf(s.inflight[f][j]);
    FirstWinsMeaning(s.db, s.inflight[f], k);
    KeysComeFrom(db0, s.committed, k);
    EarliestDecides(db0, s.accepted, lost, k);
  }

  /** Queueing, taking and failing neither leave the track nor come back to it. */
  lemma OthersOnTrackIff(s: Store, db0: Database, step: Step, lost: seq<Event>)
    requires Inv(s, db0) && !step.Commit? && forall e :: e in s.committed ==> e !in lost
    ensures OnTrack(Apply(s, step), db0, lost) <==> OnTrack(s, db0, lost)
  {
    hide FirstWins, Kept, Inv, Trim, Bytes, Fits;
    var t := Apply(s, step);
    if step.Queue? && t.accepted != s.accepted {
      var e := t.accepted[|s.accepted|];
      forall k | k in s.db
        ensures k in FirstWins(db0, Kept(s.accepted, lost)) && k in FirstWins(db0, Kept(t.accepted, lost))
        ensures FirstWins(db0, Kept(t.accepted, lost))[k] == FirstWins(db0, Kept(s.accepted, lost))[k]
      {
        OldKeyStays(s, db0, e, lost, k);
      }
    }
  }

  lemma OldKeyStays(s: Store, db0: Database, e: Event, lost: seq<Event>, k: Key)
    requires Inv(s, db0) && k in s.db && forall x :: x in s.committed ==> x !in lost
    ensures k in FirstWins(db0, Kept(s.accepted, lost))
    ensures k in FirstWins(db0, Kept(s.accepted + [e], lost))
    ensures FirstWins(db0, Kept(s.accepted + [e], lost))[k] == FirstWins(db0, Kept(s.accepted, lost))[k]
  {
    hide FirstWins, Flat, Bounded, Conserved;
    KeysComeFrom(db0, s.committed, k);
    KeysComeFrom(db0, Kept(s.accepted, lost), k);
    if x :| x in s.committed && KeyOf(x) == k {
      CommittedWereAccepted(s, db0, x);
      KeptMembers(s.accepted, lost, x);
    }
    assert (s.accepted + [e])[..|s.accepted|] == s.accepted;
    FirstWinsSnoc(db0, Kept(s.accepted, lost), e);
  }

  lemma ApplyGrows(s: Store, step: Step)
    ensures s.committed <= Apply(s, step).committed && s.accepted <= Apply(s, step).accepted
  {
    hide FirstWins, Trim, Bytes;
  }

  lemma {:induction false} RunGrows(s: Store, steps: seq<Step>)
    ensures s.committed <= Run(s, steps).committed && s.accepted <= Run(s, steps).accepted
    decreases |steps|
  {
    hide Apply;
    if steps != [] {
      ApplyGrows(s, steps[0]);
      RunGrows(Apply(s, steps[0]), steps[1..]);
    }
  }

  lemma OnTrackIff(s: Store, db0: Database, step: Step, lost: seq<Event>)
    requires Inv(s, db0) && forall e :: e in Apply(s, step).committed ==> e !in lost
    ensures OnTrack(Apply(s, step), db0, lost) <==> OnTrack(s, db0, lost) && !Overtakes(s, step, lost)
  {
    hide Inv, OnTrack, FirstWins, Kept, Trim, Bytes, Passes;
    ApplyGrows(s, step);
    if !step.Commit? {
      OthersOnTrackIff(s, db0, step, lost);
    } else if step.flusher < |s.inflight| {
      forall e | e in s.inflight[step.flusher] ensures e !in lost {
        assert e in s.committed + s.inflight[step.flusher];
      }
      CommitOnTrackIff(s, db0, step.flusher, lost);
    }
  }

  lemma {:induction false} OnTrackRunIff(s: Store, db0: Database, steps: seq<Step>, lost: seq<Event>)
    requires Inv(s, db0) && forall e :: e in Run(s, steps).committed ==> e !in lost
    ensures OnTrack(Run(s, steps), db0, lost) <==> OnTrack(s, db0, lost) && !OvertakesDuring(s, steps, lost)
    decreases |steps|
  {
    hide Inv, OnTrack, Apply, Overtakes;
    if steps != [] {
      var t := Apply(s, steps[0]);
      RunGrows(t, steps[1..]);
      assert forall e :: e in t.committed ==> e in Run(s, steps).committed;
      OnTrackIff(s, db0, steps[0], lost);
      ApplyKeepsInv(s, steps[0], db0);
      OnTrackRunIff(t, db0, steps[1..], lost);
    }
  }

  predicate Drained(s: Store) {
    s.pending == [] && Flat(s.inflight) == multiset{}
  }

  /** Once drained, the committed events are the kept ones. */
  lemma DrainedMembers(s: Store, db0: Database, e: Event)
    requires Inv(s, db0) && Drained(s)
    ensures e in s.committed <==> e in Kept(s.accepted, s.dropped)
    ensures e in s.committed ==> e !in s.dropped
  {
    hide Flat, FirstWins, Bounded, Kept;
    KeptMembers(s.accepted, s.dropped, e);
    if e in s.accepted {
      var i :| 0 <= i < |s.accepted| && s.accepted[i] == e;
      CountOfNumbered(s.accepted, i);
    }
    assert multiset(s.accepted)[e] == multiset(s.committed)[e] + multiset(s.dropped)[e];
  }

  lemma DrainedOnTrack(s: Store, db0: Database)
    requires Inv(s, db0) && Drained(s)
    ensures OnTrack(s, db0, s.dropped) <==> s.db == FirstWins(db0, Kept(s.accepted, s.dropped))
  {
    hide FirstWins, Kept, Bounded, Conserved, Drained;
    var want := FirstWins(db0, Kept(s.accepted, s.dropped));
    forall k ensures k in s.db <==> k in want {
      KeysComeFrom(db0, s.committed, k);
      KeysComeFrom(db0, Kept(s.accepted, s.dropped), k);
      forall e ensures e in s.committed <==> e in Kept(s.accepted, s.dropped) { DrainedMembers(s, db0, e); }
    }
  }

  /** However many flushers overlap: once everything has drained, the database is the one that inserting
      every kept event on arrival would have given exactly when no commit of the run overtook an earlier
      kept arrival with the same key and another row. */
  lemma ArrivalOrderIff(db0: Database, flushers: nat, steps: seq<Step>)
    requires Drained(Run(Start(db0, flushers), steps))
    ensures var s := Run(Start(db0, flushers), steps);
            s.db == FirstWins(db0, Kept(s.accepted, s.dropped))
            <==> !OvertakesDuring(Start(db0, flushers), steps, s.dropped)
  {
    hide Run, FirstWins, Kept, Inv, OnTrack, OvertakesDuring, Drained;
    var s := Run(Start(db0, flushers), steps);
    StartIsInv(db0, flushers);
    RunKeepsInv(Start(db0, flushers), steps, db0);
    forall e | e in s.committed ensures e !in s.dropped { DrainedMembers(s, db0, e); }
    OnTrackRunIff(Start(db0, flushers), db0, steps, s.dropped);
    StartsOnTrack(db0, flushers, s.dropped);
    DrainedOnTrack(s, db0);
  }

  lemma StartsOnTrack(db0: Database, flushers: nat, lost: seq<Event>)
    ensures OnTrack(Start(db0, flushers), db0, lost)
  {
    assert Kept([], lost) == [];
  }

  // ---- When nothing can be overtaken, and when something is ----

  predicate DistinctKeys(events: seq<Event>) {
    forall i, j :: 0 <= i < j < |events| ==> KeyOf(events[i]) != KeyOf(events[j])
  }

  lemma {:induction false} DistinctKeysNeverOvertake(s: Store, db0: Database, steps: seq<Step>, lost: seq<Event>)
    requires Inv(s, db0) && DistinctKeys(Run(s, steps).accepted)
    ensures !OvertakesDuring(s, steps, lost)
    decreases |steps|
  {
    hide Inv, Apply, Earliest, IsFirst, DistinctKeys;
    if steps != [] {
      RunGrows(s, steps);
      assert DistinctKeys(s.accepted) by { PrefixDistinct(s.accepted, Run(s, steps).accepted); }
      if Overtakes(s, steps[0], lost) {
        var batch := s.inflight[steps[0].flusher];
        var j: nat, first :| Passes(s, batch, lost, j, first);
        TakenWereAccepted(s, db0, steps[0].flusher, batch[j]);
        DistinctNeverPass(s, batch, lost, j, first);
      }
      ApplyKeepsInv(s, steps[0], db0);
      DistinctKeysNeverOvertake(Apply(s, steps[0]), db0, steps[1..], lost);
    }
  }

  lemma PrefixDistinct(a: seq<Event>, b: seq<Event>)
    requires a <= b && DistinctKeys(b)
    ensures DistinctKeys(a)
  {
    assert forall i :: 0 <= i < |a| ==> a[i] == b[i];
  }

  lemma DistinctNeverPass(s: Store, batch: seq<Event>, lost: seq<Event>, j: nat, first: Event)
    requires DistinctKeys(s.accepted) && j < |batch| && batch[j] in s.accepted
    ensures !Passes(s, batch, lost, j, first)
  {
  }

  /** However many flushers overlapped: when everything has drained and no two accepted events share
      a key, the database is again the one immediate inserts would have given. */
  lemma DistinctKeysMakeOverlapHarmless(db0: Database, flushers: nat, steps: seq<Step>)
    requires Drained(Run(Start(db0, flushers), steps)) && DistinctKeys(Run(Start(db0, flushers), steps).accepted)
    ensures var s := Run(Start(db0, flushers), steps); s.db == FirstWins(db0, Kept(s.accepted, s.dropped))
  {
    hide Run, OvertakesDuring, Drained, Kept, FirstWins, Inv;
    StartIsInv(db0, flushers);
    DistinctKeysNeverOvertake(Start(db0, flushers), db0, steps, Run(Start(db0, flushers), steps).dropped);
    ArrivalOrderIff(db0, flushers, steps);
  }

  function FirstArrival(): Event { Event(0, "room", "run", 0, 1, "first") }
  function SecondArrival(): Event { Event(1, "room", "run", 0, 2, "second") }

  /** Two flushers, each with one of two events that share a key. */
  function BothInFlight(): Store {
    Store(map[], [], 0, [[FirstArrival()], [SecondArrival()]], [FirstArrival(), SecondArrival()], [], [])
  }

  function TakeBoth(): seq<Step> {
    [Queue("room", "run", 0, 1, "first"), Take(0), Queue("room", "run", 0, 2, "second"), Take(1)]
  }

  lemma RunFront(s: Store, steps: seq<Step>)
    requires steps != []
    ensures Run(s, steps) == Run(Apply(s, steps[0]), steps[1..])
  {
  }

  lemma BothInFlightIsReached(rest: seq<Step>)
    ensures Run(Start(map[], 2), TakeBoth() + rest) == Run(BothInFlight(), rest)
  {
    hide Bytes, FirstWins, Flat, Run;
    var a, b := FirstArrival(), SecondArrival();
    var s0 := Start(map[], 2);
    assert s0.inflight == [[], []];
    var s1 := Apply(s0, Queue("room", "run", 0, 1, "first"));
    assert s1.pending == [a] && s1.accepted == [a];
    var s2 := Apply(s1, Take(0));
    assert s2.inflight == [[a], []];
    var s3 := Apply(s2, Queue("room", "run", 0, 2, "second"));
    assert s3.pending == [b] && s3.accepted == [a, b];
    assert s3.inflight[1 := [b]] == [[a], [b]];
    var steps := TakeBoth() + rest;
    RunFront(s0, steps);
    RunFront(s1, steps[1..]);
    RunFront(s2, steps[1..][1..]);
    RunFront(s3, steps[1..][1..][1..]);
    assert steps[1..][1..][1..][1..] == rest;
  }

  /** From an empty store: the later arrival's flusher commits first and overtakes the earlier one; its
      row stays, against arrival order. */
  lemma OverlapBreaksFirstWins()
    ensures var steps := TakeBoth() + [Commit(1), Commit(0)]; var s := Run(Start(map[], 2), steps);
            var k := Key("room", "run", 0);
            && s.pending == [] && s.inflight == [[], []] && s.dropped == []
            && s.db == map[k := Row(2, "second")]
            && FirstWins(map[], Kept(s.accepted, s.dropped)) == map[k := Row(1, "first")]
  {
    hide FirstWins, Kept, Run;
    var k := Key("room", "run", 0);
    var a, b := FirstArrival(), SecondArrival();
    BothInFlightIsReached([Commit(1), Commit(0)]);
    RunFront(BothInFlight(), [Commit(1), Commit(0)]);
    RunOne(Apply(BothInFlight(), Commit(1)), Commit(0));
    assert [Commit(1), Commit(0)][1..] == [Commit(0)];
    FirstWinsOne(map[], b);
    FirstWinsOne(map[k := Row(2, "second")], a);
    KeptTwo(a, b);
    FirstWinsOne(map[], a);
    FirstWinsOne(map[k := Row(1, "first")], b);
    FirstWinsConcat(map[], [a], [b]);
    assert [a] + [b] == [a, b];
  }

  /** The same within one batch: two failed flushes put their batches back in the opposite order. */
  lemma FailedFlushesReorder()
    ensures var steps := TakeBoth() + [Fail(0), Fail(1), Take(0), Commit(0)]; var s := Run(Start(map[], 2), steps);
            var k := Key("room", "run", 0);
            && s.committed == [SecondArrival(), FirstArrival()] && s.pending == [] && s.inflight == [[], []]
            && s.dropped == [] && s.accepted == [FirstArrival(), SecondArrival()]
            && s.db == map[k := Row(2, "second")]
  {
    hide FirstWins, Run, Trim, Fits, Bytes;
    var a, b := FirstArrival(), SecondArrival();
    var d0 := BothInFlight();
    var d1 := Apply(d0, Fail(0));
    SmallFits([a]);
    assert [a] + [] == [a];
    assert d1.pending == [a] && d1.inflight == [[], [b]] && d1.dropped == [];
    var d2 := Apply(d1, Fail(1));
    SmallFits([b, a]);
    assert [b] + [a] == [b, a];
    assert d2.pending == [b, a] && d2.inflight == [[], []] && d2.dropped == [];
    var d3 := Apply(d2, Take(0));
    assert d3.inflight == [[b, a], []];
    var rest := [Fail(0), Fail(1), Take(0), Commit(0)];
    BothInFlightIsReached(rest);
    RunFront(d0, rest);
    RunFront(d1, rest[1..]);
    RunFront(d2, rest[1..][1..]);
    assert rest[1..][1..][1..] == [Commit(0)];
    RunOne(d3, Commit(0));
    FirstWinsOne(map[], b);
    FirstWinsOne(map[Key("room", "run", 0) := Row(2, "second")], a);
    FirstWinsConcat(map[], [b], [a]);
  }

  lemma SmallFits(events: seq<Event>)
    requires events == [FirstArrival()] || events == [SecondArrival(), FirstArrival()]
    ensures Trim(events) == events
  {
    assert [FirstArrival()][..0] == [] && [SecondArrival(), FirstArrival()][..1] == [SecondArrival()];
    assert [SecondArrival()][..0] == [];
    assert Bytes([FirstArrival()]) == 100 && Bytes([SecondArrival()]) == 101;
    assert Fits(events);
  }

  lemma RunOne(s: Store, step: Step)
    ensures Run(s, [step]) == Apply(s, step)
  {
    assert [step][1..] == [];
  }

  lemma FirstWinsOne(db: Database, e: Event)
    ensures FirstWins(db, [e]) == InsertOrIgnore(db, e)
  {
    assert [e][..0] == [];
  }

  lemma KeptTwo(a: Event, b: Event)
    ensures Kept([a, b], []) == [a, b]
  {
    assert Kept([a], []) == [a] by { assert [a][..0] == []; NothingKept(); }
    assert [a, b][..1] == [a];
  }

  // ---- The backlog changed in place ----

  class EventStore {
    var rows: Database
    var pending: seq<Event>
    var bytes: nat

    constructor ()
      ensures Valid() && rows == map[] && pending == []
    {
      rows, pending, bytes := map[], [], 0;
      new;
      EmptyFits();
    }

    ghost predicate Valid()
      reads this
    {
      bytes == Bytes(pending) && Fits(pending)
    }

    method QueueEvent(e: Event) returns (ok: bool)
      requires Valid()
      modifies this`pending, this`bytes
      ensures Valid()
      ensures ok <==> |old(pending)| < MAX_EVENTS && Bytes(old(pending) + [e]) <= MAX_BYTES
      ensures pending == if ok then old(pending) + [e] else old(pending)
    {
      hide Bytes;
      BytesSnoc(pending, e);
      var size := Estimate(e);
      if |pending| >= MAX_EVENTS || bytes + size > MAX_BYTES { return false; }
      bytes := bytes + size;
      pending := pending + [e];
      return true;
    }

    method TakePending() returns (batch: seq<Event>, batchBytes: nat)
      requires Valid()
      modifies this`pending, this`bytes
      ensures Valid() && batch == old(pending) && batchBytes == Bytes(batch) && pending == []
    {
      EmptyFits();
      batch, batchBytes := pending, bytes;
      pending, bytes := [], 0;
    }

    /** One transaction; the count is that of the rows that were new. */
    method CommitBatch(batch: seq<Event>) returns (inserted: nat)
      modifies this`rows
      ensures rows == FirstWins(old(rows), batch) && inserted == |rows| - |old(rows)|
      ensures forall room, run, sequence :: Key(room, run, sequence) in rows <==>
                Key(room, run, sequence) in old(rows) || exists e :: e in batch && Carries(e, room, run, sequence)
    {
      inserted := 0;
      var i := 0;
      while i < |batch|
        invariant i <= |batch| && rows == FirstWins(old(rows), batch[..i]) && |rows| == |old(rows)| + inserted
      {
        assert batch[..i + 1][..i] == batch[..i];
        if KeyOf(batch[i]) !in rows {
          rows := rows[KeyOf(batch[i]) := RowOf(batch[i])];
          inserted := inserted + 1;
        }
        i := i + 1;
      }
      assert batch[..i] == batch;
      forall room, run, sequence: nat
        ensures Key(room, run, sequence) in rows <==>
                Key(room, run, sequence) in old(rows) || exists e :: e in batch && Carries(e, room, run, sequence)
      {
        RowsIff(old(rows), batch, room, run, sequence);
      }
    }

    /** The failed batch goes back in front of whatever arrived meanwhile; the newest overflow goes. */
    method MergeBack(batch: seq<Event>, batchBytes: nat) returns (dropped: nat)
      requires Valid() && batchBytes == Bytes(batch)
      modifies this`pending, this`bytes
      ensures Valid() && pending == Trim(batch + old(pending))
      ensures dropped == |batch| + |old(pending)| - |pending|
    {
      hide Bytes, Trim;
      var merged := batch + pending;
      BytesConcat(batch, pending);
      var size := batchBytes + bytes;
      TrimIsLongestFit(merged);
      dropped := 0;
      while |merged| > MAX_EVENTS || size > MAX_BYTES
        invariant Trim(merged) == Trim(batch + old(pending)) && size == Bytes(merged)
        invariant dropped == |batch| + |old(pending)| - |merged|
        decreases |merged|
      {
        if merged == [] { EmptyFits(); }
        var last := merged[|merged| - 1];
        TrimUnfolds(merged);
        size := size - Estimate(last);
        merged := merged[..|merged| - 1];
        dropped := dropped + 1;
      }
      TrimUnfolds(merged);
      pending, bytes := merged, size;
    }
  }

  lemma TrimUnfolds(events: seq<Event>)
    ensures Fits(events) ==> Trim(events) == events
    ensures !Fits(events) && events != []
      ==> Trim(events) == Trim(events[..|events| - 1])
          && Bytes(events) == Bytes(events[..|events| - 1]) + Estimate(events[|events| - 1])
  {
  }
}
