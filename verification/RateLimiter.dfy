/** The failed-password limiter: a bounded table of sliding windows with oldest-idle eviction. */
module RateLimiter {
  import opened Wrappers

  /** An IPv4 address or an IPv6 /64 prefix. */
  type Bucket = nat
  type Table = map<Bucket, seq<nat>>

  /** Sixty seconds, in nanoseconds. */
  const WINDOW: nat := 60_000_000_000
  const MAX_PER_BUCKET: nat := 5
  const MAX_BUCKETS: nat := 4096

  // ---- The table ----

  /** Only the front of a queue is ever looked at. */
  function DropExpired(q: seq<nat>, now: nat): seq<nat> {
    if q != [] && q[0] + WINDOW < now then DropExpired(q[1..], now) else q
  }

  function Pruned(t: Table, now: nat): Table {
    map b | b in t && DropExpired(t[b], now) != [] :: DropExpired(t[b], now)
  }

  predicate Allowed(t: Table, b: Bucket, now: nat) {
    |GetOr(Pruned(t, now), b, [])| < MAX_PER_BUCKET
  }

  function Last(q: seq<nat>): nat
    requires q != []
  {
    q[|q| - 1]
  }

  predicate NoEmptyQueue(t: Table) {
    forall b :: b in t ==> t[b] != []
  }

  /** A bucket whose most recent failure is the oldest; any of them may be picked. */
  predicate OldestIdle(t: Table, victim: Bucket)
    requires NoEmptyQueue(t)
  {
    victim in t && forall b :: b in t ==> Last(t[victim]) <= Last(t[b])
  }

  /** An unknown bucket meets a full table. */
  predicate Evicts(t: Table, b: Bucket, now: nat) {
    b !in Pruned(t, now) && |Pruned(t, now)| >= MAX_BUCKETS
  }

  function Recorded(t: Table, b: Bucket, now: nat, victim: Bucket): Table {
    var p := Pruned(t, now);
    if b in p then (if |p[b]| < MAX_PER_BUCKET then p[b := p[b] + [now]] else p)
    else (if |p| >= MAX_BUCKETS then p - {victim} else p)[b := [now]]
  }

  // ---- Runs, with the log of what was recorded ----

  datatype Note = Failure(bucket: Bucket, time: nat) | Cleared(bucket: Bucket)

  /** The failures recorded for a bucket since it was last cleared, oldest first. */
  function Since(log: seq<Note>, b: Bucket): seq<nat> {
    if log == [] then []
    else
      var note, before := log[|log| - 1], Since(log[..|log| - 1], b);
      if note.bucket != b then before else if note.Failure? then before + [note.time] else []
  }

  datatype Limiter = Limiter(table: Table, log: seq<Note>, clock: nat)

  datatype Event =
    | Attempt(bucket: Bucket, now: nat)
    | Fail(bucket: Bucket, now: nat, victim: Bucket)
    | Succeed(bucket: Bucket)

  /** What one failure adds to the log: an eviction clears its victim. */
  function Noted(t: Table, b: Bucket, now: nat, victim: Bucket): seq<Note> {
    var p := Pruned(t, now);
    if b in p then (if |p[b]| < MAX_PER_BUCKET then [Failure(b, now)] else [])
    else (if |p| >= MAX_BUCKETS then [Cleared(victim), Failure(b, now)] else [Failure(b, now)])
  }

  function Step(l: Limiter, e: Event): Limiter {
    match e
    case Attempt(_, now) => l.(table := Pruned(l.table, now), clock := now)
    case Fail(b, now, victim) => Limiter(Recorded(l.table, b, now, victim), l.log + Noted(l.table, b, now, victim), now)
    case Succeed(b) => l.(table := l.table - {b}, log := l.log + [Cleared(b)])
  }

  ghost predicate Possible(l: Limiter, e: Event) {
    match e
    case Attempt(_, now) => l.clock <= now
    case Fail(b, now, victim) => l.clock <= now
      && (Evicts(l.table, b, now) ==> OldestIdle(Pruned(l.table, now), victim))
    case Succeed(_) => true
  }

  function Final(l: Limiter, run: seq<Event>): Limiter
    decreases |run|
  {
    if run == [] then l else Final(Step(l, run[0]), run[1..])
  }

  ghost predicate PossibleRun(l: Limiter, run: seq<Event>)
    decreases |run|
  {
    run != [] ==> Possible(l, run[0]) && PossibleRun(Step(l, run[0]), run[1..])
  }

  // ---- The invariant ----

  predicate Sorted(q: seq<nat>) {
    forall i, j :: 0 <= i < j < |q| ==> q[i] <= q[j]
  }

  /** Any six consecutive failures span more than the window. */
  ghost predicate Spread(q: seq<nat>) {
    forall i, j :: 0 <= i && i + MAX_PER_BUCKET == j < |q| ==> q[i] + WINDOW < q[j]
  }

  /** What the table keeps of a bucket is the recorded queue without an expired front. */
  ghost predicate Keeps(live: seq<nat>, q: seq<nat>, clock: nat) {
    && Sorted(q) && Spread(q)
    && (q != [] ==> Last(q) <= clock)
    && |live| <= |q| && |live| <= MAX_PER_BUCKET
    && live == q[|q| - |live|..]
    && forall i :: 0 <= i < |q| - |live| ==> q[i] + WINDOW < clock
  }

  ghost predicate Inv(l: Limiter) {
    && NoEmptyQueue(l.table)
    && |l.table| <= MAX_BUCKETS
    && forall b :: Keeps(GetOr(l.table, b, []), Since(l.log, b), l.clock)
  }

  // ---- Pruning ----

  lemma {:induction false} DropExpiredSplits(q: seq<nat>, now: nat)
    ensures var kept := DropExpired(q, now); var n := |q| - |kept|;
            && 0 <= n && kept == q[n..]
            && (forall i :: 0 <= i < n ==> q[i] + WINDOW < now)
            && (kept != [] ==> kept[0] + WINDOW >= now)
  {
    if q != [] && q[0] + WINDOW < now {
      DropExpiredSplits(q[1..], now);
      var kept := DropExpired(q[1..], now);
      assert q[|q| - |kept|..] == q[1..][|q[1..]| - |kept|..];
      forall i | 0 <= i < |q| - |kept| ensures q[i] + WINDOW < now {
        if i > 0 { assert q[i] == q[1..][i - 1]; }
      }
    }
  }

  /** Because queues stay sorted, dropping from the front alone removes exactly the expired failures. */
  lemma FrontPruningIsComplete(q: seq<nat>, now: nat)
    requires Sorted(q)
    ensures var kept := DropExpired(q, now);
            && (forall i :: 0 <= i < |q| - |kept| ==> q[i] + WINDOW < now)
            && (forall x :: x in kept ==> x + WINDOW >= now)
  {
    DropExpiredSplits(q, now);
    var kept := DropExpired(q, now);
    forall x | x in kept ensures x + WINDOW >= now {
      var i :| 0 <= i < |kept| && kept[i] == x;
      assert kept[0] == q[|q| - |kept|] && kept[i] == q[|q| - |kept| + i];
    }
  }

  lemma PruneKeeps(live: seq<nat>, q: seq<nat>, clock: nat, now: nat)
    requires Keeps(live, q, clock) && clock <= now
    ensures Keeps(DropExpired(live, now), q, now)
  {
    DropExpiredSplits(live, now);
    var kept := DropExpired(live, now);
    assert kept == q[|q| - |kept|..];
    forall i | 0 <= i < |q| - |kept| ensures q[i] + WINDOW < now {
      if i >= |q| - |live| { assert q[i] == live[i - (|q| - |live|)]; }
    }
  }

  lemma PrunedLookup(t: Table, now: nat, b: Bucket)
    ensures GetOr(Pruned(t, now), b, []) == DropExpired(GetOr(t, b, []), now)
  {
  }

  lemma PrunedSmaller(t: Table, now: nat)
    ensures |Pruned(t, now)| <= |t| && NoEmptyQueue(Pruned(t, now))
  {
    SubsetSmaller(Pruned(t, now).Keys, t.Keys);
  }

  lemma {:induction false} SubsetSmaller<T>(a: set<T>, b: set<T>)
    requires a <= b
    ensures |a| <= |b|
  {
    if a != {} {
      var x :| x in a;
      SubsetSmaller(a - {x}, b - {x});
    }
  }

  /** Pruning leaves no empty queue, no more buckets, and every window as it should be at `now`. */
  lemma PruneKeepsInv(l: Limiter, now: nat)
    requires Inv(l) && l.clock <= now
    ensures Inv(l.(table := Pruned(l.table, now), clock := now))
  {
    hide Keeps, DropExpired;
    PrunedSmaller(l.table, now);
    forall b ensures Keeps(GetOr(Pruned(l.table, now), b, []), Since(l.log, b), now) {
      PrunedLookup(l.table, now, b);
      PruneKeeps(GetOr(l.table, b, []), Since(l.log, b), l.clock, now);
    }
  }

  // ---- Steps ----

  lemma SinceSnoc(log: seq<Note>, note: Note, b: Bucket)
    ensures Since(log + [note], b) == if note.bucket != b then Since(log, b) else if note.Failure?
      then Since(log, b) + [note.time] else []
  {
    assert (log + [note])[..|log|] == log;
  }

  /** One more failure, when the live window is not full, keeps six failures further apart than the window. */
  lemma PushKeeps(live: seq<nat>, q: seq<nat>, now: nat)
    requires Keeps(live, q, now) && |live| < MAX_PER_BUCKET
    ensures Keeps(live + [now], q + [now], now)
  {
    var q' := q + [now];
    forall i, j | 0 <= i && i + MAX_PER_BUCKET == j < |q'| ensures q'[i] + WINDOW < q'[j] {
      if j == |q| { assert i < |q| - |live|; }
    }
    assert live + [now] == q'[|q'| - |live + [now]|..];
  }

  lemma EmptyKeeps(clock: nat)
    ensures Keeps([], [], clock)
  {
  }

  lemma ForgetKeepsInv(l: Limiter, b: Bucket)
    requires Inv(l)
    ensures Inv(l.(table := l.table - {b}, log := l.log + [Cleared(b)]))
  {
    hide Keeps, Since;
    var t := l.table - {b};
    assert t.Keys == l.table.Keys - {b};
    SubsetSmaller(t.Keys, l.table.Keys);
    assert NoEmptyQueue(t);
    forall c ensures Keeps(GetOr(t, c, []), Since(l.log + [Cleared(b)], c), l.clock) {
      SinceSnoc(l.log, Cleared(b), c);
      if c == b { EmptyKeeps(l.clock); } else { assert GetOr(t, c, []) == GetOr(l.table, c, []); }
    }
  }

  lemma PushKeepsInv(l: Limiter, b: Bucket)
    requires Inv(l) && |GetOr(l.table, b, [])| < MAX_PER_BUCKET
    requires b in l.table || |l.table| < MAX_BUCKETS
    ensures Inv(Limiter(l.table[b := GetOr(l.table, b, []) + [l.clock]], l.log + [Failure(b, l.clock)], l.clock))
  {
    hide Keeps, Since;
    var live := GetOr(l.table, b, []);
    var t := l.table[b := live + [l.clock]];
    assert t.Keys == l.table.Keys + {b};
    forall c ensures Keeps(GetOr(t, c, []), Since(l.log + [Failure(b, l.clock)], c), l.clock) {
      SinceSnoc(l.log, Failure(b, l.clock), c);
      if c == b { PushKeeps(live, Since(l.log, b), l.clock); } else { assert GetOr(t, c, []) == GetOr(l.table, c, []); }
    }
  }

  lemma StepKeepsInv(l: Limiter, e: Event)
    requires Inv(l) && Possible(l, e)
    ensures Inv(Step(l, e))
  {
    hide Inv, Pruned, Since;
    match e
    case Attempt(_, now) => PruneKeepsInv(l, now);
    case Succeed(b) => ForgetKeepsInv(l, b);
    case Fail(b, now, victim) =>
      PruneKeepsInv(l, now);
      var p := l.(table := Pruned(l.table, now), clock := now);
      assert |p.table| <= MAX_BUCKETS by { InvBounds(p); }
      if b in p.table {
        if |p.table[b]| < MAX_PER_BUCKET { PushKeepsInv(p, b); } else { assert l.log + [] == l.log; }
      } else if |p.table| >= MAX_BUCKETS {
        ForgetKeepsInv(p, victim);
        var f := p.(table := p.table - {victim}, log := p.log + [Cleared(victim)]);
        assert f.table.Keys == p.table.Keys - {victim};
        PushKeepsInv(f, b);
        assert f.log + [Failure(b, now)] == l.log + [Cleared(victim), Failure(b, now)];
        assert GetOr(f.table, b, []) + [now] == [now];
      } else {
        PushKeepsInv(p, b);
        assert GetOr(p.table, b, []) + [now] == [now];
      }
  }

  lemma InvBounds(l: Limiter)
    requires Inv(l)
    ensures |l.table| <= MAX_BUCKETS && NoEmptyQueue(l.table)
  {
  }

  /** Every reachable table is bounded, holds no empty queue and is the windows of its log. */
  lemma {:induction false} RunKeepsInv(l: Limiter, run: seq<Event>)
    requires Inv(l) && PossibleRun(l, run)
    ensures Inv(Final(l, run))
    decreases |run|
  {
    hide Inv, Step, Possible;
    if run != [] {
      StepKeepsInv(l, run[0]);
      RunKeepsInv(Step(l, run[0]), run[1..]);
    }
  }

  lemma StartIsInv(clock: nat)
    ensures Inv(Limiter(map[], [], clock))
  {
    forall b ensures Keeps(GetOr(map[], b, []), Since([], b), clock) { EmptyKeeps(clock); }
  }

  // ---- The sliding window ----

  /** How many recorded failures lie in a closed interval. */
  function CountIn(q: seq<nat>, lo: int, hi: int): nat {
    if q == [] then 0
    else CountIn(q[..|q| - 1], lo, hi) + if lo <= q[|q| - 1] <= hi then 1 else 0
  }

  lemma {:induction false} CountInSuffix(q: seq<nat>, n: nat, lo: int, hi: int)
    requires n <= |q|
    requires forall i :: 0 <= i < n ==> q[i] < lo
    requires forall i :: n <= i < |q| ==> lo <= q[i] <= hi
    ensures CountIn(q, lo, hi) == |q| - n
    decreases |q|
  {
    if |q| > n {
      CountInSuffix(q[..|q| - 1], n, lo, hi);
    } else if q != [] {
      CountInSuffix(q[..|q| - 1], |q| - 1, lo, hi);
    }
  }

  lemma {:induction false} CountInAtMost(q: seq<nat>, n: nat, lo: int, hi: int)
    requires n <= |q|
    requires forall i :: 0 <= i < n ==> q[i] < lo
    ensures CountIn(q, lo, hi) <= |q| - n
    decreases |q|
  {
    if |q| > n {
      CountInAtMost(q[..|q| - 1], n, lo, hi);
    } else if q != [] {
      CountInAtMost(q[..|q| - 1], |q| - 1, lo, hi);
    }
  }

  /** The limiter is exactly a sliding window: an attempt is let through when fewer than five
      failures were recorded in the last sixty seconds. */
  lemma AllowedIffWindowOpen(l: Limiter, b: Bucket, now: nat)
    requires Inv(l) && l.clock <= now
    ensures Allowed(l.table, b, now) <==> CountIn(Since(l.log, b), now - 60_000_000_000, now) < 5
  {
    hide Keeps, DropExpired, CountIn, Since, Pruned;
    var live, q := GetOr(l.table, b, []), Since(l.log, b);
    PrunedLookup(l.table, now, b);
    PruneKeeps(live, q, l.clock, now);
    KeptAreRecent(live, q, l.clock, now);
  }

  lemma KeptAreRecent(live: seq<nat>, q: seq<nat>, clock: nat, now: nat)
    requires Keeps(live, q, clock) && clock <= now
    ensures |DropExpired(live, now)| == CountIn(q, now - WINDOW, now)
  {
    hide DropExpired, CountIn;
    PruneKeeps(live, q, clock, now);
    DropExpiredSplits(live, now);
    var kept := DropExpired(live, now);
    var n := |q| - |kept|;
    forall i | n <= i < |q| ensures now - WINDOW <= q[i] <= now {
      assert kept[0] == q[n] && q[i] <= Last(q);
    }
    CountInSuffix(q, n, now - WINDOW, now);
  }

  /** No closed interval of sixty seconds ever holds more than five recorded failures. */
  lemma {:induction false} AtMostFivePerWindow(q: seq<nat>, lo: int)
    requires Sorted(q) && Spread(q)
    ensures CountIn(q, lo, lo + 60_000_000_000) <= 5
    decreases |q|
  {
    if q != [] {
      var k := |q| - 1;
      if lo <= q[k] <= lo + WINDOW {
        var n := if k + 1 >= MAX_PER_BUCKET then k + 1 - MAX_PER_BUCKET else 0;
        if n > 0 {
          assert q[n - 1] + WINDOW < q[k] by { assert n - 1 + MAX_PER_BUCKET == k; }
        }
        CountInAtMost(q, n, lo, lo + WINDOW);
      } else {
        assert Sorted(q[..k]) && Spread(q[..k]);
        AtMostFivePerWindow(q[..k], lo);
      }
    }
  }

  lemma BucketNeverExceedsFive(start: nat, run: seq<Event>, b: Bucket, lo: int)
    requires PossibleRun(Limiter(map[], [], start), run)
    ensures CountIn(Since(Final(Limiter(map[], [], start), run).log, b), lo, lo + 60_000_000_000) <= 5
  {
    hide Final, PossibleRun, CountIn;
    var l := Final(Limiter(map[], [], start), run);
    StartIsInv(start);
    RunKeepsInv(Limiter(map[], [], start), run);
    assert Keeps(GetOr(l.table, b, []), Since(l.log, b), l.clock);
    AtMostFivePerWindow(Since(l.log, b), lo);
  }

  /** The failures recorded for a bucket in the last sixty seconds. */
  function Recent(l: Limiter, b: Bucket, now: nat): nat {
    CountIn(Since(l.log, b), now - 60_000_000_000, now)
  }

  /** A failure is recorded exactly when fewer than five recorded ones lie in the window when it arrives;
      the limiter asks the same question again that let the attempt through. */
  lemma FailureRecordedIff(l: Limiter, b: Bucket, now: nat, victim: Bucket)
    requires Inv(l) && Possible(l, Fail(b, now, victim))
    ensures Since(Step(l, Fail(b, now, victim)).log, b)
      == if Recent(l, b, now) < 5 then Since(l.log, b) + [now] else Since(l.log, b)
  {
    hide Keeps, DropExpired, CountIn;
    AllowedIffWindowOpen(l, b, now);
    var notes := Noted(l.table, b, now, victim);
    if Evicts(l.table, b, now) {
      assert victim != b;
      SinceSnoc(l.log, Cleared(victim), b);
      SinceSnoc(l.log + [Cleared(victim)], Failure(b, now), b);
      assert l.log + notes == l.log + [Cleared(victim)] + [Failure(b, now)];
    } else if Recent(l, b, now) < MAX_PER_BUCKET {
      assert notes == [Failure(b, now)];
      SinceSnoc(l.log, Failure(b, now), b);
    } else {
      assert l.log + notes == l.log;
    }
  }

  /** Only success and eviction clear a bucket; no failure of another bucket removes its record otherwise. */
  lemma OthersKeepTheirRecord(l: Limiter, b: Bucket, now: nat, victim: Bucket, other: Bucket)
    requires other != b && !(Evicts(l.table, b, now) && other == victim)
    ensures Since(Step(l, Fail(b, now, victim)).log, other) == Since(l.log, other)
  {
    hide DropExpired;
    var notes := Noted(l.table, b, now, victim);
    if Evicts(l.table, b, now) {
      SinceSnoc(l.log, Cleared(victim), other);
      SinceSnoc(l.log + [Cleared(victim)], Failure(b, now), other);
      assert l.log + notes == l.log + [Cleared(victim)] + [Failure(b, now)];
    } else if notes == [] {
      assert l.log + notes == l.log;
    } else {
      assert notes == [Failure(b, now)];
      SinceSnoc(l.log, Failure(b, now), other);
    }
  }

  // ---- Eviction ----

  /** A bucket with a failure on record at or after a time. */
  predicate FailedSince(log: seq<Note>, b: Bucket, time: nat) {
    exists x :: x in Since(log, b) && x >= time
  }

  /** Losing a bucket whose last failure was at `time` takes at least 4096 other distinct
      buckets that have each failed at or after it. */
  lemma EvictionNeedsManyBuckets(l: Limiter, b: Bucket, now: nat, victim: Bucket) returns (others: set<Bucket>)
    requires Inv(l) && Possible(l, Fail(b, now, victim)) && Evicts(l.table, b, now)
    ensures Since(l.log, victim) != []
    ensures |others| >= 4096 && victim !in others
    ensures forall c :: c in others ==> FailedSince(Step(l, Fail(b, now, victim)).log, c, Last(Since(l.log, victim)))
  {
    hide DropExpired, Keeps, CountIn;
    var p := l.(table := Pruned(l.table, now), clock := now);
    PruneKeepsInv(l, now);
    LastIsLogged(p, victim);
    var time := Last(p.table[victim]);
    others := p.table.Keys - {victim} + {b};
    assert others == (p.table.Keys - {victim}) + {b};
    assert |p.table.Keys - {victim}| == |p.table| - 1;
    forall c | c in others ensures FailedSince(Step(l, Fail(b, now, victim)).log, c, time) {
      if c == b {
        FailureRecordedIff(l, b, now, victim);
        AllowedIffWindowOpen(l, b, now);
        assert now in Since(Step(l, Fail(b, now, victim)).log, b);
      } else {
        LastIsLogged(p, c);
        OthersKeepTheirRecord(l, b, now, victim, c);
        assert Last(p.table[c]) in Since(Step(l, Fail(b, now, victim)).log, c);
      }
    }
  }

  lemma LastIsLogged(l: Limiter, b: Bucket)
    requires Inv(l) && b in l.table
    ensures Since(l.log, b) != [] && Last(l.table[b]) == Last(Since(l.log, b)) && Last(l.table[b]) in Since(l.log, b)
      && Last(l.table[b]) <= l.clock
  {
    assert Keeps(GetOr(l.table, b, []), Since(l.log, b), l.clock);
  }

  /** A failure costs another bucket its record only when 4096 others are live already; the table never
      holds more than that. */
  lemma EvictsOnlyWhenFull(l: Limiter, b: Bucket, now: nat, victim: Bucket)
    requires Inv(l) && Possible(l, Fail(b, now, victim))
    ensures var live := Pruned(l.table, now); var after := Step(l, Fail(b, now, victim)).table;
            && (forall c :: c in live && c != b ==>
                  (c in after && after[c] == live[c]) || (|live| == 4096 && b !in live && c == victim))
            && |after| <= 4096 && (|live| < 4096 ==> live.Keys <= after.Keys)
  {
    hide DropExpired, Keeps, Since;
    StepKeepsInv(l, Fail(b, now, victim));
    PruneKeepsInv(l, now);
  }

  // ---- Sixty seconds ----

  /** A failure at `t` counts up to and including sixty seconds later, and no longer. */
  lemma FailureCountsForSixtySeconds(l: Limiter, b: Bucket, t: nat, now: nat)
    requires Inv(l) && l.clock <= now && Since(l.log, b) == [t] && t <= now
    ensures b in Pruned(l.table, now) <==> now <= t + 60_000_000_000
  {
    hide Keeps, DropExpired, Since;
    CountAll([t], t, now);
    PrunedLookup(l.table, now, b);
    PruneKeeps(GetOr(l.table, b, []), [t], l.clock, now) by { TableKeeps(l, b); }
    KeptAreRecent(GetOr(l.table, b, []), [t], l.clock, now) by { TableKeeps(l, b); }
    PrunedSmaller(l.table, now);
  }

  lemma TableKeeps(l: Limiter, b: Bucket)
    requires Inv(l)
    ensures Keeps(GetOr(l.table, b, []), Since(l.log, b), l.clock)
  {
  }

  /** Failures of one bucket at one moment are all recorded while there are at most five. */
  lemma {:induction false} FailuresAtOnce(l: Limiter, b: Bucket, t: nat, run: seq<Event>)
    requires Inv(l) && l.clock <= t && l.table.Keys <= {b} && (forall x :: x in Since(l.log, b) ==> x == t)
    requires |Since(l.log, b)| + |run| <= 5 && forall e :: e in run ==> e == Fail(b, t, b)
    ensures PossibleRun(l, run)
    ensures var f := Final(l, run);
            && Inv(f) && f.clock <= t && (forall x :: x in Since(f.log, b) ==> x == t)
            && |Since(f.log, b)| == |Since(l.log, b)| + |run|
    decreases |run|
  {
    hide Inv, Pruned, Recorded, Noted, Since, CountIn;
    if run != [] {
      assert run[0] in run && forall e :: e in run[1..] ==> e in run;
      OneMoreFailure(l, b, t);
      FailuresAtOnce(Step(l, Fail(b, t, b)), b, t, run[1..]);
    }
  }

  lemma OneMoreFailure(l: Limiter, b: Bucket, t: nat)
    requires Inv(l) && l.clock <= t && l.table.Keys <= {b} && (forall x :: x in Since(l.log, b) ==> x == t)
    requires |Since(l.log, b)| < 5
    ensures Possible(l, Fail(b, t, b)) && Inv(Step(l, Fail(b, t, b))) && Step(l, Fail(b, t, b)).table.Keys <= {b}
    ensures Since(Step(l, Fail(b, t, b)).log, b) == Since(l.log, b) + [t]
  {
    hide Inv, DropExpired, CountIn, Since;
    SubsetSmaller(Pruned(l.table, t).Keys, {b});
    StepKeepsInv(l, Fail(b, t, b));
    CountAll(Since(l.log, b), t, t);
    FailureRecordedIff(l, b, t, b);
  }

  /** Failures at one moment count together for sixty seconds, and then not at all. */
  lemma {:induction false} CountAll(q: seq<nat>, t: nat, now: nat)
    requires t <= now && forall x :: x in q ==> x == t
    ensures CountIn(q, now - 60_000_000_000, now) == if now <= t + 60_000_000_000 then |q| else 0
    decreases |q|
  {
    if q != [] {
      var front := q[..|q| - 1];
      assert q[|q| - 1] in q && forall x :: x in front ==> x in q;
      CountAll(front, t, now);
    }
  }

  /** From an empty table: after five failures at `t` an attempt is refused up to and including sixty seconds
      later, and allowed from the next nanosecond on; four failures refuse nothing. */
  lemma FiveFailuresRefuseForSixtySeconds(b: Bucket, t: nat, run: seq<Event>, now: nat)
    requires t <= now && 4 <= |run| <= 5 && forall e :: e in run ==> e == Fail(b, t, b)
    ensures PossibleRun(Limiter(map[], [], 0), run)
    ensures Allowed(Final(Limiter(map[], [], 0), run).table, b, now) <==> |run| == 4 || now > t + 60_000_000_000
  {
    hide Inv, Allowed, Final, PossibleRun, CountIn;
    StartIsInv(0);
    FailuresAtOnce(Limiter(map[], [], 0), b, t, run);
    var l := Final(Limiter(map[], [], 0), run);
    CountAll(Since(l.log, b), t, now);
    AllowedIffWindowOpen(l, b, now);
  }

  // ---- The table changed in place ----

  class PasswordLimiter {
    var failures: Table
    ghost var log: seq<Note>
    ghost var clock: nat

    constructor ()
      ensures Valid() && View() == Limiter(map[], [], 0)
    {
      failures, log, clock := map[], [], 0;
      new;
      StartIsInv(0);
    }

    ghost function View(): Limiter
      reads this
    {
      Limiter(failures, log, clock)
    }

    ghost predicate Valid()
      reads this
    {
      Inv(View())
    }

    /** Every queue is advanced past its expired front; emptied ones leave the table. */
    method Prune(now: nat)
      modifies this`failures
      ensures failures == Pruned(old(failures), now)
    {
      ghost var t := failures;
      var keys := failures.Keys;
      while keys != {}
        invariant keys <= t.Keys && failures.Keys <= t.Keys
        invariant forall b :: b in keys ==> b in failures && failures[b] == t[b]
        invariant forall b :: b in t && b !in keys
                   ==> GetOr(failures, b, []) == DropExpired(t[b], now) && (b in failures ==> failures[b] != [])
        decreases |keys|
      {
        var b :| b in keys;
        var attempts := failures[b];
        while attempts != [] && attempts[0] + WINDOW < now
          invariant DropExpired(attempts, now) == DropExpired(t[b], now)
          decreases |attempts|
        {
          attempts := attempts[1..];
        }
        if attempts == [] { failures := failures - {b}; } else { failures := failures[b := attempts]; }
        keys := keys - {b};
      }
    }

    /** The bucket whose most recent failure is furthest in the past goes. */
    method EvictOldest() returns (victim: Bucket)
      requires NoEmptyQueue(failures) && failures != map[]
      modifies this`failures
      ensures OldestIdle(old(failures), victim) && failures == old(failures) - {victim}
    {
      var keys := failures.Keys;
      victim :| victim in keys;
      keys := keys - {victim};
      while keys != {}
        invariant keys <= failures.Keys && victim in failures
        invariant forall b :: b in failures && b !in keys ==> Last(failures[victim]) <= Last(failures[b])
        decreases |keys|
      {
        var b :| b in keys;
        if Last(failures[b]) < Last(failures[victim]) { victim := b; }
        keys := keys - {b};
      }
      failures := failures - {victim};
    }

    method AttemptAllowed(b: Bucket, now: nat) returns (ok: bool)
      requires Valid() && clock <= now
      modifies this
      ensures Valid() && View() == Step(old(View()), Attempt(b, now))
      ensures ok <==> CountIn(Since(log, b), now - 60_000_000_000, now) < 5
    {
      hide Inv, Pruned, Since, CountIn;
      StepKeepsInv(View(), Attempt(b, now));
      AllowedIffWindowOpen(View(), b, now);
      Prune(now);
      clock := now;
      ok := |GetOr(failures, b, [])| < MAX_PER_BUCKET;
    }

    method RecordFailure(b: Bucket, now: nat) returns (ghost victim: Bucket)
      requires Valid() && clock <= now
      modifies this
      ensures Valid() && Possible(old(View()), Fail(b, now, victim))
        && View() == Step(old(View()), Fail(b, now, victim))
    {
      hide Inv, Pruned, DropExpired;
      victim := b;
      ghost var l := View();
      PrunedSmaller(failures, now);
      Prune(now);
      if b in failures {
        var attempts := failures[b];
        if |attempts| < MAX_PER_BUCKET {
          failures := failures[b := attempts + [now]];
        }
      } else {
        if |failures| >= MAX_BUCKETS { victim := EvictOldest(); }
        failures := failures[b := [now]];
      }
      StepKeepsInv(l, Fail(b, now, victim));
      log := log + Noted(l.table, b, now, victim);
      clock := now;
    }

    method Succeed(b: Bucket)
      requires Valid()
      modifies this
      ensures Valid() && View() == Step(old(View()), Event.Succeed(b))
    {
      hide Inv;
      StepKeepsInv(View(), Event.Succeed(b));
      failures := failures - {b};
      log := log + [Cleared(b)];
    }
  }
}
