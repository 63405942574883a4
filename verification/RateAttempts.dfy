/** Password attempts under way: the limiter is asked once when a peer connects and once more when its
    password turns out wrong, and other attempts come in between. */
module RateAttempts {
  import opened Wrappers
  import opened RateLimiter

  /** The attempts let through and not finished, numbered in order, with their buckets; `missed` holds those
      whose failure left no record. */
  datatype Door = Door(limiter: Limiter, waiting: map<nat, Bucket>, count: nat, missed: seq<nat>)

  function Opened(clock: nat): Door { Door(Limiter(map[], [], clock), map[], 0, []) }

  datatype Visit =
    | Knock(bucket: Bucket, now: nat)
    | WrongPassword(attempt: nat, now: nat, victim: Bucket)
    | RightPassword(attempt: nat)
    | GivenUp(attempt: nat)

  function OnKnock(d: Door, b: Bucket, now: nat): Door {
    var asked := d.(limiter := Step(d.limiter, Attempt(b, now)));
    if Allowed(d.limiter.table, b, now) then asked.(waiting := d.waiting[d.count := b], count := d.count + 1) else asked
  }

  function OnWrong(d: Door, a: nat, now: nat, victim: Bucket): Door
    requires a in d.waiting
  {
    var b := d.waiting[a];
    var limiter := Step(d.limiter, Fail(b, now, victim));
    var unrecorded := Since(limiter.log, b) == Since(d.limiter.log, b);
    Door(limiter, d.waiting - {a}, d.count, if unrecorded then d.missed + [a] else d.missed)
  }

  /** A visit that is not under way has no effect. */
  function Admit(d: Door, v: Visit): Door {
    match v
    case Knock(b, now) => OnKnock(d, b, now)
    case WrongPassword(a, now, victim) => if a in d.waiting then OnWrong(d, a, now, victim) else d
    case RightPassword(a) =>
      if a in d.waiting then d.(limiter := Step(d.limiter, Succeed(d.waiting[a])), waiting := d.waiting - {a}) else d
    case GivenUp(a) => d.(waiting := d.waiting - {a})
  }

  ghost predicate PossibleVisit(d: Door, v: Visit) {
    match v
    case Knock(b, now) => d.limiter.clock <= now
    case WrongPassword(a, now, victim) => a in d.waiting ==> Possible(d.limiter, Fail(d.waiting[a], now, victim))
    case _ => true
  }

  function Admitted(d: Door, visits: seq<Visit>): Door
    decreases |visits|
  {
    if visits == [] then d else Admitted(Admit(d, visits[0]), visits[1..])
  }

  ghost predicate PossibleVisits(d: Door, visits: seq<Visit>)
    decreases |visits|
  {
    visits != [] ==> PossibleVisit(d, visits[0]) && PossibleVisits(Admit(d, visits[0]), visits[1..])
  }

  ghost predicate DoorInv(d: Door) {
    Inv(d.limiter) && forall a :: a in d.waiting ==> a < d.count
  }

  lemma OpenedIsInv(clock: nat)
    ensures DoorInv(Opened(clock))
  {
    StartIsInv(clock);
  }

  lemma AdmitKeepsInv(d: Door, v: Visit)
    requires DoorInv(d) && PossibleVisit(d, v)
    ensures DoorInv(Admit(d, v))
  {
    hide Inv, Step, Since, Allowed, Possible;
    match v
    case Knock(b, now) =>
      assert Possible(d.limiter, Attempt(b, now)) by { AttemptIsPossible(d.limiter, b, now); }
      StepKeepsInv(d.limiter, Attempt(b, now));
    case WrongPassword(a, now, victim) =>
      if a in d.waiting { StepKeepsInv(d.limiter, Fail(d.waiting[a], now, victim)); }
    case RightPassword(a) =>
      if a in d.waiting {
        assert Possible(d.limiter, Succeed(d.waiting[a])) by { SuccessIsPossible(d.limiter, d.waiting[a]); }
        StepKeepsInv(d.limiter, Succeed(d.waiting[a]));
      }
    case GivenUp(_) =>
  }

  lemma AttemptIsPossible(l: Limiter, b: Bucket, now: nat)
    requires l.clock <= now
    ensures Possible(l, Attempt(b, now))
  {
  }

  lemma SuccessIsPossible(l: Limiter, b: Bucket)
    ensures Possible(l, Succeed(b))
  {
  }

  // ---- When a failure leaves no record ----

  /** A wrong password arrives when five failures of its bucket are on record in the window. */
  predicate Overruns(d: Door, v: Visit) {
    && v.WrongPassword? && v.attempt in d.waiting
    && Recent(d.limiter, d.waiting[v.attempt], v.now) >= 5
  }

  predicate OverrunsDuring(d: Door, visits: seq<Visit>)
    decreases |visits|
  {
    visits != [] && (Overruns(d, visits[0]) || OverrunsDuring(Admit(d, visits[0]), visits[1..]))
  }

  lemma MissedIff(d: Door, v: Visit)
    requires DoorInv(d) && PossibleVisit(d, v)
    ensures Admit(d, v).missed == if Overruns(d, v) then d.missed + [v.attempt] else d.missed
  {
    hide Inv, Step, Since, Recent, Possible, Allowed;
    if v.WrongPassword? && v.attempt in d.waiting {
      FailureRecordedIff(d.limiter, d.waiting[v.attempt], v.now, v.victim);
    }
  }

  lemma {:induction false} MissedOnlyGrows(d: Door, visits: seq<Visit>)
    ensures |d.missed| <= |Admitted(d, visits).missed|
    decreases |visits|
  {
    hide Step, Since, Allowed;
    if visits != [] { MissedOnlyGrows(Admit(d, visits[0]), visits[1..]); }
  }

  lemma {:induction false} MissedRunIff(d: Door, visits: seq<Visit>)
    requires DoorInv(d) && PossibleVisits(d, visits)
    ensures Admitted(d, visits).missed == d.missed <==> !OverrunsDuring(d, visits)
    decreases |visits|
  {
    hide DoorInv, Admit, PossibleVisit, Overruns;
    if visits != [] {
      MissedIff(d, visits[0]);
      AdmitKeepsInv(d, visits[0]);
      MissedOnlyGrows(Admit(d, visits[0]), visits[1..]);
      if !Overruns(d, visits[0]) { MissedRunIff(Admit(d, visits[0]), visits[1..]); }
    }
  }

  /** Over every run, each failure of an attempt that was let through is recorded exactly when none of them
      arrived with five failures of its bucket already on record in the window. */
  lemma EveryFailureRecordedIff(clock: nat, visits: seq<Visit>)
    requires PossibleVisits(Opened(clock), visits)
    ensures Admitted(Opened(clock), visits).missed == [] <==> !OverrunsDuring(Opened(clock), visits)
  {
    hide Admitted, PossibleVisits, OverrunsDuring;
    OpenedIsInv(clock);
    MissedRunIff(Opened(clock), visits);
  }

  // ---- How many attempts may be under way ----

  function Waiters(d: Door, b: Bucket): set<nat> {
    set a | a in d.waiting && d.waiting[a] == b
  }

  /** Attempts under way and recorded failures together fit the window. */
  ghost predicate Modest(d: Door, now: nat) {
    forall b :: |Waiters(d, b)| + Recent(d.limiter, b, now) <= 5
  }

  /** An attempt is let through only when those under way leave it a place. */
  predicate LeavesPlace(d: Door, v: Visit) {
    v.Knock? && Allowed(d.limiter.table, v.bucket, v.now) ==>
      |Waiters(d, v.bucket)| + Recent(d.limiter, v.bucket, v.now) < 5
  }

  predicate LeavesPlaceDuring(d: Door, visits: seq<Visit>)
    decreases |visits|
  {
    visits != [] ==> LeavesPlace(d, visits[0]) && LeavesPlaceDuring(Admit(d, visits[0]), visits[1..])
  }

  /** Failures only leave the window as time goes on. */
  lemma {:induction false} WindowShrinks(q: seq<nat>, clock: nat, now: nat)
    requires clock <= now && forall x :: x in q ==> x <= clock
    ensures CountIn(q, now - 60_000_000_000, now) <= CountIn(q, clock - 60_000_000_000, clock)
  {
    if q != [] {
      var front := q[..|q| - 1];
      forall x | x in front ensures x <= clock { assert x in q; }
      WindowShrinks(front, clock, now);
      assert q[|q| - 1] in q;
    }
  }

  lemma RecentShrinks(l: Limiter, b: Bucket, now: nat)
    requires Inv(l) && l.clock <= now
    ensures Recent(l, b, now) <= Recent(l, b, l.clock)
  {
    hide CountIn, Since, Spread;
    var q := Since(l.log, b);
    assert Keeps(GetOr(l.table, b, []), q, l.clock);
    forall x | x in q ensures x <= l.clock {
      var i :| 0 <= i < |q| && q[i] == x;
      assert x <= Last(q);
    }
    WindowShrinks(q, l.clock, now);
  }

  lemma CountSnoc(q: seq<nat>, x: nat, lo: int, hi: int)
    ensures CountIn(q + [x], lo, hi) == CountIn(q, lo, hi) + if lo <= x <= hi then 1 else 0
  {
    assert (q + [x])[..|q|] == q;
  }

  /** What an event does to the window of each bucket. */
  lemma FailMoves(l: Limiter, b: Bucket, now: nat, victim: Bucket, c: Bucket)
    requires Inv(l) && Possible(l, Fail(b, now, victim))
    ensures var l' := Step(l, Fail(b, now, victim));
            && l'.clock == now
            && (c == b ==>
                  Recent(l', c, now) == Recent(l, c, now) + if Recent(l, c, now) < 5 then 1 else 0)
            && (c != b ==> Recent(l', c, now) <= Recent(l, c, now))
  {
    hide Inv, Pruned, CountIn, Since;
    FailureRecordedIff(l, b, now, victim);
    if c == b {
      CountSnoc(Since(l.log, b), now, now - 60_000_000_000, now);
    } else if Evicts(l.table, b, now) && c == victim {
      EvictionForgets(l, b, now, victim);
      NoneIn(now - 60_000_000_000, now);
    } else {
      OthersKeepTheirRecord(l, b, now, victim, c);
    }
  }

  lemma EvictionForgets(l: Limiter, b: Bucket, now: nat, victim: Bucket)
    requires Evicts(l.table, b, now) && victim != b
    ensures Since(Step(l, Fail(b, now, victim)).log, victim) == []
  {
    hide Pruned, DropExpired;
    SinceSnoc(l.log, Cleared(victim), victim);
    SinceSnoc(l.log + [Cleared(victim)], Failure(b, now), victim);
    assert l.log + [Cleared(victim), Failure(b, now)] == l.log + [Cleared(victim)] + [Failure(b, now)];
  }

  lemma NoneIn(lo: int, hi: int)
    ensures CountIn([], lo, hi) == 0
  {
  }

  lemma SucceedMoves(l: Limiter, b: Bucket, c: Bucket)
    ensures Recent(Step(l, Succeed(b)), c, l.clock) <= Recent(l, c, l.clock)
  {
    hide CountIn, Since;
    SinceSnoc(l.log, Cleared(b), c);
    NoneIn(l.clock - 60_000_000_000, l.clock);
  }

  lemma WaitersLeave(d: Door, a: nat, b: Bucket)
    ensures Waiters(d.(waiting := d.waiting - {a}), b) == Waiters(d, b) - {a}
    ensures a in Waiters(d, b) <==> a in d.waiting && d.waiting[a] == b
    ensures |Waiters(d, b) - {a}| == |Waiters(d, b)| - if a in Waiters(d, b) then 1 else 0
  {
  }

  lemma WaitersJoin(d: Door, b: Bucket, c: Bucket)
    requires d.count !in d.waiting
    ensures var d' := d.(waiting := d.waiting[d.count := b], count := d.count + 1);
            |Waiters(d', c)| == |Waiters(d, c)| + if b == c then 1 else 0
  {
    var d' := d.(waiting := d.waiting[d.count := b], count := d.count + 1);
    assert Waiters(d', c) == Waiters(d, c) + if b == c then {d.count} else {};
  }

  lemma KnockKeepsModest(d: Door, b: Bucket, now: nat)
    requires DoorInv(d) && d.limiter.clock <= now && Modest(d, d.limiter.clock) && LeavesPlace(d, Knock(b, now))
    ensures Modest(OnKnock(d, b, now), now)
  {
    hide Inv, Since, CountIn, Allowed, Pruned, Waiters;
    var e := OnKnock(d, b, now);
    forall c ensures |Waiters(e, c)| + Recent(e.limiter, c, now) <= 5 {
      RecentShrinks(d.limiter, c, now);
      assert Recent(e.limiter, c, now) == Recent(d.limiter, c, now);
      WaitersJoin(d, b, c);
      SameWaiters(d, e, b, c, now);
    }
  }

  lemma SameWaiters(d: Door, e: Door, b: Bucket, c: Bucket, now: nat)
    requires e == OnKnock(d, b, now)
    ensures Allowed(d.limiter.table, b, now) ==>
      Waiters(e, c) == Waiters(d.(waiting := d.waiting[d.count := b], count := d.count + 1), c)
    ensures !Allowed(d.limiter.table, b, now) ==> Waiters(e, c) == Waiters(d, c)
  {
    hide Allowed, Step;
  }

  lemma WrongKeepsModest(d: Door, a: nat, now: nat, victim: Bucket)
    requires DoorInv(d) && a in d.waiting && Possible(d.limiter, Fail(d.waiting[a], now, victim))
    requires Modest(d, d.limiter.clock)
    ensures Modest(OnWrong(d, a, now, victim), now) && !Overruns(d, WrongPassword(a, now, victim))
  {
    hide Inv, Since, Recent, Step, Waiters;
    var b, e := d.waiting[a], OnWrong(d, a, now, victim);
    WaitersLeave(d, a, b);
    RecentShrinks(d.limiter, b, now);
    assert |Waiters(d, b)| + Recent(d.limiter, b, d.limiter.clock) <= 5;
    forall c ensures |Waiters(e, c)| + Recent(e.limiter, c, now) <= 5 {
      WaitersLeave(d, a, c);
      WaitersOf(e, d.(waiting := d.waiting - {a}), c);
      RecentShrinks(d.limiter, c, now);
      FailMoves(d.limiter, b, now, victim, c);
      assert |Waiters(d, c)| + Recent(d.limiter, c, d.limiter.clock) <= 5;
    }
  }

  lemma WaitersOf(d: Door, e: Door, b: Bucket)
    requires d.waiting == e.waiting
    ensures Waiters(d, b) == Waiters(e, b)
  {
  }

  lemma LeavingKeepsModest(d: Door, v: Visit)
    requires Modest(d, d.limiter.clock) && (v.RightPassword? || v.GivenUp?)
    ensures Modest(Admit(d, v), d.limiter.clock) && Admit(d, v).limiter.clock == d.limiter.clock
  {
    hide Recent, Since, Waiters;
    var e := Admit(d, v);
    forall c ensures |Waiters(e, c)| + Recent(e.limiter, c, d.limiter.clock) <= 5 {
      assert |Waiters(d, c)| + Recent(d.limiter, c, d.limiter.clock) <= 5;
      WaitersLeave(d, v.attempt, c);
      if e.waiting == d.waiting - {v.attempt} { WaitersOf(e, d.(waiting := d.waiting - {v.attempt}), c); }
      if v.RightPassword? && v.attempt in d.waiting { SucceedMoves(d.limiter, d.waiting[v.attempt], c); }
    }
  }

  lemma AdmitKeepsModest(d: Door, v: Visit)
    requires DoorInv(d) && PossibleVisit(d, v) && Modest(d, d.limiter.clock) && LeavesPlace(d, v)
    ensures Modest(Admit(d, v), Admit(d, v).limiter.clock) && !Overruns(d, v)
  {
    hide Inv, Modest, LeavesPlace, Possible, Allowed, Pruned, Since, Recorded, Noted;
    match v
    case Knock(b, now) => KnockKeepsModest(d, b, now);
    case WrongPassword(a, now, victim) => if a in d.waiting { WrongKeepsModest(d, a, now, victim); }
    case _ => LeavingKeepsModest(d, v);
  }

  lemma {:induction false} ModestRunsMissNothing(d: Door, visits: seq<Visit>)
    requires DoorInv(d) && PossibleVisits(d, visits) && Modest(d, d.limiter.clock) && LeavesPlaceDuring(d, visits)
    ensures !OverrunsDuring(d, visits)
    decreases |visits|
  {
    hide DoorInv, Modest, Admit, PossibleVisit, Overruns, LeavesPlace;
    if visits != [] {
      AdmitKeepsModest(d, visits[0]);
      AdmitKeepsInv(d, visits[0]);
      ModestRunsMissNothing(Admit(d, visits[0]), visits[1..]);
    }
  }

  /** Nobody knocks while an earlier attempt of the same bucket is under way. */
  predicate SingleFile(d: Door, visits: seq<Visit>)
    decreases |visits|
  {
    visits != [] ==>
      && (visits[0].Knock? ==> Waiters(d, visits[0].bucket) == {})
      && SingleFile(Admit(d, visits[0]), visits[1..])
  }

  lemma {:induction false} SingleFileLeavesPlace(d: Door, visits: seq<Visit>)
    requires DoorInv(d) && PossibleVisits(d, visits) && SingleFile(d, visits)
    ensures LeavesPlaceDuring(d, visits)
    decreases |visits|
  {
    hide Inv, Admit, Allowed, Recent, Possible, Waiters;
    if visits != [] {
      if visits[0].Knock? { AllowedIffRecent(d.limiter, visits[0].bucket, visits[0].now); }
      AdmitKeepsInv(d, visits[0]);
      SingleFileLeavesPlace(Admit(d, visits[0]), visits[1..]);
    }
  }

  lemma AllowedIffRecent(l: Limiter, b: Bucket, now: nat)
    requires Inv(l) && l.clock <= now
    ensures Allowed(l.table, b, now) <==> Recent(l, b, now) < 5
  {
    hide Inv, Allowed, CountIn, Since;
    AllowedIffWindowOpen(l, b, now);
  }

  /** As long as each attempt let through finds a place beside those under way, as when no bucket ever has two
      under way, every failure is recorded. */
  lemma PlacesMeanRecords(clock: nat, visits: seq<Visit>)
    requires PossibleVisits(Opened(clock), visits)
    requires LeavesPlaceDuring(Opened(clock), visits) || SingleFile(Opened(clock), visits)
    ensures Admitted(Opened(clock), visits).missed == []
  {
    hide Admitted, PossibleVisits, OverrunsDuring, LeavesPlaceDuring, SingleFile;
    OpenedIsInv(clock);
    if SingleFile(Opened(clock), visits) { SingleFileLeavesPlace(Opened(clock), visits); }
    assert Modest(Opened(clock), clock) by { OpenedIsModest(clock); }
    ModestRunsMissNothing(Opened(clock), visits);
    EveryFailureRecordedIff(clock, visits);
  }

  lemma OpenedIsModest(clock: nat)
    ensures Modest(Opened(clock), clock)
  {
    forall b ensures |Waiters(Opened(clock), b)| + Recent(Limiter(map[], [], clock), b, clock) <= 5 {
      assert Waiters(Opened(clock), b) == {};
      NoneIn(clock - 60_000_000_000, clock);
    }
  }

  // ---- What a crowd costs ----

  /** Attempts that all fail at one moment. */
  function Burst(ids: seq<nat>, now: nat, victim: Bucket): seq<Visit> {
    seq(|ids|, i requires 0 <= i < |ids| => WrongPassword(ids[i], now, victim))
  }

  function Places(recent: nat): nat {
    if recent < 5 then 5 - recent else 0
  }

  /** Of the attempts of one bucket that fail together, as many are recorded as the window has places; the
      failures of all later ones leave no record. */
  lemma {:induction false} BurstMisses(d: Door, ids: seq<nat>, b: Bucket, now: nat, victim: Bucket)
    requires DoorInv(d) && (forall i :: 0 <= i < |ids| ==> ids[i] in d.waiting && d.waiting[ids[i]] == b)
    requires forall i, j :: 0 <= i < j < |ids| ==> ids[i] != ids[j]
    requires Possible(d.limiter, Fail(b, now, victim))
    ensures PossibleVisits(d, Burst(ids, now, victim))
    ensures var places := Places(Recent(d.limiter, b, now));
            Admitted(d, Burst(ids, now, victim)).missed
              == d.missed + if places <= |ids| then ids[places..] else []
    decreases |ids|
  {
    hide Inv, Step, Recent, Possible;
    if ids == [] {
      assert Burst(ids, now, victim) == [];
      assert d.missed + [] == d.missed;
    } else {
      var v, rest := WrongPassword(ids[0], now, victim), ids[1..];
      var burst := Burst(ids, now, victim);
      assert burst[0] == v && burst[1..] == Burst(rest, now, victim);
      var e := Admit(d, v);
      MissedIff(d, v);
      AdmitKeepsInv(d, v);
      FailMoves(d.limiter, b, now, victim, b);
      AgainIsPossible(d.limiter, b, now, victim);
      forall i | 0 <= i < |rest| ensures rest[i] in e.waiting
        && e.waiting[rest[i]] == b { assert rest[i] == ids[i + 1]; }
      BurstMisses(e, rest, b, now, victim);
      BurstAdds(d.missed, ids, Places(Recent(d.limiter, b, now)));
    }
  }

  lemma BurstAdds(missed: seq<nat>, ids: seq<nat>, places: nat)
    requires ids != []
    ensures places > 0 ==>
      (if places <= |ids| then ids[places..] else [])
        == (if places - 1 <= |ids[1..]| then ids[1..][places - 1..] else [])
    ensures missed + [ids[0]] + ids[1..] == missed + ids[0..]
  {
  }

  lemma AgainIsPossible(l: Limiter, b: Bucket, now: nat, victim: Bucket)
    requires Inv(l) && Possible(l, Fail(b, now, victim))
    ensures Possible(Step(l, Fail(b, now, victim)), Fail(b, now, victim))
  {
    hide Inv, Pruned, Recent, Recorded, Noted;
    var l' := Step(l, Fail(b, now, victim));
    StepKeepsInv(l, Fail(b, now, victim));
    FailMoves(l, b, now, victim, b);
    InWindowInTable(l', b, now);
  }

  /** A bucket with a recent failure is in the table. */
  lemma InWindowInTable(l: Limiter, b: Bucket, now: nat)
    requires Inv(l) && l.clock <= now && Recent(l, b, now) > 0
    ensures b in Pruned(l.table, now)
  {
    hide Keeps, DropExpired, CountIn, Since;
    var live, q := GetOr(l.table, b, []), Since(l.log, b);
    assert Keeps(live, q, l.clock);
    PrunedLookup(l.table, now, b);
    KeptAreRecent(live, q, l.clock, now);
  }

  // ---- Six at once ----

  function SixKnocks(b: Bucket): seq<Visit> {
    [Knock(b, 0), Knock(b, 0), Knock(b, 0)] + [Knock(b, 0), Knock(b, 0), Knock(b, 0)]
  }

  lemma {:induction false} AdmittedSplits(d: Door, visits: seq<Visit>, rest: seq<Visit>)
    ensures Admitted(d, visits + rest) == Admitted(Admitted(d, visits), rest)
    decreases |visits|
  {
    hide Admit;
    if visits == [] {
      assert visits + rest == rest;
    } else {
      assert (visits + rest)[1..] == visits[1..] + rest;
      AdmittedSplits(Admit(d, visits[0]), visits[1..], rest);
    }
  }

  lemma {:induction false} PossibleSplits(d: Door, visits: seq<Visit>, rest: seq<Visit>)
    ensures PossibleVisits(d, visits + rest)
      <==> PossibleVisits(d, visits) && PossibleVisits(Admitted(d, visits), rest)
    decreases |visits|
  {
    hide Admit, PossibleVisit;
    if visits == [] {
      assert visits + rest == rest;
    } else {
      assert (visits + rest)[1..] == visits[1..] + rest;
      PossibleSplits(Admit(d, visits[0]), visits[1..], rest);
    }
  }

  /** A door nobody has failed at, with attempts of one bucket under way. */
  lemma KnockOnEmpty(d: Door, b: Bucket)
    requires d.limiter == Limiter(map[], [], 0)
    ensures PossibleVisit(d, Knock(b, 0))
    ensures Admit(d, Knock(b, 0)) == d.(waiting := d.waiting[d.count := b], count := d.count + 1)
  {
    assert Pruned(map[], 0) == map[];
  }

  lemma OneVisit(d: Door, v: Visit)
    ensures PossibleVisits(d, [v]) <==> PossibleVisit(d, v)
    ensures Admitted(d, [v]) == Admit(d, v)
  {
    hide Admit, PossibleVisit;
    var none: seq<Visit> := [];
    assert [v][1..] == none && PossibleVisits(Admit(d, v), none) && Admitted(Admit(d, v), none) == Admit(d, v);
  }

  lemma ThreeKnocks(d: Door, b: Bucket)
    requires d.limiter == Limiter(map[], [], 0)
    ensures var knocks := [Knock(b, 0), Knock(b, 0), Knock(b, 0)];
            && PossibleVisits(d, knocks)
            && Admitted(d, knocks) == d.(waiting := d.waiting[d.count := b][d.count + 1 := b][d.count + 2 := b],
                                         count := d.count + 3)
  {
    hide Admit, PossibleVisit, Admitted, PossibleVisits;
    var knock := Knock(b, 0);
    KnockOnEmpty(d, b);
    var d1 := Admit(d, knock);
    KnockOnEmpty(d1, b);
    var d2 := Admit(d1, knock);
    KnockOnEmpty(d2, b);
    OneVisit(d, knock);
    OneVisit(d1, knock);
    OneVisit(d2, knock);
    AdmittedSplits(d, [knock], [knock]);
    PossibleSplits(d, [knock], [knock]);
    AdmittedSplits(d, [knock] + [knock], [knock]);
    PossibleSplits(d, [knock] + [knock], [knock]);
    assert [knock] + [knock] + [knock] == [knock, knock, knock];
  }

  /** From an empty table: six attempts of one bucket are let through at once and all fail; the first five
      failures are recorded and the sixth leaves no record. */
  lemma SixthFailureIsMissed(b: Bucket)
    ensures var visits := SixKnocks(b) + Burst([0, 1, 2, 3, 4, 5], 0, b);
            && PossibleVisits(Opened(0), visits)
            && Admitted(Opened(0), SixKnocks(b)).count == 6
            && Admitted(Opened(0), visits).missed == [5] && OverrunsDuring(Opened(0), visits)
  {
    hide Admitted, PossibleVisits, OverrunsDuring, Inv;
    var three := [Knock(b, 0), Knock(b, 0), Knock(b, 0)];
    var ids := [0, 1, 2, 3, 4, 5];
    AdmittedSplits(Opened(0), three, three);
    PossibleSplits(Opened(0), three, three);
    ThreeKnocks(Opened(0), b);
    ThreeKnocks(Admitted(Opened(0), three), b);
    var d := Admitted(Opened(0), SixKnocks(b));
    assert d == Door(Limiter(map[], [], 0), map[0 := b, 1 := b, 2 := b, 3 := b, 4 := b, 5 := b], 6, []);
    StartIsInv(0);
    assert Pruned(map[], 0) == map[];
    assert Recent(d.limiter, b, 0) == 0;
    BurstMisses(d, ids, b, 0, b);
    assert ids[5..] == [5];
    AdmittedSplits(Opened(0), SixKnocks(b), Burst(ids, 0, b));
    PossibleSplits(Opened(0), SixKnocks(b), Burst(ids, 0, b));
    EveryFailureRecordedIff(0, SixKnocks(b) + Burst(ids, 0, b));
  }
}
