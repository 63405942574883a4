/** Reliable taps, the shared clock, and the launch barrier. */
module PresenterTaps {
  import opened Wrappers
  import opened Presenter
  import opened PresenterInvariant
  import opened PresenterTheorems
  import opened PresenterCursors

  // ---- Taps ----

  /** The tick emits reliable tap `tap` on screen `id`. */
  ghost predicate EmitsTap(s: State, nowUs: nat, id: string, p: string, x: Sample, tap: Tap) {
    Presents(s, nowUs, id, p, x) && DueTap(Aligned(s, nowUs), s.screens[id], p, x.beat).1 == Some(tap)
  }

  /** The operation neither drops screen `id`'s tap cursor nor re-bases it on a new source. */
  ghost predicate KeepsTapCursor(s: State, op: Op, id: string) {
    && id in s.screens && id in Step(s, op).screens
    && (if op.OpTick? then Presenting(s, op.nowUs, id) ==> Source(s, id) == s.screens[id].source
        else Step(s, op).screens[id].tapCursor == s.screens[id].tapCursor)
  }

  lemma TapCursorNeverDrops(s: State, op: Op, id: string, q: nat)
    requires KeepsTapCursor(s, op, id) && s.screens[id].tapCursor.Some? && q <= s.screens[id].tapCursor.value
    ensures Step(s, op).screens[id].tapCursor.Some? && q <= Step(s, op).screens[id].tapCursor.value
  {
    hide Tick, Eligible, Shown, Releases, Source, ScanTaps;
    if op.OpTick? {
      if Presenting(s, op.nowUs, id) {
        PresentedScreen(s, op.nowUs, id, Source(s, id).value, Shown(s, op.nowUs, Source(s, id).value).value);
      } else {
        IdleScreen(s, op.nowUs, id);
      }
    }
  }

  ghost predicate KeepsTapCursorThroughout(s: State, ops: seq<Op>, id: string)
    decreases |ops|
  {
    ops != [] ==> KeepsTapCursor(s, ops[0], id) && KeepsTapCursorThroughout(Step(s, ops[0]), ops[1..], id)
  }

  lemma {:induction false} TapCursorNeverDropsOverRun(s: State, ops: seq<Op>, id: string, q: nat)
    requires KeepsTapCursorThroughout(s, ops, id) && id in s.screens
    requires s.screens[id].tapCursor.Some? && q <= s.screens[id].tapCursor.value
    ensures var t := Run(s, ops); id in t.screens && t.screens[id].tapCursor.Some? && q <= t.screens[id].tapCursor.value
    decreases |ops|
  {
    hide Step;
    if ops != [] {
      TapCursorNeverDrops(s, ops[0], id, q);
      TapCursorNeverDropsOverRun(Step(s, ops[0]), ops[1..], id, q);
    }
  }

  lemma PresentedEdges(s: State, sc: Screen, slot: Slot, elapsedUs: nat, first: bool, p: string, x: Sample)
    requires slot.participant == Some(p) && sc.page.Some? && Playhead(s, p, elapsedUs) == Some(x)
    ensures var sc' := Present(s, sc, slot, elapsedUs, first); var tap := DueTap(s, sc, p, x.beat).1;
            && sc'.page.Some? && sc'.page.value.Input? && sc'.page.value.flags.capture && sc'.page.value.commit != 0
            && sc'.page.value.judgementBeat == (if tap.Some? then Some(tap.value.judgementBeat) else None)
            && sc'.page.value.flags.tapPressed
               == (if tap.Some? then tap.value.pressed else IsNewSample(sc, p, x) && x.flags.rawPressed)
            && sc'.page.value.flags.tapReleased
               == (if tap.Some? then tap.value.released else IsNewSample(sc, p, x) && x.flags.rawReleased)
  {
    hide DueTap, LastScore, Truncate, Playhead, OffsetOf;
  }

  /** The edges a tick publishes on a screen come from one source: the due reliable tap with its
      judgement beat, or else the raw edges of a sample not shown before, without one. */
  lemma EdgesComeFromOneSource(s: State, nowUs: nat, id: string, p: string, x: Sample)
    requires Presents(s, nowUs, id, p, x)
    ensures id in Tick(s, nowUs).screens && Tick(s, nowUs).screens[id].page.Some?
      && Tick(s, nowUs).screens[id].page.value.Input?
    ensures var page := Tick(s, nowUs).screens[id].page.value;
            var tap := DueTap(Aligned(s, nowUs), s.screens[id], p, x.beat).1;
            var unseen := s.screens[id].source != Some(p) || s.screens[id].sampleCursor != Some(x.sequence);
            if tap.Some? then
              && EmitsTap(s, nowUs, id, p, x, tap.value)
              && page.judgementBeat == Some(tap.value.judgementBeat)
              && page.flags.tapPressed == tap.value.pressed && page.flags.tapReleased == tap.value.released
            else
              && page.judgementBeat == None
              && page.flags.tapPressed == (unseen && x.flags.rawPressed)
              && page.flags.tapReleased == (unseen && x.flags.rawReleased)
  {
    hide NextEpoch, CommonDelay, Cohort, ResolveAnchors, Eligible, FindSlot, DueTap, Present, Playhead;
    var t := Aligned(s, nowUs);
    var e := t.epoch.value;
    PresentedEdges(t, s.screens[id], FindSlot(Eligible(s), id).value, nowUs - e.releaseAtUs, !e.released, p, x);
  }

  /** Showing the same sample again within an epoch publishes no edge of its own. */
  lemma RepeatedSampleIsSilent(s: State, now1: nat, ops: seq<Op>, now2: nat, id: string, p: string, x: Sample,
                               y: Sample, cohort: set<string>, releaseAtUs: nat)
    requires Inv(s) && p in cohort && Presents(s, now1, id, p, x) && InEpoch(Tick(s, now1), cohort, releaseAtUs)
    requires Stretch(Tick(s, now1), ops, id, p, cohort, releaseAtUs, now1)
    requires LastClock(ops, now1) <= now2 && Presents(Run(Tick(s, now1), ops), now2, id, p, y)
      && y.sequence == x.sequence
    requires InEpoch(Tick(Run(Tick(s, now1), ops), now2), cohort, releaseAtUs)
    requires DueTap(Aligned(Run(Tick(s, now1), ops), now2), Run(Tick(s, now1), ops).screens[id], p, y.beat).1.None?
    ensures var t := Tick(Run(Tick(s, now1), ops), now2);
            id in t.screens && t.screens[id].page.Some? && t.screens[id].page.value.Input?
            && !t.screens[id].page.value.flags.tapPressed && !t.screens[id].page.value.flags.tapReleased
  {
    hide Inv, Tick, Run, Stretch, LastClock, DueTap, InEpoch, Aligned, Releases, Eligible, Source, Shown;
    RawEdgesEmittedOnce(s, now1, ops, now2, id, p, x, y, cohort, releaseAtUs);
    EdgesComeFromOneSource(Run(Tick(s, now1), ops), now2, id, p, y);
  }

  lemma EmittedTapIsCursor(s: State, nowUs: nat, id: string, p: string, x: Sample, tap: Tap)
    requires EmitsTap(s, nowUs, id, p, x, tap)
    ensures id in Tick(s, nowUs).screens && Tick(s, nowUs).screens[id].tapCursor == Some(tap.sequence)
    ensures StartCursor(Aligned(s, nowUs), s.screens[id], p, x.beat) < tap.sequence
  {
    hide Tick, Eligible, Shown, Releases, Source, ScanTaps, StartCursor;
    PresentedScreen(s, nowUs, id, p, x);
  }

  /** Between cursor resets the taps emitted on a screen have strictly increasing sequences,
      whatever was evicted, pushed again or arrived out of order: none is emitted twice. */
  lemma TapsEmittedInIncreasingOrder(s: State, now1: nat, ops: seq<Op>, now2: nat, id: string,
                                     p: string, x: Sample, tap1: Tap, r: string, y: Sample, tap2: Tap)
    requires EmitsTap(s, now1, id, p, x, tap1)
    requires KeepsTapCursorThroughout(Tick(s, now1), ops + [OpTick(now2)], id)
    requires EmitsTap(Run(Tick(s, now1), ops), now2, id, r, y, tap2)
    ensures tap1.sequence < tap2.sequence
  {
    var b := Run(Tick(s, now1), ops);
    EmittedTapIsCursor(s, now1, id, p, x, tap1);
    KeepsSplits(Tick(s, now1), ops, OpTick(now2), id);
    TapCursorNeverDropsOverRun(Tick(s, now1), ops, id, tap1.sequence);
    EmittedTapIsCursor(b, now2, id, r, y, tap2);
    hide Tick, Run, Eligible, Shown, Releases, Source, DueTap, Baseline;
  }

  lemma {:induction false} KeepsSplits(s: State, ops: seq<Op>, op: Op, id: string)
    requires KeepsTapCursorThroughout(s, ops + [op], id)
    ensures KeepsTapCursorThroughout(s, ops, id) && KeepsTapCursor(Run(s, ops), op, id)
    decreases |ops|
  {
    hide KeepsTapCursor, Step;
    if ops == [] {
      assert ops + [op] == [op];
    } else {
      assert (ops + [op])[0] == ops[0] && (ops + [op])[1..] == ops[1..] + [op];
      KeepsSplits(Step(s, ops[0]), ops[1..], op, id);
    }
  }

  /** Taps that arrived in sequence order and in beat order. */
  predicate InOrder(taps: seq<Tap>) {
    forall i, j :: 0 <= i < j < |taps| ==> taps[i].sequence < taps[j].sequence && taps[i].beat <= taps[j].beat
  }

  /** With taps in order, one scan passes a tap only by emitting it or because it is more than
      0.05 beat behind the sample, and when it emits nothing, no unconsumed tap was due. */
  lemma {:induction false} ScanPassesEmittedOrLate(taps: seq<Tap>, cursor: nat, beat: real)
    requires InOrder(taps)
    ensures var (c, due) := ScanTaps(taps, cursor, beat);
            && (forall t :: t in taps && cursor < t.sequence <= c ==> due == Some(t) || t.beat < beat - 0.05)
            && (due.None? ==> forall t :: t in taps && cursor < t.sequence ==> !(beat - 0.05 <= t.beat <= beat + 0.001))
  {
    if taps != [] {
      var event, rest := taps[0], taps[1..];
      assert forall t :: t in rest ==> event.sequence < t.sequence && event.beat <= t.beat by {
        forall t | t in rest ensures event.sequence < t.sequence && event.beat <= t.beat {
          var k :| 0 <= k < |rest| && rest[k] == t;
          assert taps[k + 1] == t;
        }
      }
      if event.sequence <= cursor {
        ScanPassesEmittedOrLate(rest, cursor, beat);
      } else if event.beat > beat + 0.001 {
        FutureTapsNotReached(rest, cursor, beat);
      } else if event.beat + 0.05 < beat {
        ScanPassesEmittedOrLate(rest, event.sequence, beat);
      }
    }
  }

  lemma {:induction false} FutureTapsNotReached(taps: seq<Tap>, cursor: nat, beat: real)
    requires forall t :: t in taps ==> t.beat > beat + 0.001
    ensures ScanTaps(taps, cursor, beat) == (cursor, None)
  {
    if taps != [] {
      assert taps[0] in taps;
      FutureTapsNotReached(taps[1..], cursor, beat);
    }
  }

  /** With taps in order, re-basing on a new source also skips only taps clearly behind the sample. */
  lemma {:induction false} BaselineSkipsOnlyLateTaps(taps: seq<Tap>, beat: real)
    requires InOrder(taps)
    ensures forall t :: t in taps && t.sequence <= Baseline(taps, beat) ==> t.beat < beat - 0.05 || t.sequence == 0
  {
    if taps != [] {
      var last := taps[|taps| - 1];
      if last.beat >= beat - 0.05 {
        var rest := taps[..|taps| - 1];
        BaselineSkipsOnlyLateTaps(rest, beat);
        BaselineIsInside(rest, beat);
        assert forall t :: t in taps ==> t == last || t in rest;
      } else {
        forall t | t in taps ensures t.beat < beat - 0.05 {
          var k :| 0 <= k < |taps| && taps[k] == t;
        }
      }
    }
  }

  lemma {:induction false} BaselineIsInside(taps: seq<Tap>, beat: real)
    ensures Baseline(taps, beat) == 0 || exists t :: t in taps && t.sequence == Baseline(taps, beat)
  {
    if taps != [] {
      if taps[|taps| - 1].beat < beat - 0.05 {
        assert taps[|taps| - 1] in taps;
      } else {
        BaselineIsInside(taps[..|taps| - 1], beat);
      }
    }
  }

  // ---- When a scan loses a tap ----

  /** One scan moves the cursor past a tap that it did not emit although the tap was not yet late. */
  predicate LosesTap(taps: seq<Tap>, cursor: nat, beat: real, tap: Tap) {
    var (c, due) := ScanTaps(taps, cursor, beat);
    tap in taps && cursor < tap.sequence <= c && due != Some(tap) && beat - 0.05 <= tap.beat
  }

  /** A tap never lies behind a later one in beats, and when it arrived after the later one it lies so
      far ahead of it in beats that it is late whenever the later one is reached. */
  predicate Harmless(t: Tap, u: Tap, inOrder: bool) {
    0 < t.sequence < u.sequence ==> if inOrder then t.beat <= u.beat else t.beat < u.beat - 0.051
  }

  predicate ScanSafe(taps: seq<Tap>) {
    forall i, j :: 0 <= i < j < |taps| ==> Harmless(taps[i], taps[j], true) && Harmless(taps[j], taps[i], false)
  }

  /** The cursor a scan leaves is where it started or belongs to an event that was reached. */
  lemma {:induction false} CursorWasReached(taps: seq<Tap>, cursor: nat, beat: real)
    ensures var c := ScanTaps(taps, cursor, beat).0;
            c == cursor || exists u :: u in taps && u.sequence == c && u.beat <= beat + 0.001
  {
    if taps != [] {
      var event, rest := taps[0], taps[1..];
      if event.sequence <= cursor || event.beat > beat + 0.001 {
        CursorWasReached(rest, cursor, beat);
      } else if event.beat + 0.05 < beat {
        CursorWasReached(rest, event.sequence, beat);
      }
    }
  }

  lemma TailIsSafe(taps: seq<Tap>)
    requires taps != [] && ScanSafe(taps) && DistinctTaps(taps)
    ensures ScanSafe(taps[1..]) && DistinctTaps(taps[1..])
    ensures forall t :: t in taps[1..] ==>
      Harmless(taps[0], t, true) && Harmless(t, taps[0], false) && t.sequence != taps[0].sequence
  {
    hide Harmless;
    var rest := taps[1..];
    assert forall i :: 0 <= i < |rest| ==> rest[i] == taps[i + 1];
  }

  lemma {:induction false} SafeScanLosesNothing(taps: seq<Tap>, cursor: nat, beat: real, tap: Tap)
    requires ScanSafe(taps) && DistinctTaps(taps)
    ensures !LosesTap(taps, cursor, beat, tap)
  {
    hide ScanSafe, DistinctTaps;
    if taps != [] {
      var event, rest := taps[0], taps[1..];
      TailIsSafe(taps);
      assert tap in taps ==> tap == event || tap in rest;
      if event.sequence <= cursor || event.beat > beat + 0.001 {
        SafeScanLosesNothing(rest, cursor, beat, tap);
        CursorWasReached(rest, cursor, beat);
      } else if event.beat + 0.05 < beat {
        SafeScanLosesNothing(rest, event.sequence, beat, tap);
      }
    }
  }

  /** A scan started just below a future or an already passed tap steps over it when it can reach an event
      with a greater sequence. */
  lemma {:induction false} ScanStepsOver(taps: seq<Tap>, cursor: nat, beat: real, t: Tap, j: nat)
    requires j < |taps| && taps[j].sequence > t.sequence && taps[j].beat <= beat + 0.001 && taps[j].beat + 0.05 >= beat
    requires cursor + 1 == t.sequence || t.sequence < cursor
    requires t.beat > beat + 0.001 || t.sequence < cursor || t !in taps[..j]
    requires forall i :: 0 <= i < |taps| && taps[i].sequence == t.sequence ==> taps[i] == t
    ensures var (c, due) := ScanTaps(taps, cursor, beat); t.sequence < c && due != Some(t)
    decreases |taps|
  {
    var event, rest := taps[0], taps[1..];
    assert forall i :: 0 <= i < |rest| ==> rest[i] == taps[i + 1];
    if event.sequence <= cursor || event.beat > beat + 0.001 {
      if j > 0 {
        assert taps[..j] == [event] + rest[..j - 1];
        ScanStepsOver(rest, cursor, beat, t, j - 1);
      } else {
        assert event == taps[j];
        AboveStaysAbove(rest, cursor, beat);
      }
    } else if event.beat + 0.05 < beat {
      assert j > 0;
      assert taps[..j] == [event] + rest[..j - 1];
      assert event != t;
      ScanStepsOver(rest, event.sequence, beat, t, j - 1);
    } else {
      assert event != t;
    }
  }

  lemma AboveStaysAbove(taps: seq<Tap>, cursor: nat, beat: real)
    ensures var (c, due) := ScanTaps(taps, cursor, beat); cursor <= c && (due.Some? ==> cursor < due.value.sequence)
  {
  }

  /** An unsafe pair is lost by the scan that starts just below it, at the beat where the later one becomes due. */
  lemma UnsafePairIsLost(taps: seq<Tap>, i: nat, j: nat)
    requires DistinctTaps(taps) && i < |taps| && j < |taps| && i != j && !Harmless(taps[i], taps[j], i < j)
    ensures 0 < taps[i].sequence && LosesTap(taps, taps[i].sequence - 1, taps[j].beat - 0.001, taps[i])
  {
    var t, u := taps[i], taps[j];
    var beat := u.beat - 0.001;
    if j < i { assert t !in taps[..j]; }
    ScanStepsOver(taps, t.sequence - 1, beat, t, j);
  }

  /** Which buffers are sure to lose nothing: exactly those without an unsafe pair. */
  lemma ScanSafeIff(taps: seq<Tap>)
    requires DistinctTaps(taps)
    ensures ScanSafe(taps) <==> forall cursor: nat, beat, tap :: !LosesTap(taps, cursor, beat, tap)
  {
    hide DistinctTaps, Harmless, LosesTap;
    if ScanSafe(taps) {
      forall cursor: nat, beat, tap ensures !LosesTap(taps, cursor, beat, tap) {
        SafeScanLosesNothing(taps, cursor, beat, tap);
      }
    } else {
      var i, j :| 0 <= i < j < |taps| && !(Harmless(taps[i], taps[j], true) && Harmless(taps[j], taps[i], false));
      if !Harmless(taps[i], taps[j], true) { UnsafePairIsLost(taps, i, j); } else { UnsafePairIsLost(taps, j, i); }
    }
  }

  /** Two taps pushed out of beat order: the later event, due first, moves the cursor past the earlier one,
      which is still in the future, and no scan from there on emits it. */
  lemma OutOfOrderTapIsLost(p: string)
    ensures var t, u := Tap(1, 20.0, 20.0, true, false), Tap(2, 10.0, 10.0, true, false);
            var s := Run(InitState(), [OpTap(p, t), OpTap(p, u)]);
            && p in s.taps && s.taps[p] == [t, u] && ScanTaps(s.taps[p], 0, 10.0) == (2, Some(u))
            && LosesTap(s.taps[p], 0, 10.0, t)
            && forall cursor: nat, beat :: 2 <= cursor ==> ScanTaps(s.taps[p], cursor, beat) == (cursor, None)
  {
    var t, u := Tap(1, 20.0, 20.0, true, false), Tap(2, 10.0, 10.0, true, false);
    var s1 := Step(InitState(), OpTap(p, t));
    assert s1.taps[p] == [t];
    var s := Step(s1, OpTap(p, u));
    assert s.taps[p] == [t, u];
    assert [OpTap(p, t), OpTap(p, u)][1..] == [OpTap(p, u)] && [OpTap(p, u)][1..] == [];
    assert Run(InitState(), [OpTap(p, t), OpTap(p, u)]) == Run(s1, [OpTap(p, u)]) == Run(s, []) == s;
    assert [t, u][1..] == [u] && [u][1..] == [];
    forall cursor: nat, beat | 2 <= cursor ensures ScanTaps([t, u], cursor, beat) == (cursor, None) {
      assert ScanTaps([t, u], cursor, beat) == ScanTaps([u], cursor, beat) == ScanTaps([], cursor, beat);
    }
  }
}
