/** Reliable taps over a run: what the tap cursor of a screen has passed was emitted there or came too late. */
module PresenterPassing {
  import opened Wrappers
  import opened Presenter
  import opened PresenterInvariant
  import opened PresenterTheorems
  import opened PresenterCursors
  import opened PresenterSources
  import opened PresenterTaps

  function TapsOf(s: State, p: string): seq<Tap> { GetOr(s.taps, p, []) }

  /** A tap pushed for `p` is a duplicate, has no edge, or follows the newest one in sequence and beat. */
  predicate PushedInOrder(s: State, op: Op, p: string) {
    op.OpTap? && op.p == p && (op.tap.pressed || op.tap.released) && !HasTap(TapsOf(s, p), op.tap.sequence) ==>
      var buffer := TapsOf(s, p);
      buffer == [] || (buffer[|buffer| - 1].sequence < op.tap.sequence && buffer[|buffer| - 1].beat <= op.tap.beat)
  }

  /** The operation does not drop the taps of `p`. */
  predicate KeepsTapsOf(op: Op, p: string) {
    !op.OpBeginRun? && !op.OpStopAll? && op != OpStopParticipant(p)
  }

  /** The tap cursor of a screen is not dropped, and what is presented there belongs to `p`; from the
      second presentation on the screen still stands on `p`. */
  ghost predicate Follows(s: State, op: Op, id: string, p: string) {
    && id in s.screens && id in Step(s, op).screens
    && (if op.OpTick? then
          Presenting(s, op.nowUs, id) ==>
            Source(s, id) == Some(p) && (s.screens[id].tapCursor.None? || s.screens[id].source == Some(p))
        else Step(s, op).screens[id].tapCursor == s.screens[id].tapCursor)
  }

  /** No cursor reset, no dropped buffer, and taps pushed in order. */
  ghost predicate Undisturbed(s: State, ops: seq<Op>, id: string, p: string) {
    forall i :: 0 <= i < |ops| ==>
      var u := Run(s, ops[..i]);
      Follows(u, ops[i], id, p) && KeepsTapsOf(ops[i], p) && PushedInOrder(u, ops[i], p)
  }

  /** A tick that presented `p` on the screen emitted the tap, or showed a sample more than 0.05 beat past it. */
  ghost predicate Handles(s: State, op: Op, id: string, p: string, tap: Tap) {
    && op.OpTick?
    && exists x :: Presents(s, op.nowUs, id, p, x)
                   && (EmitsTap(s, op.nowUs, id, p, x, tap) || tap.beat < x.beat - 0.05)
  }

  ghost predicate Handled(s: State, ops: seq<Op>, id: string, p: string, tap: Tap) {
    exists i :: 0 <= i < |ops| && Handles(Run(s, ops[..i]), ops[i], id, p, tap)
  }

  /** The cursor of a screen is within the taps that arrived. */
  predicate Within(cursor: Option<nat>, taps: seq<Tap>) {
    cursor.Some? && 0 < cursor.value ==> taps != [] && cursor.value <= taps[|taps| - 1].sequence
  }

  predicate Passed(cursor: Option<nat>, tap: Tap) {
    cursor.Some? && 1 <= tap.sequence <= cursor.value
  }

  // ---- One operation ----

  lemma PushKeepsOrder(taps: seq<Tap>, tap: Tap, cursor: Option<nat>)
    requires InOrder(taps) && Within(cursor, taps)
    requires taps == [] || (taps[|taps| - 1].sequence < tap.sequence && taps[|taps| - 1].beat <= tap.beat)
    ensures var taps' := Newest(taps + [tap], MAX_RENDER_TAPS);
            && InOrder(taps') && Within(cursor, taps')
            && forall t :: t in taps' && Passed(cursor, t) ==> t in taps
  {
    var all := taps + [tap];
    assert forall i, j :: 0 <= i < j < |all| ==> all[i].sequence < all[j].sequence && all[i].beat <= all[j].beat;
    NewestMembers(taps, tap, MAX_RENDER_TAPS);
  }

  /** Operations on other participants, and everything but a tap, leave the taps of `p` alone. */
  lemma TapsKept(s: State, op: Op, p: string)
    requires KeepsTapsOf(op, p) && !(op.OpTap? && op.p == p)
    ensures TapsOf(Step(s, op), p) == TapsOf(s, p)
  {
    hide Configure, Launch, LaunchAutoplay, StopAutoplay, StopSlots, Tick, Newest, HasTap, IndexOf;
    match op
    case OpConfigure(id, r, frameMissing, io) => ConfigureKeepsTaps(s, id, r, frameMissing, io);
    case OpStopParticipant(r) => StopSlotsKeepTaps(s, IdsShowing(s.slots, r));
    case OpTick(nowUs) => TickKeepsSlots(s, nowUs);
    case OpLaunch(_, _) => LaunchesKeepTaps(s, op);
    case OpLaunchAutoplay(_, _) => LaunchesKeepTaps(s, op);
    case OpStopAutoplay => LaunchesKeepTaps(s, op);
    case _ =>
  }

  lemma ConfigureKeepsTaps(s: State, id: string, r: Request, frameMissing: bool, io: Io)
    ensures Configure(s, id, r, frameMissing, io).taps == s.taps
  {
    hide IndexOf, Candidate, RenderChanged, ValidRequest, ConfiguredSlots, ConfiguredScreen;
  }

  lemma {:induction false} StopSlotsKeepTaps(s: State, ids: seq<string>)
    ensures StopSlots(s, ids).taps == s.taps
    decreases |ids|
  {
    if ids != [] { StopSlotsKeepTaps(StopSlot(s, ids[0]), ids[1..]); }
  }

  lemma LaunchesKeepTaps(s: State, op: Op)
    requires op.OpLaunch? || op.OpLaunchAutoplay? || op.OpStopAutoplay?
    ensures Step(s, op).taps == s.taps
  {
    hide IndexOf, FindFeatured, ActiveSlots, ResetInput, ResetPages;
  }

  lemma {:induction false} ScanStaysWithin(taps: seq<Tap>, cursor: nat, beat: real)
    ensures var c := ScanTaps(taps, cursor, beat).0; c == cursor || exists u :: u in taps && u.sequence == c
  {
    CursorWasReached(taps, cursor, beat);
  }

  lemma MembersAreWithin(taps: seq<Tap>, u: Tap)
    requires InOrder(taps) && u in taps
    ensures Within(Some(u.sequence), taps)
  {
    var k :| 0 <= k < |taps| && taps[k] == u;
  }

  /** What a presenting tick passes, it emits or is more than 0.05 beat behind the sample shown. */
  lemma PresentingPasses(s: State, nowUs: nat, id: string, p: string, x: Sample, tap: Tap)
    requires Presents(s, nowUs, id, p, x) && InOrder(TapsOf(s, p)) && tap in TapsOf(s, p)
    requires s.screens[id].tapCursor.None? || s.screens[id].source == Some(p)
    requires id in Tick(s, nowUs).screens
    requires Passed(Tick(s, nowUs).screens[id].tapCursor, tap) && !Passed(s.screens[id].tapCursor, tap)
    ensures Handles(s, OpTick(nowUs), id, p, tap)
  {
    hide Tick, Eligible, Shown, Source, ScanTaps, Baseline, Aligned, InOrder;
    PresentedScreen(s, nowUs, id, p, x);
    AlignedTaps(s, nowUs);
    var start := StartCursor(Aligned(s, nowUs), s.screens[id], p, x.beat);
    ScanPassesEmittedOrLate(TapsOf(s, p), start, x.beat);
    BaselineSkipsOnlyLateTaps(TapsOf(s, p), x.beat);
  }

  lemma AlignedTaps(s: State, nowUs: nat)
    requires Releases(s, nowUs)
    ensures Aligned(s, nowUs).taps == s.taps
  {
    AlignedKeepsScreens(s, nowUs);
  }

  lemma PresentingStaysWithin(s: State, nowUs: nat, id: string, p: string, x: Sample)
    requires Presents(s, nowUs, id, p, x) && InOrder(TapsOf(s, p)) && Within(s.screens[id].tapCursor, TapsOf(s, p))
    requires s.screens[id].tapCursor.None? || s.screens[id].source == Some(p)
    ensures id in Tick(s, nowUs).screens && Within(Tick(s, nowUs).screens[id].tapCursor, TapsOf(s, p))
  {
    hide Tick, Eligible, Shown, Source, ScanTaps, Baseline, Aligned, InOrder;
    PresentedScreen(s, nowUs, id, p, x);
    AlignedTaps(s, nowUs);
    var start := StartCursor(Aligned(s, nowUs), s.screens[id], p, x.beat);
    ScanStaysWithin(TapsOf(s, p), start, x.beat);
    BaselineIsInside(TapsOf(s, p), x.beat);
    var c := ScanTaps(TapsOf(s, p), start, x.beat).0;
    if u :| u in TapsOf(s, p) && u.sequence == c { MembersAreWithin(TapsOf(s, p), u); }
    if u :| u in TapsOf(s, p) && u.sequence == start { MembersAreWithin(TapsOf(s, p), u); }
  }

  /** After any operation, each buffered tap that the cursor has passed had been passed already, or the
      operation emitted it or showed something well past it. */
  lemma StepPasses(s: State, op: Op, id: string, p: string)
    requires id in s.screens && InOrder(TapsOf(s, p)) && Within(s.screens[id].tapCursor, TapsOf(s, p))
    requires Follows(s, op, id, p) && KeepsTapsOf(op, p) && PushedInOrder(s, op, p)
    ensures var t := Step(s, op);
            && InOrder(TapsOf(t, p)) && Within(t.screens[id].tapCursor, TapsOf(t, p))
            && forall tap :: tap in TapsOf(t, p) && Passed(t.screens[id].tapCursor, tap) ==>
                 (tap in TapsOf(s, p) && Passed(s.screens[id].tapCursor, tap)) || Handles(s, op, id, p, tap)
  {
    hide InOrder, Within, Passed, Handles, Tick, Presenting, PushTap, Newest, HasTap;
    if op.OpTick? {
      TickKeepsSlots(s, op.nowUs);
      TickPasses(s, op.nowUs, id, p);
    } else if op.OpTap? && op.p == p {
      PushPasses(s, op, id, p);
    } else {
      hide Step;
      TapsKept(s, op, p);
    }
  }

  lemma PushedTaps(s: State, p: string, tap: Tap)
    ensures var buffer := TapsOf(s, p);
            TapsOf(PushTap(s, p, tap), p)
              == if (tap.pressed || tap.released) && !HasTap(buffer, tap.sequence)
                 then Newest(buffer + [tap], MAX_RENDER_TAPS) else buffer
    ensures PushTap(s, p, tap).screens == s.screens
  {
    hide Newest, HasTap;
    var buffer := TapsOf(s, p);
    if (tap.pressed || tap.released) && !HasTap(buffer, tap.sequence) {
      var pushed := Newest(buffer + [tap], MAX_RENDER_TAPS);
      assert PushTap(s, p, tap) == s.(taps := s.taps[p := pushed]);
      assert s.taps[p := pushed][p] == pushed;
    }
  }

  lemma PushPasses(s: State, op: Op, id: string, p: string)
    requires op.OpTap? && op.p == p && id in s.screens && InOrder(TapsOf(s, p))
    requires Within(s.screens[id].tapCursor, TapsOf(s, p)) && PushedInOrder(s, op, p)
    ensures var t := PushTap(s, p, op.tap);
            && t.screens == s.screens && InOrder(TapsOf(t, p)) && Within(s.screens[id].tapCursor, TapsOf(t, p))
            && forall tap :: tap in TapsOf(t, p) && Passed(s.screens[id].tapCursor, tap) ==> tap in TapsOf(s, p)
  {
    hide InOrder, Within, Passed, Newest, HasTap, TapsOf, PushTap;
    var buffer := TapsOf(s, p);
    PushedTaps(s, p, op.tap);
    if (op.tap.pressed || op.tap.released) && !HasTap(buffer, op.tap.sequence) {
      PushKeepsOrder(buffer, op.tap, s.screens[id].tapCursor);
    }
  }

  lemma TickPasses(s: State, nowUs: nat, id: string, p: string)
    requires id in s.screens && InOrder(TapsOf(s, p)) && Within(s.screens[id].tapCursor, TapsOf(s, p))
    requires Follows(s, OpTick(nowUs), id, p)
    ensures id in Tick(s, nowUs).screens && Within(Tick(s, nowUs).screens[id].tapCursor, TapsOf(s, p))
    ensures forall tap :: tap in TapsOf(s, p) && Passed(Tick(s, nowUs).screens[id].tapCursor, tap) ==>
              Passed(s.screens[id].tapCursor, tap) || Handles(s, OpTick(nowUs), id, p, tap)
  {
    hide InOrder, Within, Passed, Handles, Tick, Shown, Source, Releases;
    if Presenting(s, nowUs, id) {
      var x := Shown(s, nowUs, p).value;
      PresentingStaysWithin(s, nowUs, id, p, x);
      forall tap | tap in TapsOf(s, p) && Passed(Tick(s, nowUs).screens[id].tapCursor, tap)
        ensures Passed(s.screens[id].tapCursor, tap) || Handles(s, OpTick(nowUs), id, p, tap)
      {
        if !Passed(s.screens[id].tapCursor, tap) { PresentingPasses(s, nowUs, id, p, x, tap); }
      }
    } else {
      IdleScreen(s, nowUs, id);
    }
  }

  // ---- Runs ----

  lemma UndisturbedPrefix(s: State, ops: seq<Op>, id: string, p: string)
    requires ops != [] && Undisturbed(s, ops, id, p)
    ensures var n := |ops| - 1;
            && Undisturbed(s, ops[..n], id, p) && Follows(Run(s, ops[..n]), ops[n], id, p)
            && KeepsTapsOf(ops[n], p) && PushedInOrder(Run(s, ops[..n]), ops[n], p)
  {
    hide Run, Follows, KeepsTapsOf, PushedInOrder;
    var n := |ops| - 1;
    forall i | 0 <= i < n
      ensures var u := Run(s, ops[..n][..i]);
              Follows(u, ops[..n][i], id, p) && KeepsTapsOf(ops[..n][i], p) && PushedInOrder(u, ops[..n][i], p)
    {
      assert ops[..n][..i] == ops[..i];
    }
  }

  lemma HandledGrows(s: State, ops: seq<Op>, n: nat, id: string, p: string, tap: Tap)
    requires n <= |ops| && Handled(s, ops[..n], id, p, tap)
    ensures Handled(s, ops, id, p, tap)
  {
    hide Run, Handles;
    var i :| 0 <= i < n && Handles(Run(s, ops[..n][..i]), ops[..n][i], id, p, tap);
    assert ops[..n][..i] == ops[..i];
  }

  /** From a dropped cursor on, while the taps of `p` arrive in order and neither they nor the cursor are
      dropped: each buffered tap at or below the screen's cursor was emitted on that screen, or a tick
      showed a sample there that was more than 0.05 beat past it. */
  lemma {:induction false} PassedTapsWereEmittedOrLate(s: State, ops: seq<Op>, id: string, p: string)
    requires id in s.screens && s.screens[id].tapCursor.None? && InOrder(TapsOf(s, p))
    requires Undisturbed(s, ops, id, p)
    ensures var t := Run(s, ops);
            && id in t.screens && InOrder(TapsOf(t, p)) && Within(t.screens[id].tapCursor, TapsOf(t, p))
            && forall tap :: tap in TapsOf(t, p) && Passed(t.screens[id].tapCursor, tap) ==> Handled(s, ops, id, p, tap)
    decreases |ops|
  {
    hide Step, InOrder, Undisturbed, Handled, KeepsTapsOf, PushedInOrder;
    if ops != [] {
      var n := |ops| - 1;
      UndisturbedPrefix(s, ops, id, p);
      PassedTapsWereEmittedOrLate(s, ops[..n], id, p);
      LastStepPasses(s, ops, id, p);
    }
  }

  lemma LastStepPasses(s: State, ops: seq<Op>, id: string, p: string)
    requires ops != []
    requires var n := |ops| - 1; var u := Run(s, ops[..n]);
             && id in u.screens && InOrder(TapsOf(u, p)) && Within(u.screens[id].tapCursor, TapsOf(u, p))
             && Follows(u, ops[n], id, p) && KeepsTapsOf(ops[n], p) && PushedInOrder(u, ops[n], p)
             && forall tap :: tap in TapsOf(u, p) && Passed(u.screens[id].tapCursor, tap)
                  ==> Handled(s, ops[..n], id, p, tap)
    ensures var t := Run(s, ops);
            && id in t.screens && InOrder(TapsOf(t, p)) && Within(t.screens[id].tapCursor, TapsOf(t, p))
            && forall tap :: tap in TapsOf(t, p) && Passed(t.screens[id].tapCursor, tap) ==> Handled(s, ops, id, p, tap)
  {
    hide Run, Step, InOrder, Within, Passed, Handles, Handled, KeepsTapsOf, PushedInOrder, TapsOf;
    var n := |ops| - 1;
    var u, t := Run(s, ops[..n]), Run(s, ops);
    RunLast(s, ops);
    StepPasses(u, ops[n], id, p);
    forall tap | tap in TapsOf(t, p) && Passed(t.screens[id].tapCursor, tap) ensures Handled(s, ops, id, p, tap) {
      HandledLast(s, ops, id, p, tap);
    }
  }

  lemma HandledLast(s: State, ops: seq<Op>, id: string, p: string, tap: Tap)
    requires ops != []
    requires var n := |ops| - 1; Handled(s, ops[..n], id, p, tap) || Handles(Run(s, ops[..n]), ops[n], id, p, tap)
    ensures Handled(s, ops, id, p, tap)
  {
    hide Handles, Run;
    if Handled(s, ops[..|ops| - 1], id, p, tap) { HandledGrows(s, ops, |ops| - 1, id, p, tap); }
  }

  /** On a configured slot of `p`, ticks follow `p` by themselves: only dropping the cursor ends the stretch. */
  lemma SlotFollows(s: State, nowUs: nat, i: nat, p: string)
    requires Inv(s) && SourcesFit(s.slots, s.screens) && i < |s.slots| && s.slots[i].participant == Some(p)
    ensures Follows(s, OpTick(nowUs), s.slots[i].id, p)
  {
    hide Inv, Eligible, Tick, FindSlot;
    FitHasScreen(s, i);
    EligibleIsOwnSlot(s, i);
    TickHasScreen(s, nowUs, s.slots[i].id);
  }

  lemma TickHasScreen(s: State, nowUs: nat, id: string)
    requires id in s.screens
    ensures id in Tick(s, nowUs).screens
  {
    hide Eligible, Cohort, CommonDelay, NextEpoch, ResolveAnchors;
  }
}
