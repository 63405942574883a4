/** What the per-slot cursors and the launch barrier promise: edges and taps are emitted
    once, sources share one clock, and a parked slot's pages stay zero. */
module PresenterCursors {
  import opened Wrappers
  import opened Presenter
  import opened PresenterInvariant
  import opened PresenterTheorems

  /** The participant a tick would show on screen `id`, if the tick writes that screen at all. */
  ghost function Source(s: State, id: string): Option<string> {
    var slot := FindSlot(Eligible(s), id);
    if slot.None? then None else slot.value.participant
  }

  /** A releasing tick presents something on screen `id`. */
  ghost predicate Presenting(s: State, nowUs: nat, id: string) {
    && Releases(s, nowUs) && id in s.screens && s.screens[id].page.Some?
    && Source(s, id).Some? && Shown(s, nowUs, Source(s, id).value).Some?
  }

  /** A releasing tick shows sample `x` of participant `p` on screen `id`. */
  ghost predicate Presents(s: State, nowUs: nat, id: string, p: string, x: Sample) {
    Presenting(s, nowUs, id) && Source(s, id) == Some(p) && Shown(s, nowUs, p) == Some(x)
  }

  /** Presenting moves the cursors to what is shown and publishes a capture record. */
  lemma PresentOutcome(s: State, sc: Screen, slot: Slot, elapsedUs: nat, firstRelease: bool, p: string, x: Sample)
    requires slot.participant == Some(p) && sc.page.Some? && Playhead(s, p, elapsedUs) == Some(x)
    ensures var sc' := Present(s, sc, slot, elapsedUs, firstRelease);
            && sc'.source == Some(p) && sc'.sampleCursor == Some(x.sequence)
              && sc'.tapCursor == Some(DueTap(s, sc, p, x.beat).0)
            && sc'.page.Some? && sc'.page.value.Input?
            && sc'.page.value.beat == (if firstRelease then s.anchors[p].firstNoteBeat else x.beat)
  {
    assert p in s.anchors;
    hide DueTap, LastScore, Truncate, Playhead, NextCommit;
  }

  lemma PresentIdle(s: State, sc: Screen, slot: Slot, elapsedUs: nat, firstRelease: bool)
    requires slot.participant.None? || sc.page.None? || Playhead(s, slot.participant.value, elapsedUs).None?
    ensures Present(s, sc, slot, elapsedUs, firstRelease) == sc
  {
  }

  /** What the screen a tick presents on looks like afterwards. */
  lemma PresentedScreen(s: State, nowUs: nat, id: string, p: string, x: Sample)
    requires Presents(s, nowUs, id, p, x)
    ensures id in Tick(s, nowUs).screens
    ensures var sc' := Tick(s, nowUs).screens[id];
            && sc'.source == Some(p) && sc'.sampleCursor == Some(x.sequence)
            && sc'.tapCursor == Some(DueTap(Aligned(s, nowUs), s.screens[id], p, x.beat).0)
            && sc'.page.Some? && sc'.page.value.Input?
            && sc'.page.value.beat == (if Aligned(s, nowUs).epoch.value.released then x.beat
                else Aligned(s, nowUs).anchors[p].firstNoteBeat)
  {
    hide NextEpoch, CommonDelay, Cohort, ResolveAnchors, Eligible, FindSlot, DueTap, Present, Playhead;
    var t := Aligned(s, nowUs);
    var e := t.epoch.value;
    PresentOutcome(t, s.screens[id], FindSlot(Eligible(s), id).value, nowUs - e.releaseAtUs, !e.released, p, x);
  }

  /** A releasing tick that does not present on a screen leaves it as it is; a warm-up
      changes only its page, commit counter and source. */
  lemma IdleScreen(s: State, nowUs: nat, id: string)
    requires id in s.screens && !Presenting(s, nowUs, id)
    ensures id in Tick(s, nowUs).screens
    ensures var sc, sc' := s.screens[id], Tick(s, nowUs).screens[id];
            && sc'.tapCursor == sc.tapCursor && sc'.sampleCursor == sc.sampleCursor
            && (Releases(s, nowUs) ==> sc' == sc)
  {
    hide NextEpoch, CommonDelay, Cohort, ResolveAnchors, Eligible, FindSlot, DueTap, Present, Playhead, LastReceived;
    if Releases(s, nowUs) && FindSlot(Eligible(s), id).Some? {
      var e := Aligned(s, nowUs).epoch.value;
      PresentIdle(Aligned(s, nowUs), s.screens[id], FindSlot(Eligible(s), id).value, nowUs - e.releaseAtUs,
          !e.released);
    }
  }

  // ---- Raw edges ----

  /** The screen shows `p`, its sample cursor is at least `q`, and nothing below the cursor can be shown again. */
  ghost predicate CursorFloor(s: State, id: string, p: string, q: nat, cohort: set<string>, releaseAtUs: nat,
                              nowUs: nat) {
    && InEpoch(s, cohort, releaseAtUs) && releaseAtUs <= nowUs && p in cohort && p in s.samples
      && Resolved(s.anchors, p)
    && id in s.screens && s.screens[id].source == Some(p) && s.screens[id].sampleCursor.Some?
    && q <= s.screens[id].sampleCursor.value
    && Floor(s.samples[p], s.screens[id].sampleCursor.value, s.anchors[p].origin.value.sourceUs + (nowUs - releaseAtUs))
  }

  lemma NoIdsNoStop(s: State, p: string)
    requires Inv(s) && StopParticipant(s, p).epoch.Some?
    ensures StopParticipant(s, p).screens == s.screens
  {
    StopParticipantKeepsInv(s, p);
    assert IdsShowing(s.slots, p) != [] ==> Shows(s.slots, p);
  }

  lemma ConfigureKeepsCursors(s: State, id: string, r: Request, frameMissing: bool, io: Io, key: string)
    requires key in s.screens && Configure(s, id, r, frameMissing, io).epoch.Some?
    ensures var t := Configure(s, id, r, frameMissing, io);
            key in t.screens && DropPages(t.screens[key]) == DropPages(s.screens[key])
  {
    hide Candidate, RenderChanged, ValidRequest, IndexOf, ResetPages, Unfeature;
    ResetsKeepCursors();
  }

  lemma LaunchKeepsCursors(s: State, id: string, io: Io, a: bool, b: bool, key: string)
    requires key in s.screens
    ensures var t := Launch(s, id, io); key in t.screens && DropPages(t.screens[key]) == DropPages(s.screens[key])
    ensures var t := LaunchAutoplay(s, a, b); key in t.screens && DropPages(t.screens[key]) == DropPages(s.screens[key])
  {
    hide IndexOf, FindFeatured, ActiveSlots, ResetPages, ResetInput, DropPages;
    ResetsKeepCursors();
  }

  lemma ResetsKeepCursors()
    ensures forall sc, io :: DropPages(ResetPages(sc, io)) == DropPages(sc)
    ensures forall sc, ok :: DropPages(ResetInput(sc, ok)) == DropPages(sc)
  {
  }

  /** Outside a tick, an operation that leaves the epoch standing leaves sources and cursors alone. */
  lemma OthersKeepCursors(s: State, op: Op, id: string)
    requires Inv(s) && !op.OpTick? && Step(s, op).epoch.Some? && id in s.screens
    ensures id in Step(s, op).screens && DropPages(Step(s, op).screens[id]) == DropPages(s.screens[id])
  {
    hide IndexOf, HasTap, Newest, Configure, Launch, LaunchAutoplay, StopParticipant, StopSlots, DropPages,
        FreshScreen, Tick, SamplesOk, TapsOk, ScoresOk, EpochOk;
    match op
    case OpStopParticipant(p) => NoIdsNoStop(s, p);
    case OpConfigure(i, r, f, io) => ConfigureKeepsCursors(s, i, r, f, io, id);
    case OpLaunch(i, io) => LaunchKeepsCursors(s, i, io, true, true, id);
    case OpLaunchAutoplay(a, b) => LaunchKeepsCursors(s, id, IoOk, a, b, id);
    case OpSample(p, b) => assert PushSample(s, p, b).screens == s.screens;
    case OpTap(p, tap) => assert PushTap(s, p, tap).screens == s.screens;
    case OpScore(p, score) => assert PushScore(s, p, score).screens == s.screens;
    case OpStopSlot(i) => assert StopSlot(s, i).epoch.Some? ==> StopSlot(s, i) == s;
    case _ =>
  }

  function DropPages(sc: Screen): Screen { sc.(page := None, scorePage := None) }

  lemma FloorRises(buffer: seq<Buffered>, q: nat, target: nat, later: nat)
    requires Floor(buffer, q, target) && target <= later
    ensures Floor(buffer, q, later)
  {
  }

  /** The clock after an operation: ticks set it, nothing else moves it. */
  function ClockAfter(op: Op, nowUs: nat): nat { if op.OpTick? then op.nowUs else nowUs }

  /** The same epoch and the same source on screen `id` before and after an operation. */
  ghost predicate Steady(s: State, op: Op, id: string, p: string, cohort: set<string>, releaseAtUs: nat) {
    && InEpoch(Step(s, op), cohort, releaseAtUs)
    && id in Step(s, op).screens && Step(s, op).screens[id].source == Some(p)
  }

  /** What a releasing tick shows for a participant is at or above any earlier floor, and becomes the new floor. */
  lemma ShownRaisesFloor(s: State, nowUs: nat, p: string, c: nat, target: nat, releaseAtUs: nat)
    requires Inv(s) && Releases(s, nowUs) && Shown(s, nowUs, p).Some? && Tick(s, nowUs).epoch.Some?
      && Tick(s, nowUs).epoch.value.releaseAtUs == releaseAtUs <= nowUs
    requires Resolved(s.anchors, p) && p in s.samples && Floor(s.samples[p], c, target)
    requires target <= s.anchors[p].origin.value.sourceUs + (nowUs - releaseAtUs)
    ensures c <= Shown(s, nowUs, p).value.sequence
    ensures Floor(s.samples[p], Shown(s, nowUs, p).value.sequence,
        s.anchors[p].origin.value.sourceUs + (nowUs - releaseAtUs))
  {
    InvSorted(s, p);
    ShownIsFloor(s, nowUs, p);
    TickKeepsOrigin(s, nowUs, p);
    hide Inv, SortedSamples, Floor, Shown, Paint, Cohort, Eligible, CommonDelay, NextEpoch, ResolveAnchors;
    ShownAboveFloor(s, nowUs, p, c, target);
  }

  lemma TickKeepsCursorFloor(s: State, now2: nat, id: string, p: string, q: nat, cohort: set<string>, releaseAtUs: nat,
                             nowUs: nat)
    requires Inv(s) && CursorFloor(s, id, p, q, cohort, releaseAtUs, nowUs) && nowUs <= now2
    requires Steady(s, OpTick(now2), id, p, cohort, releaseAtUs)
    ensures CursorFloor(Tick(s, now2), id, p, q, cohort, releaseAtUs, now2)
  {
    hide Inv, Eligible, Tick, Floor, Source, Shown, Releases;
    var c := s.screens[id].sampleCursor.value;
    var before, after := s.anchors[p].origin.value.sourceUs + (nowUs - releaseAtUs),
        s.anchors[p].origin.value.sourceUs + (now2 - releaseAtUs);
    TickKeepsOrigin(s, now2, p);
    if Presenting(s, now2, id) {
      var r := Source(s, id).value;
      PresentedScreen(s, now2, id, r, Shown(s, now2, r).value);
      ShownRaisesFloor(s, now2, p, c, before, releaseAtUs);
    } else {
      FloorRises(s.samples[p], c, before, after);
      IdleScreen(s, now2, id);
    }
  }

  lemma StepKeepsCursorFloor(s: State, op: Op, id: string, p: string, q: nat, cohort: set<string>, releaseAtUs: nat,
                             nowUs: nat)
    requires Inv(s) && CursorFloor(s, id, p, q, cohort, releaseAtUs, nowUs) && nowUs <= ClockAfter(op, nowUs)
    requires Steady(s, op, id, p, cohort, releaseAtUs)
    ensures CursorFloor(Step(s, op), id, p, q, cohort, releaseAtUs, ClockAfter(op, nowUs))
  {
    hide Inv, Floor, Tick;
    if op.OpTick? {
      hide Steady, CursorFloor;
      TickKeepsCursorFloor(s, op.nowUs, id, p, q, cohort, releaseAtUs, nowUs);
    } else {
      hide Step;
      OthersKeepCursors(s, op, id);
      EpochKeepsFloor(s, op, cohort, releaseAtUs, p, s.screens[id].sampleCursor.value,
          s.anchors[p].origin.value.sourceUs + (nowUs - releaseAtUs));
    }
  }

  /** A stretch of the run in one epoch, with screen `id` on one source and time moving forward. */
  ghost predicate Stretch(s: State, ops: seq<Op>, id: string, p: string, cohort: set<string>, releaseAtUs: nat,
                          nowUs: nat)
    decreases |ops|
  {
    ops != [] ==>
      && Steady(s, ops[0], id, p, cohort, releaseAtUs) && nowUs <= ClockAfter(ops[0], nowUs)
      && Stretch(Step(s, ops[0]), ops[1..], id, p, cohort, releaseAtUs, ClockAfter(ops[0], nowUs))
  }

  function LastClock(ops: seq<Op>, nowUs: nat): nat
    decreases |ops|
  {
    if ops == [] then nowUs else LastClock(ops[1..], ClockAfter(ops[0], nowUs))
  }

  lemma {:induction false} StretchKeepsCursorFloor(s: State, ops: seq<Op>, id: string, p: string, q: nat,
                                                   cohort: set<string>, releaseAtUs: nat, nowUs: nat)
    requires Inv(s) && CursorFloor(s, id, p, q, cohort, releaseAtUs, nowUs)
    requires Stretch(s, ops, id, p, cohort, releaseAtUs, nowUs)
    ensures Inv(Run(s, ops)) && CursorFloor(Run(s, ops), id, p, q, cohort, releaseAtUs, LastClock(ops, nowUs))
    decreases |ops|
  {
    hide Inv, Steady, CursorFloor, Step;
    if ops != [] {
      StepKeepsCursorFloor(s, ops[0], id, p, q, cohort, releaseAtUs, nowUs);
      StepKeepsInv(s, ops[0]);
      StretchKeepsCursorFloor(Step(s, ops[0]), ops[1..], id, p, q, cohort, releaseAtUs, ClockAfter(ops[0], nowUs));
    }
  }

  lemma PresentSetsCursorFloor(s: State, nowUs: nat, id: string, p: string, x: Sample, cohort: set<string>,
                               releaseAtUs: nat)
    requires Inv(s) && p in cohort && Presents(s, nowUs, id, p, x) && InEpoch(Tick(s, nowUs), cohort, releaseAtUs)
    ensures Inv(Tick(s, nowUs)) && CursorFloor(Tick(s, nowUs), id, p, x.sequence, cohort, releaseAtUs, nowUs)
  {
    hide Inv, Eligible, Tick, Floor, Source, Shown, Releases;
    PresentedScreen(s, nowUs, id, p, x);
    ShownIsFloor(s, nowUs, p);
  }

  lemma CursorFloorBounds(s: State, nowUs: nat, id: string, p: string, q: nat, y: Sample, cohort: set<string>,
                          releaseAtUs: nat, lastUs: nat)
    requires Inv(s) && CursorFloor(s, id, p, q, cohort, releaseAtUs, lastUs) && lastUs <= nowUs
    requires Presents(s, nowUs, id, p, y) && InEpoch(Tick(s, nowUs), cohort, releaseAtUs)
    ensures q <= y.sequence
    ensures y.sequence == q ==> !IsNewSample(s.screens[id], p, y)
  {
    hide Inv, Eligible, Tick, Floor, Source, Shown, Releases;
    ShownRaisesFloor(s, nowUs, p, s.screens[id].sampleCursor.value,
        s.anchors[p].origin.value.sourceUs + (lastUs - releaseAtUs), releaseAtUs);
  }

  /** Within one epoch, while a screen keeps its source, what it shows never goes back, and
      a sample that was shown is never new again: each raw edge is emitted at most once. */
  lemma RawEdgesEmittedOnce(s: State, now1: nat, ops: seq<Op>, now2: nat, id: string, p: string, x: Sample, y: Sample,
                            cohort: set<string>, releaseAtUs: nat)
    requires Inv(s) && p in cohort && Presents(s, now1, id, p, x) && InEpoch(Tick(s, now1), cohort, releaseAtUs)
    requires Stretch(Tick(s, now1), ops, id, p, cohort, releaseAtUs, now1)
    requires LastClock(ops, now1) <= now2 && Presents(Run(Tick(s, now1), ops), now2, id, p, y)
    requires InEpoch(Tick(Run(Tick(s, now1), ops), now2), cohort, releaseAtUs)
    ensures x.sequence <= y.sequence
    ensures x.sequence == y.sequence ==> !IsNewSample(Run(Tick(s, now1), ops).screens[id], p, y)
  {
    hide Inv, Presents, Tick, Run, Stretch, CursorFloor, LastClock;
    PresentSetsCursorFloor(s, now1, id, p, x, cohort, releaseAtUs);
    StretchKeepsCursorFloor(Tick(s, now1), ops, id, p, x.sequence, cohort, releaseAtUs, now1);
    CursorFloorBounds(Run(Tick(s, now1), ops), now2, id, p, x.sequence, y, cohort, releaseAtUs, LastClock(ops, now1));
  }
}
