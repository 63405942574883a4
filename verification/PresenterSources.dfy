/** A configured slot only ever shows its own participant; AUTOPLAY may change what it shows. */
module PresenterSources {
  import opened Wrappers
  import opened Presenter
  import opened PresenterInvariant
  import opened PresenterTheorems
  import opened PresenterCursors

  // ---- The invariant ----

  /** What a screen shows is its slot's participant or nothing, and a tap cursor belongs to something shown. */
  predicate Fits(sc: Screen, participant: Option<string>) {
    (sc.source.None? || sc.source == participant) && (sc.tapCursor.Some? ==> sc.source.Some?)
  }

  predicate SourcesFit(slots: seq<Slot>, screens: map<string, Screen>) {
    forall i :: 0 <= i < |slots| ==> slots[i].id in screens && Fits(screens[slots[i].id], slots[i].participant)
  }

  /** Slots that only change flags and pages that only change contents fit as before. */
  lemma SameSourcesFit(slots: seq<Slot>, screens: map<string, Screen>, slots': seq<Slot>, screens': map<string, Screen>)
    requires SourcesFit(slots, screens) && |slots'| == |slots|
    requires forall i :: 0 <= i < |slots| ==>
      slots'[i].id == slots[i].id && slots'[i].participant == slots[i].participant
    requires forall id :: id in screens && id != AUTOPLAY_SLOT ==>
      id in screens' && DropPages(screens'[id]) == DropPages(screens[id])
    requires forall i :: 0 <= i < |slots| ==> slots[i].id != AUTOPLAY_SLOT
    ensures SourcesFit(slots', screens')
  {
    forall i | 0 <= i < |slots'|
      ensures slots'[i].id in screens' && Fits(screens'[slots'[i].id], slots'[i].participant)
    {
      var id := slots[i].id;
      assert screens'[id].source == DropPages(screens'[id]).source;
      assert screens'[id].tapCursor == DropPages(screens'[id]).tapCursor;
    }
  }

  /** One slot and its screen replaced: the new pair has to fit. */
  lemma OneSlotFits(slots: seq<Slot>, screens: map<string, Screen>, i: nat, slot: Slot, sc: Screen)
    requires SourcesFit(slots, screens) && SlotsOk(slots, screens.Keys) && i < |slots| && slot.id == slots[i].id
    requires Fits(sc, slot.participant)
    ensures SourcesFit(slots[i := slot], screens[slot.id := sc])
  {
  }

  lemma UnfeatureFits(slots: seq<Slot>, screens: map<string, Screen>)
    requires SourcesFit(slots, screens) && SlotsOk(slots, screens.Keys)
    ensures SourcesFit(Unfeature(slots), screens) && SlotsOk(Unfeature(slots), screens.Keys)
  {
  }

  lemma ConfiguredFits(before: Slot, r: Request, sc: Screen, frameMissing: bool, io: Io)
    requires Fits(sc, before.participant)
    ensures var configured := Candidate(before, r); var changed := RenderChanged(before, configured);
            && Fits(ConfiguredScreen(sc, changed, frameMissing, io), configured.participant)
            && Fits(ConfiguredScreen(sc, changed, frameMissing, io), before.participant)
  {
    hide Clamp;
    ResetsKeepCursors();
  }

  lemma ConfigureFits(s: State, id: string, r: Request, frameMissing: bool, io: Io)
    requires Inv(s) && SourcesFit(s.slots, s.screens)
    ensures var t := Configure(s, id, r, frameMissing, io); SourcesFit(t.slots, t.screens)
  {
    hide Candidate, RenderChanged, ConfiguredScreen, IndexOf, ValidRequest, Fits, SamplesOk, TapsOk, ScoresOk, EpochOk;
    var index := IndexOf(s.slots, id);
    if index.Some? && ValidRequest(r) {
      var slot := s.slots[index.value];
      var configured := Candidate(slot, r);
      var sc := ConfiguredScreen(s.screens[id], RenderChanged(slot, configured), frameMissing, io);
      assert configured.id == id by { CandidateId(slot, r); }
      assert Fits(sc, slot.participant) && Fits(sc, configured.participant) by {
        ConfiguredFits(slot, r, s.screens[id], frameMissing, io);
      }
      OneSlotFits(s.slots, s.screens, index.value, slot, sc);
      OneSlotFits(s.slots, s.screens, index.value, configured, sc);
      UnfeatureFits(s.slots, s.screens);
      OneSlotFits(Unfeature(s.slots), s.screens, index.value, configured.(featured := true), sc);
      assert s.slots[index.value := slot] == s.slots;
    }
  }

  lemma CandidateId(slot: Slot, r: Request)
    ensures Candidate(slot, r).id == slot.id
  {
    hide Clamp;
  }

  lemma StopSlotFits(s: State, id: string)
    requires Inv(s) && SourcesFit(s.slots, s.screens)
    ensures SourcesFit(StopSlot(s, id).slots, StopSlot(s, id).screens)
  {
    hide IndexOf, SamplesOk, TapsOk, ScoresOk, EpochOk, SlotsOk, SourcesFit;
    var index := IndexOf(s.slots, id);
    if index.Some? && id in s.screens {
      OneSlotFits(s.slots, s.screens, index.value, s.slots[index.value].(participant := None, active := false),
          DropCursors(s.screens[id]));
    }
  }

  lemma {:induction false} StopSlotsFit(s: State, ids: seq<string>)
    requires Inv(s) && SourcesFit(s.slots, s.screens)
    ensures SourcesFit(StopSlots(s, ids).slots, StopSlots(s, ids).screens)
    decreases |ids|
  {
    hide Inv, SourcesFit, StopSlot;
    if ids != [] {
      StopSlotFits(s, ids[0]);
      StopSlotKeepsInv(s, ids[0]);
      StopSlotsFit(StopSlot(s, ids[0]), ids[1..]);
    }
  }

  /** A tick writes a configured slot's screen on behalf of that slot. */
  lemma EligibleIsOwnSlot(s: State, i: nat)
    requires Inv(s) && i < |s.slots|
    ensures var slot := FindSlot(Eligible(s), s.slots[i].id); slot.Some? ==> slot.value == s.slots[i]
  {
    hide SamplesOk, TapsOk, ScoresOk, EpochOk;
    var slot := FindSlot(Eligible(s), s.slots[i].id);
    if slot.Some? {
      assert slot.value in LiveSlots(s.slots, s.awaiting);
      var j :| 0 <= j < |s.slots| && s.slots[j] == slot.value;
    }
  }

  lemma PaintFits(s: State, sc: Screen, slot: Slot, targetUs: nat, elapsedUs: nat, first: bool)
    requires Fits(sc, slot.participant)
    ensures Fits(Warm(s, sc, slot, targetUs), slot.participant)
    ensures Fits(Present(s, sc, slot, elapsedUs, first), slot.participant)
  {
    hide DueTap, LastScore, LastReceived, Playhead, OffsetOf, IsNewSample, NextCommit, Truncate;
  }

  lemma TickFitsSlot(s: State, nowUs: nat, i: nat)
    requires Inv(s) && SourcesFit(s.slots, s.screens) && i < |s.slots| && Eligible(s) != []
    ensures s.slots[i].id in Tick(s, nowUs).screens
    ensures Fits(Tick(s, nowUs).screens[s.slots[i].id], s.slots[i].participant)
  {
    hide Inv, NextEpoch, CommonDelay, Cohort, ResolveAnchors, Eligible, FindSlot, Fits, Warm, Present;
    var t, id := Aligned(s, nowUs), s.slots[i].id;
    EligibleIsOwnSlot(s, i);
    if FindSlot(Eligible(s), id).Some? {
      if Releases(s, nowUs) {
        var e := t.epoch.value;
        PaintFits(t, s.screens[id], s.slots[i], 0, nowUs - e.releaseAtUs, !e.released);
      } else {
        var delay := CommonDelay(Eligible(s));
        PaintFits(t, s.screens[id], s.slots[i], if nowUs < delay then 0 else nowUs - delay, 0, false);
      }
    }
  }

  lemma TickFits(s: State, nowUs: nat)
    requires Inv(s) && SourcesFit(s.slots, s.screens)
    ensures SourcesFit(Tick(s, nowUs).slots, Tick(s, nowUs).screens)
  {
    hide Inv, Eligible, Aligned, Finish, Fits;
    TickKeepsSlots(s, nowUs);
    if Eligible(s) != [] {
      forall i | 0 <= i < |s.slots|
        ensures s.slots[i].id in Tick(s, nowUs).screens
        ensures Fits(Tick(s, nowUs).screens[s.slots[i].id], s.slots[i].participant)
      {
        TickFitsSlot(s, nowUs, i);
      }
    }
  }

  lemma TickKeepsSlots(s: State, nowUs: nat)
    ensures Tick(s, nowUs).slots == s.slots && Tick(s, nowUs).taps == s.taps
  {
    hide Eligible, Cohort, CommonDelay, NextEpoch, ResolveAnchors, Paint;
  }

  lemma StopAutoplayTouchesOne(s: State, id: string)
    requires id in s.screens && id != AUTOPLAY_SLOT
    ensures id in StopAutoplay(s).screens && StopAutoplay(s).screens[id] == s.screens[id]
  {
  }

  lemma LaunchesKeepSlots(s: State, op: Op)
    requires op.OpLaunch? || op.OpLaunchAutoplay? || op.OpStopAutoplay?
    ensures Step(s, op).slots == s.slots
  {
    hide IndexOf, FindFeatured, ActiveSlots, ResetInput, ResetPages;
  }

  /** Launching a slot or AUTOPLAY only touches pages; stopping AUTOPLAY only its own screen. */
  lemma LaunchesFit(s: State, op: Op)
    requires Inv(s) && SourcesFit(s.slots, s.screens)
    requires op.OpLaunch? || op.OpLaunchAutoplay? || op.OpStopAutoplay?
    ensures SourcesFit(Step(s, op).slots, Step(s, op).screens)
  {
    hide Launch, LaunchAutoplay, StopAutoplay, SamplesOk, TapsOk, ScoresOk, EpochOk, Fits, SourcesFit, DropPages;
    var t := Step(s, op);
    LaunchesKeepSlots(s, op);
    forall id | id in s.screens && id != AUTOPLAY_SLOT
      ensures id in t.screens && DropPages(t.screens[id]) == DropPages(s.screens[id])
    {
      match op
      case OpLaunch(key, io) => LaunchKeepsCursors(s, key, io, true, true, id);
      case OpLaunchAutoplay(a, b) => LaunchKeepsCursors(s, id, IoOk, a, b, id);
      case OpStopAutoplay => StopAutoplayTouchesOne(s, id);
    }
    SameSourcesFit(s.slots, s.screens, t.slots, t.screens);
  }

  lemma StepKeepsSources(s: State, op: Op)
    requires Inv(s) && SourcesFit(s.slots, s.screens)
    ensures SourcesFit(Step(s, op).slots, Step(s, op).screens)
  {
    hide Inv, Configure, Launch, LaunchAutoplay, StopAutoplay, StopSlot, StopSlots, Tick, Newest, HasTap, IndexOf;
    match op
    case OpConfigure(id, r, frameMissing, io) => ConfigureFits(s, id, r, frameMissing, io);
    case OpStopSlot(id) => StopSlotFits(s, id);
    case OpStopParticipant(p) => StopSlotsFit(s, IdsShowing(s.slots, p));
    case OpTick(nowUs) => TickFits(s, nowUs);
    case OpLaunch(_, _) => LaunchesFit(s, op);
    case OpLaunchAutoplay(_, _) => LaunchesFit(s, op);
    case OpStopAutoplay => LaunchesFit(s, op);
    case _ =>
  }

  /** In every run, each configured slot's screen shows that slot's participant or nothing. */
  lemma {:induction false} SlotsShowTheirOwn(ops: seq<Op>)
    ensures var s := Run(InitState(), ops); Inv(s) && SourcesFit(s.slots, s.screens)
    decreases |ops|
  {
    hide Inv, Step, InitState;
    if ops == [] {
      InitHasInv();
      assert SourcesFit(InitState().slots, InitState().screens) by { InitFits(); }
    } else {
      var n := |ops| - 1;
      SlotsShowTheirOwn(ops[..n]);
      var s := Run(InitState(), ops[..n]);
      StepKeepsInv(s, ops[n]);
      StepKeepsSources(s, ops[n]);
      RunLast(InitState(), ops);
    }
  }

  lemma InitFits()
    ensures SourcesFit(InitState().slots, InitState().screens)
  {
  }

  // ---- Slots keep their ids ----

  predicate SameIds(slots: seq<Slot>, slots': seq<Slot>) {
    |slots'| == |slots| && forall i :: 0 <= i < |slots| ==> slots'[i].id == slots[i].id
  }

  lemma {:induction false} StopSlotsKeepIds(s: State, ids: seq<string>)
    ensures SameIds(s.slots, StopSlots(s, ids).slots)
    decreases |ids|
  {
    hide IndexOf;
    if ids != [] { StopSlotsKeepIds(StopSlot(s, ids[0]), ids[1..]); }
  }

  lemma ConfigureKeepsIds(s: State, id: string, r: Request, frameMissing: bool, io: Io)
    ensures SameIds(s.slots, Configure(s, id, r, frameMissing, io).slots)
  {
    hide Candidate, RenderChanged, ConfiguredScreen, IndexOf, ValidRequest;
    if IndexOf(s.slots, id).Some? { CandidateId(s.slots[IndexOf(s.slots, id).value], r); }
  }

  lemma StepKeepsIds(s: State, op: Op)
    ensures SameIds(s.slots, Step(s, op).slots)
  {
    hide Configure, Launch, LaunchAutoplay, StopAutoplay, StopSlots, Tick, Newest, HasTap, IndexOf;
    match op
    case OpConfigure(id, r, frameMissing, io) => ConfigureKeepsIds(s, id, r, frameMissing, io);
    case OpStopParticipant(p) => StopSlotsKeepIds(s, IdsShowing(s.slots, p));
    case OpTick(nowUs) => TickKeepsSlots(s, nowUs);
    case OpLaunch(_, _) => LaunchesKeepSlots(s, op);
    case OpLaunchAutoplay(_, _) => LaunchesKeepSlots(s, op);
    case OpStopAutoplay => LaunchesKeepSlots(s, op);
    case _ =>
  }

  // ---- Raw edges of a configured slot ----

  /** Ticks come in the order of their clock. */
  predicate Forward(ops: seq<Op>, nowUs: nat)
    decreases |ops|
  {
    ops != [] ==> nowUs <= ClockAfter(ops[0], nowUs) && Forward(ops[1..], ClockAfter(ops[0], nowUs))
  }

  /** While the epoch stands, a slot that shows its participant goes on showing it. */
  lemma SlotStaysOnSource(s: State, op: Op, i: nat, p: string, cohort: set<string>, releaseAtUs: nat)
    requires Inv(s) && SourcesFit(s.slots, s.screens) && i < |s.slots| && s.screens[s.slots[i].id].source == Some(p)
    requires InEpoch(Step(s, op), cohort, releaseAtUs)
    ensures Steady(s, op, s.slots[i].id, p, cohort, releaseAtUs)
  {
    hide Inv, Step;
    var id := s.slots[i].id;
    StepKeepsSources(s, op);
    if op.OpTick? {
      EligibleIsOwnSlot(s, i);
      TickStaysOnSource(s, op.nowUs, id, p);
    } else {
      OthersKeepCursors(s, op, id);
      assert Step(s, op).screens[id].source == DropPages(Step(s, op).screens[id]).source;
    }
  }

  lemma TickStaysOnSource(s: State, nowUs: nat, id: string, p: string)
    requires id in s.screens && s.screens[id].source == Some(p)
    requires FindSlot(Eligible(s), id).Some? ==> FindSlot(Eligible(s), id).value.participant == Some(p)
    ensures id in Step(s, OpTick(nowUs)).screens && Step(s, OpTick(nowUs)).screens[id].source == Some(p)
  {
    hide Eligible, Aligned, NextEpoch, CommonDelay, Cohort, ResolveAnchors, FindSlot, Warm, Present;
    if Eligible(s) != [] { AlignedKeepsScreens(s, nowUs); }
    if Eligible(s) != [] && FindSlot(Eligible(s), id).Some? {
      var t, slot := Aligned(s, nowUs), FindSlot(Eligible(s), id).value;
      if Releases(s, nowUs) {
        var e := t.epoch.value;
        PaintKeepsSource(t, s.screens[id], slot, 0, nowUs - e.releaseAtUs, !e.released, p);
      } else {
        var delay := CommonDelay(Eligible(s));
        PaintKeepsSource(t, s.screens[id], slot, if nowUs < delay then 0 else nowUs - delay, 0, false, p);
      }
    }
  }

  lemma AlignedKeepsScreens(s: State, nowUs: nat)
    requires Eligible(s) != []
    ensures Aligned(s, nowUs).screens == s.screens && Aligned(s, nowUs).taps == s.taps
      && Aligned(s, nowUs).samples == s.samples
  {
    hide Eligible, NextEpoch, CommonDelay, Cohort, ResolveAnchors;
  }

  lemma PaintKeepsSource(s: State, sc: Screen, slot: Slot, targetUs: nat, elapsedUs: nat, first: bool, p: string)
    requires sc.source == Some(p) && slot.participant == Some(p)
    ensures Warm(s, sc, slot, targetUs).source == Some(p) && Present(s, sc, slot, elapsedUs, first).source == Some(p)
  {
    hide DueTap, LastScore, LastReceived, Playhead, OffsetOf, IsNewSample, NextCommit, Truncate;
  }

  lemma {:induction false} HeldIsStretch(s: State, ops: seq<Op>, i: nat, p: string, cohort: set<string>,
                                         releaseAtUs: nat, nowUs: nat)
    requires Inv(s) && SourcesFit(s.slots, s.screens) && i < |s.slots| && s.screens[s.slots[i].id].source == Some(p)
    requires Held(s, ops, cohort, releaseAtUs) && Forward(ops, nowUs)
    ensures Stretch(s, ops, s.slots[i].id, p, cohort, releaseAtUs, nowUs)
    decreases |ops|
  {
    hide Inv, Step, SourcesFit;
    assert s.slots[i].id in s.screens by { FitHasScreen(s, i); }
    if ops != [] {
      SlotStaysOnSource(s, ops[0], i, p, cohort, releaseAtUs);
      StepKeepsInv(s, ops[0]);
      StepKeepsSources(s, ops[0]);
      StepKeepsIds(s, ops[0]);
      HeldIsStretch(Step(s, ops[0]), ops[1..], i, p, cohort, releaseAtUs, ClockAfter(ops[0], nowUs));
    }
  }

  lemma FitHasScreen(s: State, i: nat)
    requires SourcesFit(s.slots, s.screens) && i < |s.slots|
    ensures s.slots[i].id in s.screens
  {
  }

  /** On a configured slot, in every run, as long as one epoch stands and the clock goes forward, what is shown
      never goes back and a sample that was shown is never new again: each raw edge is emitted at most once. */
  lemma SlotEmitsRawEdgesOnce(before: seq<Op>, now1: nat, ops: seq<Op>, now2: nat, i: nat, p: string, x: Sample,
                              y: Sample, cohort: set<string>, releaseAtUs: nat)
    requires var s := Run(InitState(), before);
             i < |s.slots| && p in cohort && Presents(s, now1, s.slots[i].id, p, x)
             && Held(Tick(s, now1), ops, cohort, releaseAtUs)
    requires var s := Run(InitState(), before); var t := Run(Tick(s, now1), ops);
             Presents(t, now2, s.slots[i].id, p, y) && InEpoch(Tick(t, now2), cohort, releaseAtUs)
    requires Forward(ops, now1) && LastClock(ops, now1) <= now2
    ensures x.sequence <= y.sequence
    ensures var s := Run(InitState(), before); var t := Run(Tick(s, now1), ops);
            x.sequence == y.sequence ==> !IsNewSample(t.screens[s.slots[i].id], p, y)
  {
    hide Inv, Presents, Tick, Run, Stretch, LastClock, SourcesFit, Forward;
    var s := Run(InitState(), before);
    SlotsShowTheirOwn(before);
    StepKeepsInv(s, OpTick(now1));
    StepKeepsSources(s, OpTick(now1));
    TickKeepsSlots(s, now1);
    PresentedScreen(s, now1, s.slots[i].id, p, x);
    HeldIsStretch(Tick(s, now1), ops, i, p, cohort, releaseAtUs, now1);
    RawEdgesEmittedOnce(s, now1, ops, now2, s.slots[i].id, p, x, y, cohort, releaseAtUs);
  }
}
