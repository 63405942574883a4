/** After release every source plays on one clock; behind the launch barrier nothing plays. */
module PresenterClock {
  import opened Wrappers
  import opened Presenter
  import opened PresenterInvariant
  import opened PresenterTheorems
  import opened PresenterCursors

  // ---- One clock ----

  /** `x` is the last sample of a buffer, in sequence order, whose source time has been reached. */
  predicate LastAt(buffer: seq<Buffered>, x: Sample, targetUs: nat) {
    exists k :: 0 <= k < |buffer| && buffer[k].sample == x && x.runTimeUs <= targetUs
      && forall j :: k < j < |buffer| ==> buffer[j].sample.runTimeUs > targetUs
  }

  /** Each screen a releasing tick presents on shows the last sample its source has reached,
      measured from that source's own first note by the same elapsed time for all. */
  lemma OneClockForAll(s: State, nowUs: nat, id: string, p: string, x: Sample)
    requires Presents(s, nowUs, id, p, x)
    ensures var t := Tick(s, nowUs);
            && t.epoch.Some? && t.epoch.value.releaseAtUs <= nowUs && p in s.samples && Resolved(t.anchors, p)
            && LastAt(s.samples[p], x, t.anchors[p].origin.value.sourceUs + (nowUs - t.epoch.value.releaseAtUs))
  {
    hide Eligible, Paint, NextEpoch, CommonDelay, Cohort, ResolveAnchors;
  }

  /** Two screens following one participant, AUTOPLAY included, publish the same sample and beat. */
  lemma OneParticipantOneBeat(s: State, nowUs: nat, id1: string, id2: string, p: string, x: Sample, y: Sample)
    requires Presents(s, nowUs, id1, p, x) && Presents(s, nowUs, id2, p, y)
    ensures var t := Tick(s, nowUs);
            && x == y && id1 in t.screens && id2 in t.screens
            && t.screens[id1].page.Some? && t.screens[id1].page.value.Input?
            && t.screens[id2].page.Some? && t.screens[id2].page.value.Input?
            && t.screens[id1].page.value.beat == t.screens[id2].page.value.beat
  {
    hide Tick, Aligned, Releases, Shown, Source;
    PresentedScreen(s, nowUs, id1, p, x);
    PresentedScreen(s, nowUs, id2, p, y);
  }

  /** The page a score leaves behind. */
  predicate Displays(page: Option<ScorePage>, score: Score) {
    && page.Some? && page.value.ShownScore? && page.value.results == score.results
    && page.value.accuracy == score.accuracy && page.value.averageOffset == score.averageOffset
    && |page.value.counters| == |score.totals|
    && forall i :: 0 <= i < |score.totals| ==>
         page.value.counters[i] == if score.totals[i] <= 0xFFFF_FFFF then score.totals[i] else 0xFFFF_FFFF
  }

  predicate LatestScoreFor(scores: seq<Score>, score: Score, runTimeUs: nat) {
    exists k :: 0 <= k < |scores| && scores[k] == score && score.runTimeUs <= runTimeUs
      && forall j :: k < j < |scores| ==> scores[j].runTimeUs > runTimeUs
  }

  lemma PresentedScore(s: State, sc: Screen, slot: Slot, elapsedUs: nat, first: bool, p: string, x: Sample)
    requires slot.participant == Some(p) && sc.page.Some? && Playhead(s, p, elapsedUs) == Some(x)
    ensures var sc' := Present(s, sc, slot, elapsedUs, first);
            sc'.scorePage == sc.scorePage
            || exists score :: LatestScoreFor(GetOr(s.scores, p, []), score, x.runTimeUs)
                && Displays(sc'.scorePage, score)
  {
    hide DueTap, Playhead, NextCommit, IsNewSample;
    var scores := GetOr(s.scores, p, []);
    var k := LastScore(scores, x.runTimeUs);
    var sc' := Present(s, sc, slot, elapsedUs, first);
    if sc'.scorePage != sc.scorePage {
      assert LatestScoreFor(scores, scores[k.value], x.runTimeUs);
      assert Displays(sc'.scorePage, scores[k.value]);
    }
  }

  /** A tick that changes a score page shows the newest score not stamped later than the sample beside it. */
  lemma ScoreNeverAheadOfSample(s: State, nowUs: nat, id: string, p: string, x: Sample)
    requires Presents(s, nowUs, id, p, x) && Tick(s, nowUs).screens[id].scorePage != s.screens[id].scorePage
    ensures exists score :: LatestScoreFor(GetOr(s.scores, p, []), score, x.runTimeUs)
             && Displays(Tick(s, nowUs).screens[id].scorePage, score)
  {
    hide NextEpoch, CommonDelay, Cohort, ResolveAnchors, Eligible, FindSlot, Present, Playhead, Displays,
        LatestScoreFor;
    var t := Aligned(s, nowUs);
    var e := t.epoch.value;
    PresentedScore(t, s.screens[id], FindSlot(Eligible(s), id).value, nowUs - e.releaseAtUs, !e.released, p, x);
  }

  // ---- The launch barrier ----

  /** A slot behind the barrier with both pages zero. */
  predicate Parked(s: State, id: string) {
    && id != AUTOPLAY_SLOT && id in s.awaiting && id in s.screens
    && s.screens[id].page == Some(ZeroInput) && s.screens[id].scorePage == Some(ZeroScore)
  }

  /** The operations that open the barrier for a slot: a new run, or stopping it. */
  predicate Unparks(s: State, op: Op, id: string) {
    op.OpBeginRun? || op.OpStopAll? || op == OpStopSlot(id)
    || (op.OpStopParticipant? && id in IdsShowing(s.slots, op.p))
  }

  lemma LaunchParks(s: State, id: string, io: Io)
    requires Inv(s) && IndexOf(s.slots, id).Some? && s.slots[IndexOf(s.slots, id).value].active && io == IoOk
    ensures Parked(Launch(s, id, io), id)
  {
    hide SamplesOk, TapsOk, ScoresOk, EpochOk;
  }

  lemma {:induction false} StopSlotsSpareOthers(s: State, ids: seq<string>, id: string)
    requires Parked(s, id) && id !in ids
    ensures Parked(StopSlots(s, ids), id)
    decreases |ids|
  {
    hide IndexOf;
    if ids != [] { StopSlotsSpareOthers(StopSlot(s, ids[0]), ids[1..], id); }
  }

  lemma ConfigureKeepsParked(s: State, id: string, key: string, r: Request, frameMissing: bool, io: Io)
    requires Parked(s, id)
    ensures Parked(Configure(s, key, r, frameMissing, io), id)
  {
    hide Candidate, RenderChanged, ValidRequest, IndexOf;
  }

  lemma ParkedIsNotEligible(s: State, id: string)
    requires Parked(s, id)
    ensures FindSlot(Eligible(s), id).None?
  {
  }

  lemma TickKeepsParked(s: State, nowUs: nat, id: string)
    requires Parked(s, id)
    ensures Parked(Tick(s, nowUs), id)
  {
    ParkedIsNotEligible(s, id);
    hide NextEpoch, CommonDelay, Cohort, ResolveAnchors, Eligible, FindSlot;
  }

  lemma OthersKeepParked(s: State, op: Op, id: string)
    requires Parked(s, id) && !Unparks(s, op, id)
    requires !op.OpTick? && !op.OpConfigure? && !op.OpStopParticipant?
    ensures Parked(Step(s, op), id)
  {
    hide IndexOf, HasTap, Newest, Configure, StopParticipant, Tick, FindFeatured, ActiveSlots;
  }

  lemma StepKeepsParked(s: State, op: Op, id: string)
    requires Parked(s, id) && !Unparks(s, op, id)
    ensures Parked(Step(s, op), id)
  {
    match op
    case OpTick(nowUs) => TickKeepsParked(s, nowUs, id);
    case OpConfigure(key, r, frameMissing, io) => ConfigureKeepsParked(s, id, key, r, frameMissing, io);
    case OpStopParticipant(p) => StopSlotsSpareOthers(s, IdsShowing(s.slots, p), id);
    case _ => OthersKeepParked(s, op, id);
  }

  ghost predicate StaysClosed(s: State, ops: seq<Op>, id: string)
    decreases |ops|
  {
    ops != [] ==> !Unparks(s, ops[0], id) && StaysClosed(Step(s, ops[0]), ops[1..], id)
  }

  /** From a slot launch until the next run or stop, its pages stay all zero under any
      arrivals, ticks and reconfigurations, however much telemetry is still buffered. */
  lemma {:induction false} ParkedPagesStayZero(s: State, ops: seq<Op>, id: string)
    requires Parked(s, id) && StaysClosed(s, ops, id)
    ensures Parked(Run(s, ops), id)
    decreases |ops|
  {
    hide Parked, Unparks, Step;
    if ops != [] {
      StepKeepsParked(s, ops[0], id);
      ParkedPagesStayZero(Step(s, ops[0]), ops[1..], id);
    }
  }

  // ---- AUTOPLAY behind the barrier ----

  /** AUTOPLAY behind the barrier, with its input page zero. */
  predicate AutoplayParked(s: State) {
    AUTOPLAY_SLOT in s.awaiting && AUTOPLAY_SLOT in s.screens && s.screens[AUTOPLAY_SLOT].page == Some(ZeroInput)
  }

  /** A new run, or stopping everything or AUTOPLAY itself. */
  predicate UnparksAutoplay(op: Op) {
    op.OpBeginRun? || op.OpStopAll? || op.OpStopAutoplay?
  }

  /** Launching AUTOPLAY parks it as soon as its page exists or can be created, even if it cannot be spawned. */
  lemma LaunchParksAutoplay(s: State, inputOk: bool, spawnOk: bool)
    requires Inv(s) && FindFeatured(ActiveSlots(s.slots)).Some?
    requires inputOk || s.screens[AUTOPLAY_SLOT].page.Some?
    ensures AutoplayParked(LaunchAutoplay(s, inputOk, spawnOk))
  {
    hide SamplesOk, TapsOk, ScoresOk, EpochOk;
  }

  lemma ConfigureSparesAutoplay(s: State, id: string, r: Request, frameMissing: bool, io: Io)
    requires Inv(s) && AutoplayParked(s)
    ensures AutoplayParked(Configure(s, id, r, frameMissing, io))
  {
    hide Candidate, RenderChanged, ValidRequest, ConfiguredScreen, SamplesOk, TapsOk, ScoresOk, EpochOk;
  }

  lemma {:induction false} StopSlotsSpareAutoplay(s: State, ids: seq<string>)
    requires Inv(s) && AutoplayParked(s)
    ensures AutoplayParked(StopSlots(s, ids))
    decreases |ids|
  {
    hide EpochOk, SamplesOk, TapsOk, ScoresOk;
    if ids != [] {
      StopSlotKeepsInv(s, ids[0]);
      StopSlotsSpareAutoplay(StopSlot(s, ids[0]), ids[1..]);
    }
  }

  lemma TickSparesAutoplay(s: State, nowUs: nat)
    requires Inv(s) && AutoplayParked(s)
    ensures AutoplayParked(Tick(s, nowUs))
  {
    hide SamplesOk, TapsOk, ScoresOk, EpochOk, NextEpoch, CommonDelay, Cohort, ResolveAnchors;
    assert FindSlot(Eligible(s), AUTOPLAY_SLOT).None?;
  }

  lemma StepKeepsAutoplayParked(s: State, op: Op)
    requires Inv(s) && AutoplayParked(s) && !UnparksAutoplay(op)
    ensures AutoplayParked(Step(s, op))
  {
    hide Configure, Tick, StopSlots, HasTap, Newest, FindFeatured, ActiveSlots, EpochOk, SamplesOk, TapsOk, ScoresOk;
    match op
    case OpTick(nowUs) => TickSparesAutoplay(s, nowUs);
    case OpConfigure(id, r, frameMissing, io) => ConfigureSparesAutoplay(s, id, r, frameMissing, io);
    case OpStopParticipant(p) => StopSlotsSpareAutoplay(s, IdsShowing(s.slots, p));
    case _ =>
  }

  /** From its launch until the next run, or until it is stopped, AUTOPLAY's input page stays all zero. */
  lemma {:induction false} ParkedAutoplayStaysZero(s: State, ops: seq<Op>)
    requires Inv(s) && AutoplayParked(s) && forall op :: op in ops ==> !UnparksAutoplay(op)
    ensures AutoplayParked(Run(s, ops))
    decreases |ops|
  {
    hide Inv, AutoplayParked, UnparksAutoplay, Step;
    if ops != [] {
      StepKeepsInv(s, ops[0]);
      StepKeepsAutoplayParked(s, ops[0]);
      ParkedAutoplayStaysZero(Step(s, ops[0]), ops[1..]);
    }
  }
}
