/** What every call of the presenter keeps, and that every reachable state has it. */
module PresenterInvariant {
  import opened Wrappers
  import opened Presenter

  predicate SortedSamples(buffer: seq<Buffered>) {
    forall i, j :: 0 <= i < j < |buffer| ==> buffer[i].sample.sequence < buffer[j].sample.sequence
  }

  predicate SortedScores(buffer: seq<Score>) {
    forall i, j :: 0 <= i < j < |buffer| ==> buffer[i].sequence < buffer[j].sequence
  }

  predicate DistinctTaps(buffer: seq<Tap>) {
    forall i, j :: 0 <= i < j < |buffer| ==> buffer[i].sequence != buffer[j].sequence
  }

  predicate SlotsOk(slots: seq<Slot>, ids: set<string>) {
    && AUTOPLAY_SLOT in ids
    && (forall i :: 0 <= i < |slots| ==> slots[i].id != AUTOPLAY_SLOT && slots[i].id in ids)
    && (forall i, j :: 0 <= i < j < |slots| ==> slots[i].id != slots[j].id)
    && (forall i :: 0 <= i < |slots| ==> (slots[i].active <==> slots[i].participant.Some?))
  }

  predicate SamplesOk(samples: map<string, seq<Buffered>>) {
    forall p :: p in samples ==> SortedSamples(samples[p]) && 0 < |samples[p]| <= MAX_RENDER_SAMPLES
  }

  predicate TapsOk(taps: map<string, seq<Tap>>) {
    forall p :: p in taps ==> DistinctTaps(taps[p]) && |taps[p]| <= MAX_RENDER_TAPS
  }

  predicate ScoresOk(scores: map<string, seq<Score>>) {
    forall p :: p in scores ==> SortedScores(scores[p]) && |scores[p]| <= MAX_RENDER_SCORES
  }

  /** Every cohort member's receipt plus this slot's delay lies at or before the release. */
  predicate Covers(e: Epoch, anchors: map<string, Anchor>, slot: Slot)
    requires Ready(anchors, e.participants)
  {
    && (slot.participant.Some? ==> slot.participant.value in e.participants)
    && forall p :: p in e.participants ==> Receipt(anchors, p) + DelayUs(slot) <= e.releaseAtUs
  }

  predicate Shows(slots: seq<Slot>, p: string) {
    exists i :: 0 <= i < |slots| && slots[i].participant == Some(p)
  }

  /** An epoch implies resolved anchors, slots that still show its cohort, and a release
      late enough for every slot that is live now: live slots only shrink during an epoch. */
  predicate EpochOk(epoch: Option<Epoch>, anchors: map<string, Anchor>, slots: seq<Slot>, awaiting: set<string>) {
    epoch.Some? ==>
      var e := epoch.value;
      && Ready(anchors, e.participants)
      && (forall p :: p in e.participants ==> Shows(slots, p))
      && (forall i :: 0 <= i < |slots| && slots[i].active && slots[i].id !in awaiting ==> Covers(e, anchors, slots[i]))
  }

  predicate Inv(s: State) {
    && SlotsOk(s.slots, s.screens.Keys)
    && SamplesOk(s.samples) && TapsOk(s.taps) && ScoresOk(s.scores)
    && EpochOk(s.epoch, s.anchors, s.slots, s.awaiting)
  }

  lemma InvSorted(s: State, p: string)
    requires Inv(s) && p in s.samples
    ensures SortedSamples(s.samples[p])
  {
  }

  lemma InitHasInv()
    ensures Inv(InitState())
  {
  }

  /** Replacing one slot keeps the slot table sound; ids never change. */
  lemma ReplacedSlotOk(slots: seq<Slot>, ids: set<string>, i: nat, slot: Slot)
    requires SlotsOk(slots, ids) && i < |slots| && slot.id == slots[i].id
    requires slot.active <==> slot.participant.Some?
    ensures SlotsOk(slots[i := slot], ids) && SlotsOk(Unfeature(slots)[i := slot], ids)
  {
  }

  /** Slots that differ only in the featured flag keep the epoch sound. */
  lemma FeatureKeepsEpoch(epoch: Option<Epoch>, anchors: map<string, Anchor>, before: seq<Slot>, after: seq<Slot>,
                          awaiting: set<string>)
    requires EpochOk(epoch, anchors, before, awaiting) && |before| == |after|
    requires forall k :: 0 <= k < |before| ==> after[k] == before[k].(featured := after[k].featured)
    ensures EpochOk(epoch, anchors, after, awaiting)
  {
    if epoch.Some? {
      forall p | p in epoch.value.participants ensures Shows(after, p) {
        var k :| 0 <= k < |before| && before[k].participant == Some(p);
        assert after[k].participant == Some(p);
      }
      forall i | 0 <= i < |after| && after[i].active && after[i].id !in awaiting
        ensures Covers(epoch.value, anchors, after[i])
      {
        assert Covers(epoch.value, anchors, before[i]);
      }
    }
  }

  lemma ConfiguredSlotsOk(s: State, id: string, r: Request)
    requires SlotsOk(s.slots, s.screens.Keys) && IndexOf(s.slots, id).Some?
    requires EpochOk(s.epoch, s.anchors, s.slots, s.awaiting)
    ensures var i := IndexOf(s.slots, id).value;
            var configured := Candidate(s.slots[i], r);
            var slots := ConfiguredSlots(s.slots, i, configured, r.featured == Some(true));
            && SlotsOk(slots, s.screens.Keys)
            && (!RenderChanged(s.slots[i], configured) ==> EpochOk(s.epoch, s.anchors, slots, s.awaiting))
  {
    hide IndexOf, EpochOk;
    var i := IndexOf(s.slots, id).value;
    var configured := Candidate(s.slots[i], r);
    ReplacedSlotOk(s.slots, s.screens.Keys, i, configured);
    ReplacedSlotOk(s.slots, s.screens.Keys, i, configured.(featured := true));
    if !RenderChanged(s.slots[i], configured) {
      FeatureKeepsEpoch(s.epoch, s.anchors, s.slots, ConfiguredSlots(s.slots, i, configured, r.featured == Some(true)),
          s.awaiting);
    }
  }

  lemma ConfigureKeepsInv(s: State, id: string, r: Request, frameMissing: bool, io: Io)
    requires Inv(s)
    ensures Inv(Configure(s, id, r, frameMissing, io))
  {
    hide IndexOf, Candidate, RenderChanged, ValidRequest, ConfiguredSlots, ConfiguredScreen, SlotsOk, SamplesOk,
        TapsOk, ScoresOk, EpochOk;
    var t := Configure(s, id, r, frameMissing, io);
    NoEpochOk(s.anchors, t.slots, s.awaiting);
    if IndexOf(s.slots, id).Some? {
      ConfiguredSlotsOk(s, id, r);
      assert t.screens.Keys == s.screens.Keys || id !in s.screens;
      KnownIdHasScreen(s, id);
    }
  }

  lemma KnownIdHasScreen(s: State, id: string)
    requires Inv(s) && IndexOf(s.slots, id).Some?
    ensures id in s.screens
  {
  }

  lemma StopSlotKeepsInv(s: State, id: string)
    requires Inv(s)
    ensures Inv(StopSlot(s, id))
    ensures IndexOf(s.slots, id).Some? ==> StopSlot(s, id).epoch == None
  {
    var index := IndexOf(s.slots, id);
    if index.Some? {
      ReplacedSlotOk(s.slots, s.screens.Keys, index.value, s.slots[index.value].(participant := None, active := false));
      assert StopSlot(s, id).screens.Keys == s.screens.Keys;
    }
  }

  lemma {:induction false} StopSlotsKeepInv(s: State, ids: seq<string>)
    requires Inv(s)
    ensures Inv(StopSlots(s, ids))
    ensures s.epoch == None ==> StopSlots(s, ids).epoch == None
    ensures ids != [] && IndexOf(s.slots, ids[0]).Some? ==> StopSlots(s, ids).epoch == None
    decreases |ids|
  {
    if ids != [] {
      StopSlotKeepsInv(s, ids[0]);
      StopSlotsKeepInv(StopSlot(s, ids[0]), ids[1..]);
    }
  }

  lemma StopParticipantKeepsInv(s: State, p: string)
    requires Inv(s)
    ensures Inv(StopParticipant(s, p))
    ensures Shows(s.slots, p) ==> StopParticipant(s, p).epoch == None
  {
    StopSlotsKeepInv(s, IdsShowing(s.slots, p));
  }

  /** A slot of the tick stands for a live slot with the same participant and delay. */
  predicate StandsFor(s: State, slot: Slot, i: nat) {
    && i < |s.slots| && s.slots[i].active && s.slots[i].id !in s.awaiting
    && s.slots[i].participant == slot.participant && s.slots[i].delayMs == slot.delayMs
  }

  /** Every slot written by a tick, AUTOPLAY included, stands for a live slot. */
  lemma EligibleAreSlots(s: State)
    requires SlotsOk(s.slots, s.screens.Keys)
    ensures forall slot :: slot in Eligible(s) ==> slot.participant.Some? && exists i: nat :: StandsFor(s, slot, i)
  {
    var live := LiveSlots(s.slots, s.awaiting);
    forall slot | slot in Eligible(s)
      ensures slot.participant.Some? && exists i: nat :: StandsFor(s, slot, i)
    {
      var origin := if slot in live then slot else FindFeatured(live).value;
      assert origin in live;
      var i :| 0 <= i < |s.slots| && s.slots[i] == origin;
      assert StandsFor(s, slot, i);
    }
  }

  lemma ResolvedStays(s: State, cohort: set<string>, p: string)
    requires Resolved(s.anchors, p)
    ensures Resolved(ResolveAnchors(s, cohort), p) && ResolveAnchors(s, cohort)[p] == s.anchors[p]
  {
  }

  lemma KeptEpochOk(s: State, cohort: set<string>)
    requires EpochOk(s.epoch, s.anchors, s.slots, s.awaiting)
    ensures EpochOk(s.epoch, ResolveAnchors(s, cohort), s.slots, s.awaiting)
  {
    if s.epoch.Some? {
      var e := s.epoch.value;
      var anchors := ResolveAnchors(s, cohort);
      forall p | p in e.participants ensures Resolved(anchors, p) && anchors[p] == s.anchors[p] {
        ResolvedStays(s, cohort, p);
      }
      forall i | 0 <= i < |s.slots| && s.slots[i].active && s.slots[i].id !in s.awaiting
        ensures Covers(e, anchors, s.slots[i])
      {
        assert Covers(e, s.anchors, s.slots[i]);
      }
    }
  }

  lemma NewEpochOk(s: State, slots: seq<Slot>, anchors: map<string, Anchor>, e: Epoch, latest: nat, delay: nat)
    requires Ready(anchors, e.participants) && e.releaseAtUs == latest + delay
    requires forall p :: p in e.participants ==> Receipt(anchors, p) <= latest && Shows(s.slots, p)
    requires forall slot :: slot in slots ==> DelayUs(slot) <= delay
    requires forall slot :: slot in slots && slot.participant.Some? ==> slot.participant.value in e.participants
    requires forall slot :: slot in s.slots && slot.active && slot.id !in s.awaiting ==> slot in slots
    ensures EpochOk(Some(e), anchors, s.slots, s.awaiting)
  {
    forall i | 0 <= i < |s.slots| && s.slots[i].active && s.slots[i].id !in s.awaiting
      ensures Covers(e, anchors, s.slots[i])
    {
      assert s.slots[i] in slots;
    }
  }

  lemma CohortIsShown(s: State, slots: seq<Slot>, p: string)
    requires forall slot :: slot in slots ==> slot.participant.Some? && exists i: nat :: StandsFor(s, slot, i)
    requires p in Cohort(slots)
    ensures Shows(s.slots, p)
  {
    var slot :| slot in slots && slot.participant == Some(p);
    var i: nat :| StandsFor(s, slot, i);
    assert s.slots[i].participant == Some(p);
  }

  lemma NoEpochOk(anchors: map<string, Anchor>, slots: seq<Slot>, awaiting: set<string>)
    ensures EpochOk(None, anchors, slots, awaiting)
  {
  }

  lemma NextEpochOk(s: State, slots: seq<Slot>, anchors: map<string, Anchor>, nowUs: nat)
    requires slots != [] && Cohort(slots) != {}
    requires forall p :: p in Cohort(slots) ==> Shows(s.slots, p)
    requires forall slot :: slot in s.slots && slot.active && slot.id !in s.awaiting ==> slot in slots
    requires EpochOk(s.epoch, anchors, s.slots, s.awaiting)
    ensures var epoch := NextEpoch(s.epoch, anchors, Cohort(slots), CommonDelay(slots), nowUs);
            EpochOk(epoch, anchors, s.slots, s.awaiting) && (epoch.Some? ==> epoch.value.participants == Cohort(slots))
  {
    hide Cohort, CommonDelay, LatestReceipt, EpochOk, Shows;
    var cohort := Cohort(slots);
    NoEpochOk(anchors, s.slots, s.awaiting);
    if !(s.epoch.Some? && s.epoch.value.participants == cohort) && Ready(anchors, cohort) {
      var latest, delay := LatestReceipt(anchors, cohort), CommonDelay(slots);
      NewEpochOk(s, slots, anchors, Epoch(cohort, latest + delay, false), latest, delay);
    }
  }

  lemma AlignedKeepsInv(s: State, nowUs: nat)
    requires Inv(s) && Eligible(s) != []
    ensures Inv(Aligned(s, nowUs))
    ensures Aligned(s, nowUs).epoch.Some? ==> Aligned(s, nowUs).epoch.value.participants == Cohort(Eligible(s))
  {
    hide CommonDelay, NextEpoch, SlotsOk, SamplesOk, TapsOk, ScoresOk, EpochOk, Shows, StandsFor;
    var slots := Eligible(s);
    var cohort := Cohort(slots);
    KeptEpochOk(s, cohort);
    EligibleAreSlots(s);
    assert slots[0] in slots && slots[0].participant.value in cohort;
    forall p | p in cohort ensures Shows(s.slots, p) { CohortIsShown(s, slots, p); }
    NextEpochOk(s, slots, ResolveAnchors(s, cohort), nowUs);
  }

  lemma TickKeepsInv(s: State, nowUs: nat)
    requires Inv(s)
    ensures Inv(Tick(s, nowUs))
  {
    if Eligible(s) != [] {
      AlignedKeepsInv(s, nowUs);
      var t := Aligned(s, nowUs);
      if Releases(s, nowUs) {
        ReleasedFlagIrrelevant(t.epoch.value, t.anchors, t.slots, t.awaiting);
      }
    }
  }

  lemma ReleasedFlagIrrelevant(e: Epoch, anchors: map<string, Anchor>, slots: seq<Slot>, awaiting: set<string>)
    requires EpochOk(Some(e), anchors, slots, awaiting)
    ensures EpochOk(Some(e.(released := true)), anchors, slots, awaiting)
  {
    forall i | 0 <= i < |slots| && slots[i].active && slots[i].id !in awaiting
      ensures Covers(e.(released := true), anchors, slots[i])
    {
      assert Covers(e, anchors, slots[i]);
    }
  }

  lemma PushedSamplesSorted(buffer: seq<Buffered>, b: Buffered)
    requires SortedSamples(buffer) && (buffer == [] || buffer[|buffer| - 1].sample.sequence < b.sample.sequence)
    ensures SortedSamples(Newest(buffer + [b], MAX_RENDER_SAMPLES))
  {
    var all := buffer + [b];
    assert forall i, j :: 0 <= i < j < |all| ==> all[i].sample.sequence < all[j].sample.sequence;
  }

  lemma PushedScoresSorted(buffer: seq<Score>, score: Score)
    requires SortedScores(buffer) && (buffer == [] || buffer[|buffer| - 1].sequence < score.sequence)
    ensures SortedScores(Newest(buffer + [score], MAX_RENDER_SCORES))
  {
    var all := buffer + [score];
    assert forall i, j :: 0 <= i < j < |all| ==> all[i].sequence < all[j].sequence;
  }

  lemma PushedTapsDistinct(buffer: seq<Tap>, tap: Tap)
    requires DistinctTaps(buffer) && !HasTap(buffer, tap.sequence)
    ensures DistinctTaps(Newest(buffer + [tap], MAX_RENDER_TAPS))
  {
    var all := buffer + [tap];
    assert forall i, j :: 0 <= i < j < |all| ==> all[i].sequence != all[j].sequence;
  }

  lemma PushSampleKeepsInv(s: State, p: string, b: Buffered)
    requires Inv(s)
    ensures Inv(PushSample(s, p, b))
  {
    hide Newest, SortedSamples, SlotsOk, EpochOk, TapsOk, ScoresOk;
    var buffer := GetOr(s.samples, p, []);
    if buffer == [] { EmptySorted(); }
    if buffer == [] || buffer[|buffer| - 1].sample.sequence < b.sample.sequence { PushedSamplesSorted(buffer, b); }
  }

  lemma PushTapKeepsInv(s: State, p: string, tap: Tap)
    requires Inv(s)
    ensures Inv(PushTap(s, p, tap))
  {
    hide Newest, DistinctTaps, HasTap, SlotsOk, EpochOk, SamplesOk, ScoresOk;
    var buffer := GetOr(s.taps, p, []);
    if buffer == [] { EmptySorted(); }
    if !HasTap(buffer, tap.sequence) { PushedTapsDistinct(buffer, tap); }
  }

  lemma PushScoreKeepsInv(s: State, p: string, score: Score)
    requires Inv(s)
    ensures Inv(PushScore(s, p, score))
  {
    hide Newest, SortedScores, SlotsOk, EpochOk, SamplesOk, TapsOk;
    var buffer := GetOr(s.scores, p, []);
    if buffer == [] { EmptySorted(); }
    if buffer == [] || buffer[|buffer| - 1].sequence < score.sequence { PushedScoresSorted(buffer, score); }
  }

  lemma EmptySorted()
    ensures SortedSamples([]) && SortedScores([]) && DistinctTaps([])
  {
  }

  /** Closing a slot's gate only removes it from the live slots. */
  lemma LaunchKeepsInv(s: State, id: string, io: Io)
    requires Inv(s)
    ensures Inv(Launch(s, id, io))
  {
    assert Launch(s, id, io).screens.Keys == s.screens.Keys;
  }

  lemma LaunchAutoplayKeepsInv(s: State, inputOk: bool, spawnOk: bool)
    requires Inv(s)
    ensures Inv(LaunchAutoplay(s, inputOk, spawnOk))
  {
    assert LaunchAutoplay(s, inputOk, spawnOk).screens.Keys == s.screens.Keys;
  }

  lemma BeginRunKeepsInv(s: State)
    requires Inv(s)
    ensures Inv(BeginRun(s))
  {
    hide FreshScreen;
    assert BeginRun(s).screens.Keys == s.screens.Keys;
  }

  lemma StopAllKeepsInv(s: State)
    requires Inv(s)
    ensures Inv(StopAll(s)) && Inv(StopAutoplay(s))
  {
    assert StopAll(s).screens.Keys == s.screens.Keys == StopAutoplay(s).screens.Keys;
  }

  lemma AnchorKeepsInv(s: State, p: string, beat: real, offset: real)
    requires Inv(s)
    ensures Inv(PushAnchor(s, p, beat, offset))
  {
  }

  lemma StepKeepsInv(s: State, op: Op)
    requires Inv(s)
    ensures Inv(Step(s, op))
  {
    hide Inv, PushSample, PushAnchor, PushTap, PushScore, BeginRun, Configure, Launch, LaunchAutoplay, StopAutoplay,
        StopSlot, StopParticipant, StopAll, Tick;
    match op
    case OpSample(p, b) => PushSampleKeepsInv(s, p, b);
    case OpTap(p, tap) => PushTapKeepsInv(s, p, tap);
    case OpScore(p, score) => PushScoreKeepsInv(s, p, score);
    case OpAnchor(p, beat, offset) => AnchorKeepsInv(s, p, beat, offset);
    case OpConfigure(id, r, frameMissing, io) => ConfigureKeepsInv(s, id, r, frameMissing, io);
    case OpLaunch(id, io) => LaunchKeepsInv(s, id, io);
    case OpLaunchAutoplay(inputOk, spawnOk) => LaunchAutoplayKeepsInv(s, inputOk, spawnOk);
    case OpStopSlot(id) => StopSlotKeepsInv(s, id);
    case OpStopParticipant(p) => StopParticipantKeepsInv(s, p);
    case OpTick(nowUs) => TickKeepsInv(s, nowUs);
    case OpBeginRun => BeginRunKeepsInv(s);
    case _ => StopAllKeepsInv(s);
  }

  /** Every state reachable from a sound one is sound. */
  lemma {:induction false} RunKeepsInv(s: State, ops: seq<Op>)
    requires Inv(s)
    ensures Inv(Run(s, ops))
    decreases |ops|
  {
    if ops != [] {
      StepKeepsInv(s, ops[0]);
      RunKeepsInv(Step(s, ops[0]), ops[1..]);
    }
  }
}
