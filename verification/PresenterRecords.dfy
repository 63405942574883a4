/** What the published records say: whose motion they carry, with which offset, flags and score. */
module PresenterRecords {
  import opened Wrappers
  import opened Presenter
  import opened PresenterInvariant
  import opened PresenterTheorems
  import opened PresenterCursors
  import opened PresenterClock
  import opened PresenterArrivals

  /** A record with the paddle angle and the playing and paused flags of a sample, at an input offset. */
  predicate CarriesMotion(page: InputPage, x: Sample, offsetMs: real) {
    && page.Input? && page.paddleAngle == x.paddleAngle && page.inputOffsetMs == offsetMs
    && page.flags.playing == x.flags.playing && page.flags.paused == x.flags.paused
  }

  /** Commit markers count up and skip zero when they wrap at 32 bits. */
  predicate NextMarker(before: nat, after: nat) {
    (before < 0xFFFF_FFFF ==> after == before + 1) && (before == 0xFFFF_FFFF ==> after == 1)
  }

  // ---- After the release ----

  lemma PresentationRecord(s: State, sc: Screen, slot: Slot, elapsedUs: nat, firstRelease: bool, p: string, x: Sample)
    requires slot.participant == Some(p) && sc.page.Some? && Playhead(s, p, elapsedUs) == Some(x)
    ensures p in s.anchors
    ensures var sc' := Present(s, sc, slot, elapsedUs, firstRelease);
            && sc'.page.Some? && CarriesMotion(sc'.page.value, x, s.anchors[p].inputOffsetMs)
            && sc'.page.value.flags.capture
            && (sc'.page.value.flags.syncRelease <==> firstRelease || sc.source != Some(p))
            && sc'.page.value.beat == (if firstRelease then s.anchors[p].firstNoteBeat else x.beat)
            && sc'.inputCommit == sc'.page.value.commit && NextMarker(sc.inputCommit, sc'.inputCommit)
  {
    assert p in s.anchors;
    hide DueTap, LastScore, Truncate, Playhead;
  }

  /** A releasing tick publishes the motion of the sample it shows, with its participant's offset; the
      synchronizing flag is set on the epoch's first release and wherever the screen stood on another source. */
  lemma PresentedRecord(s: State, nowUs: nat, id: string, p: string, x: Sample)
    requires Presents(s, nowUs, id, p, x)
    ensures id in Tick(s, nowUs).screens && p in s.anchors
    ensures var sc, sc' := s.screens[id], Tick(s, nowUs).screens[id];
            var first := !Aligned(s, nowUs).epoch.value.released;
            && sc'.page.Some? && CarriesMotion(sc'.page.value, x, s.anchors[p].inputOffsetMs)
            && sc'.page.value.flags.capture
            && (sc'.page.value.flags.syncRelease <==> first || sc.source != Some(p))
            && sc'.page.value.beat == (if first then s.anchors[p].firstNoteBeat else x.beat)
            && sc'.inputCommit == sc'.page.value.commit && NextMarker(sc.inputCommit, sc'.inputCommit)
  {
    hide NextEpoch, CommonDelay, Cohort, Eligible, FindSlot, Present, Playhead, CarriesMotion, NextMarker, FirstNote;
    var t := Aligned(s, nowUs);
    var e := t.epoch.value;
    PresentationRecord(t, s.screens[id], FindSlot(Eligible(s), id).value, nowUs - e.releaseAtUs, !e.released, p, x);
  }

  /** The score half of one presentation: the newest score not later than the sample is on the page afterwards,
      written anew unless the screen already stood on this source and this score. */
  lemma PresentationScore(s: State, sc: Screen, slot: Slot, elapsedUs: nat, first: bool, p: string, x: Sample,
                          score: Score)
    requires slot.participant == Some(p) && sc.page.Some? && Playhead(s, p, elapsedUs) == Some(x)
    requires LatestScoreFor(GetOr(s.scores, p, []), score, x.runTimeUs)
    ensures var sc' := Present(s, sc, slot, elapsedUs, first);
            && (sc.scorePage.Some? && (sc.source != Some(p) || sc.scoreCursor != Some(score.sequence)) ==>
                  && sc'.scoreCursor == Some(score.sequence) && Displays(sc'.scorePage, score)
                  && sc'.scorePage.value.commit == sc'.scoreCommit && NextMarker(sc.scoreCommit, sc'.scoreCommit))
            && (sc.scorePage.None? || (sc.source == Some(p) && sc.scoreCursor == Some(score.sequence)) ==>
                  sc'.scorePage == sc.scorePage && sc'.scoreCommit == sc.scoreCommit)
  {
    hide DueTap, Playhead, IsNewSample;
    var scores := GetOr(s.scores, p, []);
    var k := LastScore(scores, x.runTimeUs);
    assert k.Some? && scores[k.value] == score;
  }

  /** A releasing tick brings the score page up to the newest score not later than the sample beside it. */
  lemma PresentedScorePage(s: State, nowUs: nat, id: string, p: string, x: Sample, score: Score)
    requires Presents(s, nowUs, id, p, x) && LatestScoreFor(GetOr(s.scores, p, []), score, x.runTimeUs)
    ensures id in Tick(s, nowUs).screens
    ensures var sc, sc' := s.screens[id], Tick(s, nowUs).screens[id];
            && (sc.scorePage.Some? && (sc.source != Some(p) || sc.scoreCursor != Some(score.sequence)) ==>
                  && sc'.scoreCursor == Some(score.sequence) && Displays(sc'.scorePage, score)
                  && sc'.scorePage.value.commit == sc'.scoreCommit && NextMarker(sc.scoreCommit, sc'.scoreCommit))
            && (sc.scorePage.None? || (sc.source == Some(p) && sc.scoreCursor == Some(score.sequence)) ==>
                  sc'.scorePage == sc.scorePage && sc'.scoreCommit == sc.scoreCommit)
  {
    hide NextEpoch, CommonDelay, Cohort, ResolveAnchors, Eligible, FindSlot, Present, Playhead, Displays,
        LatestScoreFor, NextMarker;
    var t := Aligned(s, nowUs);
    var e := t.epoch.value;
    PresentationScore(t, s.screens[id], FindSlot(Eligible(s), id).value, nowUs - e.releaseAtUs, !e.released, p, x,
        score);
  }

  // ---- Warm-up ----

  /** `x` is the newest sample of a buffer that was received no later than the target. */
  predicate NewestReceived(buffer: seq<Buffered>, x: Sample, targetUs: int) {
    exists k :: 0 <= k < |buffer| && buffer[k].sample == x && buffer[k].receivedAtUs <= targetUs
      && forall j :: k < j < |buffer| ==> buffer[j].receivedAtUs > targetUs
  }

  lemma NewestInLonger(buffer: seq<Buffered>, b: Buffered, x: Sample, targetUs: nat)
    requires NewestReceived(buffer, x, targetUs) && b.receivedAtUs > targetUs
    ensures NewestReceived(buffer + [b], x, targetUs)
  {
    var k :| 0 <= k < |buffer| && buffer[k].sample == x && buffer[k].receivedAtUs <= targetUs
             && forall j :: k < j < |buffer| ==> buffer[j].receivedAtUs > targetUs;
    var all := buffer + [b];
    assert all[k].sample == x;
  }

  lemma {:induction false} LastReceivedIsNewest(buffer: seq<Buffered>, targetUs: nat)
    ensures var r := LastReceived(buffer, targetUs);
            && (r.Some? ==> NewestReceived(buffer, r.value, targetUs))
            && (r.None? ==> forall b :: b in buffer ==> b.receivedAtUs > targetUs)
  {
    if buffer != [] {
      var n := |buffer| - 1;
      if buffer[n].receivedAtUs <= targetUs {
        assert NewestReceived(buffer, buffer[n].sample, targetUs);
      } else {
        hide NewestReceived;
        LastReceivedIsNewest(buffer[..n], targetUs);
        assert buffer == buffer[..n] + [buffer[n]];
        var r := LastReceived(buffer[..n], targetUs);
        if r.Some? { NewestInLonger(buffer[..n], buffer[n], r.value, targetUs); }
      }
    }
  }

  lemma OneNewest(buffer: seq<Buffered>, x: Sample, y: Sample, targetUs: int)
    requires NewestReceived(buffer, x, targetUs) && NewestReceived(buffer, y, targetUs)
    ensures x == y
  {
  }

  /** The offset of a participant's anchor, or zero before it sent one. */
  function AnchorOffset(s: State, p: string): real {
    if p in s.anchors then s.anchors[p].inputOffsetMs else 0.0
  }

  /** The record of a sample shown before the release: motion only, no judgement, capture, synchronizing or tap. */
  function WarmupPage(x: Sample, offsetMs: real, commit: nat): InputPage {
    Input(commit, None, offsetMs, x.beat, x.paddleAngle,
        OutFlags(x.flags.playing, x.flags.paused, false, false, false, false))
  }

  lemma WarmRecord(s: State, sc: Screen, slot: Slot, targetUs: nat, p: string)
    requires slot.participant == Some(p) && sc.page.Some?
    ensures var sc' := Warm(s, sc, slot, targetUs);
            && (forall x :: NewestReceived(GetOr(s.samples, p, []), x, targetUs) ==>
                  NextMarker(sc.inputCommit, sc'.inputCommit)
                  && sc' == sc.(source := Some(p), inputCommit := sc'.inputCommit,
                                page := Some(WarmupPage(x, AnchorOffset(s, p), sc'.inputCommit))))
            && ((forall b :: b in GetOr(s.samples, p, []) ==> b.receivedAtUs > targetUs) ==> sc' == sc)
  {
    var buffer := GetOr(s.samples, p, []);
    var r := LastReceived(buffer, targetUs);
    LastReceivedIsNewest(buffer, targetUs);
    hide LastReceived, NewestReceived;
    forall x | NewestReceived(buffer, x, targetUs) ensures r == Some(x) {
      SomeReceived(buffer, x, targetUs);
      OneNewest(buffer, x, r.value, targetUs);
    }
  }

  lemma SomeReceived(buffer: seq<Buffered>, x: Sample, targetUs: int)
    requires NewestReceived(buffer, x, targetUs)
    ensures exists b :: b in buffer && b.receivedAtUs <= targetUs
  {
  }

  /** The warm-up target: `now` less a slot's delay, or zero. */
  function Target(nowUs: nat, slot: Slot): nat {
    if nowUs < slot.delayMs * 1_000 then 0 else nowUs - slot.delayMs * 1_000
  }

  /** Before the release a tick shows, on every screen it writes, the newest sample received by `now` less the
      largest delay of the slots it writes: motion and playing state, the participant's offset and nothing else. */
  lemma WarmedRecord(s: State, nowUs: nat, id: string, p: string, slowest: Slot, x: Sample)
    requires Eligible(s) != [] && !Releases(s, nowUs) && id in s.screens && s.screens[id].page.Some?
    requires Source(s, id) == Some(p)
    requires slowest in Eligible(s) && forall slot :: slot in Eligible(s) ==> slot.delayMs <= slowest.delayMs
    requires NewestReceived(GetOr(s.samples, p, []), x, Target(nowUs, slowest))
    ensures id in Tick(s, nowUs).screens
    ensures var sc, sc' := s.screens[id], Tick(s, nowUs).screens[id];
            NextMarker(sc.inputCommit, sc'.inputCommit)
            && sc' == sc.(source := Some(p), inputCommit := sc'.inputCommit,
                          page := Some(WarmupPage(x, AnchorOffset(s, p), sc'.inputCommit)))
  {
    hide NextEpoch, CommonDelay, Cohort, Eligible, FindSlot, Warm, NewestReceived, WarmupPage, NextMarker, FirstNote,
        ResolveAnchors, AnchorOffset;
    SlowestIsCommon(Eligible(s), slowest);
    AlignedOffset(s, nowUs, p);
    WarmTarget(s, nowUs, id);
    WarmRecord(Aligned(s, nowUs), s.screens[id], FindSlot(Eligible(s), id).value, Target(nowUs, slowest), p);
  }

  lemma SlowestIsCommon(slots: seq<Slot>, slowest: Slot)
    requires slowest in slots && forall slot :: slot in slots ==> slot.delayMs <= slowest.delayMs
    ensures CommonDelay(slots) == slowest.delayMs * 1_000
  {
    hide CommonDelay;
    assert DelayUs(slowest) <= CommonDelay(slots);
  }

  lemma AlignedOffset(s: State, nowUs: nat, p: string)
    requires Eligible(s) != []
    ensures AnchorOffset(Aligned(s, nowUs), p) == AnchorOffset(s, p)
    ensures Aligned(s, nowUs).samples == s.samples && Aligned(s, nowUs).screens == s.screens
  {
    hide NextEpoch, CommonDelay, Cohort, Eligible, FirstNote;
  }

  /** Before the release a tick warms each written screen toward the common delay's target. */
  lemma WarmTarget(s: State, nowUs: nat, id: string)
    requires Eligible(s) != [] && !Releases(s, nowUs) && id in s.screens && FindSlot(Eligible(s), id).Some?
    ensures id in Tick(s, nowUs).screens
    ensures var delay := CommonDelay(Eligible(s));
            Tick(s, nowUs).screens[id] == Warm(Aligned(s, nowUs), s.screens[id], FindSlot(Eligible(s), id).value,
                if nowUs < delay then 0 else nowUs - delay)
  {
    hide NextEpoch, CommonDelay, Cohort, Eligible, FindSlot, Warm, Present, ResolveAnchors;
  }

  /** A screen is left as it is by a tick that writes no slot, or not this one, or finds no page to write on. */
  lemma UnwrittenScreen(s: State, nowUs: nat, id: string)
    requires id in s.screens && (Eligible(s) == [] || Source(s, id).None? || s.screens[id].page.None?)
    ensures id in Tick(s, nowUs).screens && Tick(s, nowUs).screens[id] == s.screens[id]
  {
    hide NextEpoch, CommonDelay, Cohort, ResolveAnchors, Eligible, FindSlot, Warm, Present;
    if Eligible(s) != [] && FindSlot(Eligible(s), id).Some? {
      NothingToPaint(Aligned(s, nowUs), s.screens[id], FindSlot(Eligible(s), id).value);
    }
  }

  lemma NothingToPaint(s: State, sc: Screen, slot: Slot)
    requires slot.participant.None? || sc.page.None?
    ensures forall target: nat :: Warm(s, sc, slot, target) == sc
    ensures forall elapsed: nat, first :: Present(s, sc, slot, elapsed, first) == sc
  {
  }

  /** So is one whose participant has sent nothing that was received by then. */
  lemma NothingToWarm(s: State, nowUs: nat, id: string, p: string, slowest: Slot)
    requires Eligible(s) != [] && !Releases(s, nowUs) && id in s.screens && s.screens[id].page.Some?
    requires Source(s, id) == Some(p)
    requires slowest in Eligible(s) && forall slot :: slot in Eligible(s) ==> slot.delayMs <= slowest.delayMs
    requires forall b :: b in GetOr(s.samples, p, []) ==> b.receivedAtUs > Target(nowUs, slowest)
    ensures id in Tick(s, nowUs).screens && Tick(s, nowUs).screens[id] == s.screens[id]
  {
    hide NextEpoch, CommonDelay, Cohort, ResolveAnchors, Eligible, FindSlot, Warm, NewestReceived, AnchorOffset;
    SlowestIsCommon(Eligible(s), slowest);
    AlignedOffset(s, nowUs, p);
    WarmTarget(s, nowUs, id);
    WarmRecord(Aligned(s, nowUs), s.screens[id], FindSlot(Eligible(s), id).value, Target(nowUs, slowest), p);
  }

  // ---- The first release of an epoch ----

  lemma OthersKeepEpoch(s: State, op: Op)
    requires !op.OpTick?
    ensures Step(s, op).epoch == s.epoch || Step(s, op).epoch == None
  {
    hide IndexOf, HasTap, Newest, Configure, Tick, FindFeatured, ActiveSlots, ResetPages, ResetInput, FreshScreen,
        StopSlots, IdsShowing;
    match op
    case OpConfigure(id, r, frameMissing, io) => ConfigureKeepsData(s, id, r, frameMissing, io);
    case OpStopParticipant(p) => StopSlotsKeepEpoch(s, IdsShowing(s.slots, p));
    case _ =>
  }

  lemma {:induction false} StopSlotsKeepEpoch(s: State, ids: seq<string>)
    ensures StopSlots(s, ids).epoch == s.epoch || StopSlots(s, ids).epoch == None
    decreases |ids|
  {
    hide IndexOf;
    if ids != [] { StopSlotsKeepEpoch(StopSlot(s, ids[0]), ids[1..]); }
  }

  /** An epoch counts as released from its first releasing tick on, for as long as it stands. */
  lemma StepReleased(s: State, op: Op)
    requires Step(s, op).epoch.Some?
    ensures var e := Step(s, op).epoch.value;
            e.released <==> || (op.OpTick? && Releases(s, op.nowUs))
                            || (InEpoch(s, e.participants, e.releaseAtUs) && s.epoch.value.released)
  {
    if !op.OpTick? {
      hide Step;
      OthersKeepEpoch(s, op);
    } else if Eligible(s) != [] {
      hide Eligible, Tick, Aligned, Releases;
      AlignedEpoch(s, op.nowUs);
      TickEpoch(s, op.nowUs);
    }
  }

  lemma AlignedEpoch(s: State, nowUs: nat)
    requires Eligible(s) != [] && Aligned(s, nowUs).epoch.Some?
    ensures var e := Aligned(s, nowUs).epoch.value;
            e.released <==> InEpoch(s, e.participants, e.releaseAtUs) && s.epoch.value.released
  {
    hide Eligible, Cohort, CommonDelay, ResolveAnchors, Ready, LatestReceipt;
  }

  lemma TickEpoch(s: State, nowUs: nat)
    requires Eligible(s) != []
    ensures Tick(s, nowUs).epoch ==
            if Releases(s, nowUs) then Some(Aligned(s, nowUs).epoch.value.(released := true))
            else Aligned(s, nowUs).epoch
  {
    hide Eligible, Aligned, CommonDelay, Paint;
  }

  /** Operation `k` of a run was a releasing tick of this epoch, and the epoch has stood ever since. */
  ghost predicate ReleasedAt(ops: seq<Op>, k: nat, cohort: set<string>, releaseAtUs: nat) {
    && k < |ops| && ops[k].OpTick? && Releases(Run(InitState(), ops[..k]), ops[k].nowUs)
    && forall m :: k < m <= |ops| ==> InEpoch(Run(InitState(), ops[..m]), cohort, releaseAtUs)
  }

  lemma ReleasedStays(ops: seq<Op>, op: Op, k: nat, cohort: set<string>, releaseAtUs: nat)
    requires k < |ops| && InEpoch(Run(InitState(), ops + [op]), cohort, releaseAtUs)
    ensures ReleasedAt(ops, k, cohort, releaseAtUs) <==> ReleasedAt(ops + [op], k, cohort, releaseAtUs)
  {
    hide Run, InEpoch, Releases, InitState;
    var all := ops + [op];
    assert all[..k] == ops[..k] && all[..|all|] == all;
    forall m | k < m <= |ops| ensures all[..m] == ops[..m] { }
  }

  /** In every run an epoch is marked released exactly when it has stood since some releasing tick. */
  lemma {:induction false} ReleasedIff(ops: seq<Op>)
    ensures var s := Run(InitState(), ops);
            s.epoch.Some? ==>
              (s.epoch.value.released <==>
               exists k :: ReleasedAt(ops, k, s.epoch.value.participants, s.epoch.value.releaseAtUs))
    decreases |ops|
  {
    hide Step, Releases, ReleasedAt;
    if ops != [] && Run(InitState(), ops).epoch.Some? {
      var n := |ops| - 1;
      var s, t, op := Run(InitState(), ops[..n]), Run(InitState(), ops), ops[n];
      var cohort, release := t.epoch.value.participants, t.epoch.value.releaseAtUs;
      RunLast(InitState(), ops);
      assert ops[..n] + [op] == ops;
      ReleasedIff(ops[..n]);
      StepReleased(s, op);
      LastRelease(ops, cohort, release);
      forall k: nat | k < n
        ensures ReleasedAt(ops[..n], k, cohort, release) <==> ReleasedAt(ops, k, cohort, release)
      {
        ReleasedStays(ops[..n], op, k, cohort, release);
      }
      NoReleaseBeyond(ops[..n], cohort, release);
    }
  }

  /** The last operation releases exactly when it is a releasing tick; an earlier release needs the epoch before it. */
  lemma LastRelease(ops: seq<Op>, cohort: set<string>, releaseAtUs: nat)
    requires ops != [] && InEpoch(Run(InitState(), ops), cohort, releaseAtUs)
    ensures var n := |ops| - 1; var s := Run(InitState(), ops[..n]);
            && (ReleasedAt(ops, n, cohort, releaseAtUs) <==> ops[n].OpTick? && Releases(s, ops[n].nowUs))
            && ((exists k :: ReleasedAt(ops[..n], k, cohort, releaseAtUs)) ==> InEpoch(s, cohort, releaseAtUs))
            && forall k: nat :: ReleasedAt(ops, k, cohort, releaseAtUs) ==> k <= n
  {
    hide Run, Releases, InitState, InEpoch;
    var n := |ops| - 1;
    assert ops[..|ops|] == ops && ops[..n][..n] == ops[..n];
  }

  lemma NoReleaseBeyond(ops: seq<Op>, cohort: set<string>, releaseAtUs: nat)
    ensures forall k: nat :: ReleasedAt(ops, k, cohort, releaseAtUs) ==> k < |ops|
  {
  }

  /** In every run a record carries the synchronizing flag exactly when the screen stood on another source or none,
      or its tick is the first one to release the epoch that stands. */
  lemma SyncFlagIff(ops: seq<Op>, nowUs: nat, id: string, p: string, x: Sample)
    requires Presents(Run(InitState(), ops), nowUs, id, p, x)
    ensures var s := Run(InitState(), ops); var t := Tick(s, nowUs);
            && id in t.screens && t.screens[id].page.Some? && t.screens[id].page.value.Input? && t.epoch.Some?
            && (t.screens[id].page.value.flags.syncRelease <==>
                s.screens[id].source != Some(p)
                || forall k :: !ReleasedAt(ops, k, t.epoch.value.participants, t.epoch.value.releaseAtUs))
  {
    var s := Run(InitState(), ops);
    assert Releases(s, nowUs);
    hide Tick, Aligned, Presents, Run, ReleasedAt, InitState, Eligible;
    PresentedRecord(s, nowUs, id, p, x);
    AlignedEpoch(s, nowUs);
    TickEpoch(s, nowUs);
    ReleasedIff(ops);
    StandsIfReleased(ops, Aligned(s, nowUs).epoch.value.participants, Aligned(s, nowUs).epoch.value.releaseAtUs);
  }

  lemma StandsIfReleased(ops: seq<Op>, cohort: set<string>, releaseAtUs: nat)
    ensures forall k: nat :: ReleasedAt(ops, k, cohort, releaseAtUs)
              ==> InEpoch(Run(InitState(), ops), cohort, releaseAtUs)
  {
    assert ops[..|ops|] == ops;
  }

  // ---- Over runs ----

  /** The page a tick leaves on a screen is the one before it, or carries a buffered sample and its anchor's offset. */
  lemma TickRecord(s: State, nowUs: nat, id: string)
    requires id in Tick(s, nowUs).screens
    ensures id in s.screens
    ensures var page := Tick(s, nowUs).screens[id].page;
            page == s.screens[id].page
            || exists p, b :: b in GetOr(s.samples, p, []) && page.Some?
                 && CarriesMotion(page.value, b.sample, AnchorOffset(s, p))
  {
    hide Tick, Eligible, Releases, CarriesMotion, AnchorOffset, Shown;
    TickKeepsScreenIds(s, nowUs);
    if Eligible(s) == [] || Source(s, id).None? || s.screens[id].page.None? {
      UnwrittenScreen(s, nowUs, id);
    } else {
      var p := Source(s, id).value;
      if Releases(s, nowUs) {
        if Shown(s, nowUs, p).Some? { PresentedTick(s, nowUs, id, p, Shown(s, nowUs, p).value); }
        else { IdleScreen(s, nowUs, id); }
      } else {
        WarmTick(s, nowUs, id, p);
      }
    }
  }

  lemma TickKeepsScreenIds(s: State, nowUs: nat)
    ensures Tick(s, nowUs).screens.Keys == s.screens.Keys
  {
    hide NextEpoch, CommonDelay, Cohort, ResolveAnchors, Eligible, PaintScreen;
  }

  lemma PresentedTick(s: State, nowUs: nat, id: string, p: string, x: Sample)
    requires Presents(s, nowUs, id, p, x)
    ensures id in Tick(s, nowUs).screens
    ensures exists b :: b in GetOr(s.samples, p, []) && Tick(s, nowUs).screens[id].page.Some?
              && CarriesMotion(Tick(s, nowUs).screens[id].page.value, b.sample, AnchorOffset(s, p))
  {
    hide Tick, Presents, CarriesMotion;
    PresentedRecord(s, nowUs, id, p, x);
    OneClockForAll(s, nowUs, id, p, x);
    var k :| 0 <= k < |s.samples[p]| && s.samples[p][k].sample == x;
    assert s.samples[p][k] in GetOr(s.samples, p, []);
  }

  lemma WarmTick(s: State, nowUs: nat, id: string, p: string)
    requires Eligible(s) != [] && !Releases(s, nowUs) && id in s.screens && s.screens[id].page.Some?
    requires Source(s, id) == Some(p)
    ensures id in Tick(s, nowUs).screens
    ensures var page := Tick(s, nowUs).screens[id].page;
            page == s.screens[id].page
            || exists b :: b in GetOr(s.samples, p, []) && page.Some?
                 && CarriesMotion(page.value, b.sample, AnchorOffset(s, p))
  {
    var delay := CommonDelay(Eligible(s));
    var slowest :| slowest in Eligible(s) && DelayUs(slowest) == delay;
    assert forall slot :: slot in Eligible(s) ==> DelayUs(slot) <= delay;
    hide Tick, Eligible, Releases, Source, CommonDelay;
    var target := Target(nowUs, slowest);
    var buffer := GetOr(s.samples, p, []);
    LastReceivedIsNewest(buffer, target);
    var r := LastReceived(buffer, target);
    if r.Some? {
      WarmedRecord(s, nowUs, id, p, slowest, r.value);
      var k :| 0 <= k < |buffer| && buffer[k].sample == r.value;
      assert buffer[k] in buffer;
    } else {
      NothingToWarm(s, nowUs, id, p, slowest);
    }
  }

  /** At operation `k` a tick wrote this record from a sample `p` had sent since it was last forgotten, with the
      offset of the last anchor it had sent by then. */
  predicate WrittenAt(ops: seq<Op>, k: nat, page: InputPage, p: string, b: Buffered) {
    && k < |ops| && ops[k].OpTick? && b in SentBy(ops[..k], p).samples
    && CarriesMotion(page, b.sample,
           var anchor := SentBy(ops[..k], p).anchor; if anchor.Some? then anchor.value.inputOffsetMs else 0.0)
  }

  /** The screen's record, if it has one, was written like that. */
  ghost predicate RecordWasSent(s: State, ops: seq<Op>, id: string) {
    id in s.screens && s.screens[id].page.Some? && s.screens[id].page.value.Input? ==>
      exists k, p, b :: WrittenAt(ops, k, s.screens[id].page.value, p, b)
  }

  /** The page is the same, zero or gone. */
  predicate NoNewRecord(s: State, t: State, id: string) {
    id in t.screens && t.screens[id].page.Some? && t.screens[id].page.value.Input? ==>
      id in s.screens && t.screens[id].page == s.screens[id].page
  }

  lemma ResetsWriteNothing(sc: Screen, io: Io, ok: bool, changed: bool, frameMissing: bool)
    ensures ResetPages(sc, io).page == sc.page || ResetPages(sc, io).page == Some(ZeroInput)
    ensures ResetInput(sc, ok).page == sc.page || ResetInput(sc, ok).page == Some(ZeroInput)
    ensures var sc' := ConfiguredScreen(sc, changed, frameMissing, io);
            sc'.page == sc.page || sc'.page == Some(ZeroInput)
  {
  }

  lemma LaunchesWriteNothing(s: State, op: Op, id: string)
    requires op.OpConfigure? || op.OpLaunch? || op.OpLaunchAutoplay?
    ensures NoNewRecord(s, Step(s, op), id)
  {
    hide IndexOf, Candidate, RenderChanged, ValidRequest, ConfiguredScreen, ConfiguredSlots, ResetPages, ResetInput,
        FindFeatured, ActiveSlots;
    match op
    case OpConfigure(key, r, frameMissing, io) =>
      var index := IndexOf(s.slots, key);
      if key in s.screens && index.Some? {
        var slot := s.slots[index.value];
        ResetsWriteNothing(s.screens[key], io, true, RenderChanged(slot, Candidate(slot, r)), frameMissing);
      }
    case OpLaunch(key, io) =>
      if key in s.screens { ResetsWriteNothing(s.screens[key], io, true, true, true); }
    case OpLaunchAutoplay(inputOk, _) =>
      if AUTOPLAY_SLOT in s.screens { ResetsWriteNothing(s.screens[AUTOPLAY_SLOT], IoOk, inputOk, true, true); }
  }

  /** Only a tick puts a record on a screen. */
  lemma OthersWriteNothing(s: State, op: Op, id: string)
    requires !op.OpTick?
    ensures NoNewRecord(s, Step(s, op), id)
  {
    if op.OpConfigure? || op.OpLaunch? || op.OpLaunchAutoplay? {
      hide *;
      LaunchesWriteNothing(s, op, id);
    } else if op.OpStopParticipant? {
      StopSlotsKeepPages(s, IdsShowing(s.slots, op.p), id);
    } else {
      hide IndexOf, HasTap, Newest, Configure, Launch, LaunchAutoplay, Tick;
    }
  }

  lemma {:induction false} StopSlotsKeepPages(s: State, ids: seq<string>, id: string)
    ensures id in StopSlots(s, ids).screens <==> id in s.screens
    ensures id in s.screens ==> StopSlots(s, ids).screens[id].page == s.screens[id].page
    decreases |ids|
  {
    hide IndexOf;
    if ids != [] { StopSlotsKeepPages(StopSlot(s, ids[0]), ids[1..], id); }
  }

  lemma WrittenStays(ops: seq<Op>, op: Op, k: nat, page: InputPage, p: string, b: Buffered)
    requires WrittenAt(ops, k, page, p, b)
    ensures WrittenAt(ops + [op], k, page, p, b)
  {
    hide SentBy, CarriesMotion;
    assert (ops + [op])[..k] == ops[..k];
  }

  lemma StepRecord(ops: seq<Op>, op: Op, id: string)
    requires RecordWasSent(Run(InitState(), ops), ops, id)
    ensures RecordWasSent(Step(Run(InitState(), ops), op), ops + [op], id)
  {
    var s := Run(InitState(), ops);
    var t := Step(s, op);
    hide Step, Run, WrittenAt, InitState;
    if id in t.screens && t.screens[id].page.Some? && t.screens[id].page.value.Input? {
      var page := t.screens[id].page.value;
      if id in s.screens && t.screens[id].page == s.screens[id].page {
        var k, p, b :| WrittenAt(ops, k, page, p, b);
        WrittenStays(ops, op, k, page, p, b);
      } else if op.OpTick? {
        TickWrites(ops, op, id);
      } else {
        OthersWriteNothing(s, op, id);
      }
    }
  }

  lemma TickWrites(ops: seq<Op>, op: Op, id: string)
    requires op.OpTick? && id in Step(Run(InitState(), ops), op).screens
    requires var s := Run(InitState(), ops);
             Step(s, op).screens[id].page.Some?
             && !(id in s.screens && Step(s, op).screens[id].page == s.screens[id].page)
    ensures exists k, p, b :: WrittenAt(ops + [op], k, Step(Run(InitState(), ops), op).screens[id].page.value, p, b)
  {
    hide Tick, Run, CarriesMotion, SentBy, InitState, Newest, HoldsTaps, HoldsScores;
    var s := Run(InitState(), ops);
    var page := Tick(s, op.nowUs).screens[id].page.value;
    TickRecord(s, op.nowUs, id);
    var p, b :| b in GetOr(s.samples, p, []) && CarriesMotion(page, b.sample, AnchorOffset(s, p));
    BuffersHoldTheNewest(ops, p);
    assert (ops + [op])[..|ops|] == ops;
    assert WrittenAt(ops + [op], |ops|, page, p, b);
  }

  /** In every run, each record that stands on a screen was written by one of the run's ticks, with the motion of a
      sample its participant had sent and the offset of the last anchor it had sent by then. */
  lemma {:induction false} RecordsWereSent(ops: seq<Op>, id: string)
    ensures RecordWasSent(Run(InitState(), ops), ops, id)
    decreases |ops|
  {
    hide Step, RecordWasSent;
    if ops == [] {
      NoRecordYet(id);
    } else {
      var n := |ops| - 1;
      RecordsWereSent(ops[..n], id);
      StepRecord(ops[..n], ops[n], id);
      RunLast(InitState(), ops);
      assert ops[..n] + [ops[n]] == ops;
    }
  }

  lemma NoRecordYet(id: string)
    ensures RecordWasSent(InitState(), [], id)
  {
  }
}
