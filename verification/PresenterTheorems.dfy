/** What the presenter promises over whole runs. */
module PresenterTheorems {
  import opened Wrappers
  import opened Presenter
  import opened PresenterInvariant

  // ---- The capture gate ----

  predicate Captures(page: Option<InputPage>) {
    page.Some? && page.value.Input? && page.value.flags.capture
  }

  /** The whole cohort has a resolved first note, and each receipt plus each written slot's delay has passed. */
  ghost predicate GateOpen(s: State, nowUs: nat) {
    var t := Tick(s, nowUs);
    forall slot, p :: slot in Eligible(s) && p in Cohort(Eligible(s)) ==>
      Resolved(t.anchors, p) && Receipt(t.anchors, p) + DelayUs(slot) <= nowUs
  }

  lemma ReleaseOpensGate(s: State, nowUs: nat)
    requires Inv(s) && Releases(s, nowUs)
    ensures GateOpen(s, nowUs)
  {
    AlignedKeepsInv(s, nowUs);
    EligibleAreSlots(s);
    var t := Aligned(s, nowUs);
    forall slot, p | slot in Eligible(s) && p in Cohort(Eligible(s))
      ensures Resolved(t.anchors, p) && Receipt(t.anchors, p) + DelayUs(slot) <= nowUs
    {
      var i: nat :| StandsFor(s, slot, i);
      assert Covers(t.epoch.value, t.anchors, t.slots[i]);
    }
  }

  /** In every run, a tick that publishes a capture record on any screen does so only
      when the gate is open for every slot it writes, AUTOPLAY included. */
  lemma CaptureOnlyAfterCohort(ops: seq<Op>, nowUs: nat, id: string)
    requires id in Run(InitState(), ops).screens && id in Tick(Run(InitState(), ops), nowUs).screens
    requires Tick(Run(InitState(), ops), nowUs).screens[id] != Run(InitState(), ops).screens[id]
    requires Captures(Tick(Run(InitState(), ops), nowUs).screens[id].page)
    ensures GateOpen(Run(InitState(), ops), nowUs)
    ensures FindSlot(Eligible(Run(InitState(), ops)), id).Some?
  {
    hide GateOpen, Inv, Eligible, Cohort, CommonDelay, NextEpoch, ResolveAnchors, LastReceived, Present;
    var s := Run(InitState(), ops);
    InitHasInv();
    RunKeepsInv(InitState(), ops);
    if Releases(s, nowUs) {
      ReleaseOpensGate(s, nowUs);
    }
  }

  lemma {:induction false} RunAppend(s: State, ops: seq<Op>, op: Op)
    ensures Run(s, ops + [op]) == Step(Run(s, ops), op)
    decreases |ops|
  {
    if ops == [] {
      assert [op][1..] == [];
    } else {
      assert (ops + [op])[1..] == ops[1..] + [op];
      RunAppend(Step(s, ops[0]), ops[1..], op);
    }
  }

  lemma RunLast(s: State, ops: seq<Op>)
    requires ops != []
    ensures Run(s, ops) == Step(Run(s, ops[..|ops| - 1]), ops[|ops| - 1])
  {
    hide Run, Step;
    RunAppend(s, ops[..|ops| - 1], ops[|ops| - 1]);
    assert ops == ops[..|ops| - 1] + [ops[|ops| - 1]];
  }

  /** A playing sample at or past the anchor's note, pushed in this run, whose times are the origin. */
  predicate Witness(ops: seq<Op>, p: string, a: Anchor, b: Buffered)
    requires a.origin.Some?
  {
    && OpSample(p, b) in ops && ReachesNote(b, a.firstNoteBeat)
    && a.origin.value == Origin(b.sample.runTimeUs, b.receivedAtUs)
  }

  ghost predicate Sourced(s: State, ops: seq<Op>) {
    && (forall p, b :: p in s.samples && b in s.samples[p] ==> OpSample(p, b) in ops)
    && (forall p :: Resolved(s.anchors, p) ==> exists b :: Witness(ops, p, s.anchors[p], b))
  }

  lemma {:induction false} StopSlotsKeepData(s: State, ids: seq<string>)
    ensures StopSlots(s, ids).samples == s.samples && StopSlots(s, ids).anchors == s.anchors
    decreases |ids|
  {
    if ids != [] { StopSlotsKeepData(StopSlot(s, ids[0]), ids[1..]); }
  }

  lemma ConfigureKeepsData(s: State, id: string, r: Request, frameMissing: bool, io: Io)
    ensures var t := Configure(s, id, r, frameMissing, io);
            && t.samples == s.samples && t.anchors == s.anchors && t.awaiting == s.awaiting
            && (t.epoch == s.epoch || t.epoch == None)
  {
    hide IndexOf, Candidate, RenderChanged, ValidRequest, ConfiguredSlots, ConfiguredScreen;
  }

  lemma QuietOpsKeepData(s: State, op: Op)
    requires op.OpTap? || op.OpScore? || op.OpConfigure? || op.OpLaunch? || op.OpLaunchAutoplay? || op.OpStopAutoplay?
      || op.OpStopSlot?
    ensures Step(s, op).samples == s.samples && Step(s, op).anchors == s.anchors
  {
    hide Configure, ResetInput, ResetPages, FindFeatured, ActiveSlots, IndexOf, Newest, HasTap, DropCursors;
    match op
    case OpConfigure(id, r, frameMissing, io) => ConfigureKeepsData(s, id, r, frameMissing, io);
    case OpTap(_, _) =>
    case OpScore(_, _) =>
    case OpLaunch(_, _) =>
    case OpLaunchAutoplay(_, _) =>
    case OpStopAutoplay =>
    case OpStopSlot(_) =>
  }

  /** Any operation but a sample, a stopped participant or a tick either leaves buffers
      and anchors alone or forgets or unresolves them, and then no epoch is left. */
  lemma OthersKeepData(s: State, op: Op)
    requires !op.OpSample? && !op.OpStopParticipant? && !op.OpTick?
    ensures var t := Step(s, op);
            || (t.samples == s.samples && t.anchors == s.anchors)
            || (t.epoch == None && t.samples == map[] && t.anchors == map[])
            || (op.OpAnchor? && t.epoch == None && t.samples == s.samples
                && t.anchors == s.anchors[op.p := Anchor(op.firstNoteBeat, op.inputOffsetMs, None)])
  {
    hide FreshScreen;
    if !op.OpAnchor? && !op.OpBeginRun? && !op.OpStopAll? {
      hide Step;
      QuietOpsKeepData(s, op);
    }
  }

  lemma TickKeepsSamples(s: State, nowUs: nat)
    ensures Tick(s, nowUs).samples == s.samples
    ensures Tick(s, nowUs).anchors == if Eligible(s) == [] then s.anchors else ResolveAnchors(s, Cohort(Eligible(s)))
  {
    hide Eligible, Cohort, CommonDelay, NextEpoch, ResolveAnchors, Paint;
    var t := Tick(s, nowUs);
    if Eligible(s) != [] {
      var u := Aligned(s, nowUs);
      assert t == u.(screens := t.screens, epoch := t.epoch);
    }
  }

  lemma PushSampleContents(s: State, p: string, b: Buffered)
    ensures var t := PushSample(s, p, b);
            && t.anchors == s.anchors && (p in t.samples || p !in s.samples)
            && (t.samples == s.samples
                || (t.samples == s.samples[p := t.samples[p]]
                    && forall x :: x in t.samples[p] ==> x == b || (p in s.samples && x in s.samples[p])))
  {
    hide Newest;
    NewestMembers(GetOr(s.samples, p, []), b, MAX_RENDER_SAMPLES);
  }

  lemma StepKeepsBuffers(s: State, op: Op, p: string, b: Buffered)
    requires p in Step(s, op).samples && b in Step(s, op).samples[p]
    ensures op == OpSample(p, b) || (p in s.samples && b in s.samples[p])
  {
    hide Tick, PushSample, StopSlots, IdsShowing, FirstNote, Cohort, Eligible;
    if op.OpStopParticipant? {
      StopSlotsKeepData(s, IdsShowing(s.slots, op.p));
    } else if op.OpSample? {
      PushSampleContents(s, op.p, op.b);
    } else if op.OpTick? {
      TickKeepsSamples(s, op.nowUs);
    } else {
      hide Step;
      OthersKeepData(s, op);
    }
  }

  lemma StepKeepsSourced(s: State, ops: seq<Op>, op: Op)
    requires Inv(s) && Sourced(s, ops)
    ensures Sourced(Step(s, op), ops + [op])
  {
    var t := Step(s, op);
    var history := ops + [op];
    forall p, b | p in t.samples && b in t.samples[p] ensures OpSample(p, b) in history {
      StepKeepsBuffers(s, op, p, b);
    }
    forall p | Resolved(t.anchors, p) ensures exists b :: Witness(history, p, t.anchors[p], b) {
      if Resolved(s.anchors, p) && t.anchors[p] == s.anchors[p] {
        var b :| Witness(ops, p, s.anchors[p], b);
        assert Witness(history, p, t.anchors[p], b);
      } else {
        NewOriginIsBuffered(s, op, p);
        var b :| b in GetOr(s.samples, p, []) && ReachesNote(b, t.anchors[p].firstNoteBeat)
                 && t.anchors[p].origin.value == Origin(b.sample.runTimeUs, b.receivedAtUs);
        assert Witness(history, p, t.anchors[p], b);
      }
    }
  }

  /** Only a tick resolves an anchor, and only from a buffered sample that reaches its note. */
  lemma NewOriginIsBuffered(s: State, op: Op, p: string)
    requires Resolved(Step(s, op).anchors, p)
    requires !(Resolved(s.anchors, p) && Step(s, op).anchors[p] == s.anchors[p])
    ensures exists b :: b in GetOr(s.samples, p, []) && ReachesNote(b, Step(s, op).anchors[p].firstNoteBeat)
              && Step(s, op).anchors[p].origin.value == Origin(b.sample.runTimeUs, b.receivedAtUs)
  {
    hide Tick, PushSample, StopSlots, IdsShowing, FirstNote, Cohort, Eligible;
    if op.OpStopParticipant? {
      StopSlotsKeepData(s, IdsShowing(s.slots, op.p));
    } else if op.OpSample? {
      PushSampleContents(s, op.p, op.b);
    } else if op.OpTick? {
      TickKeepsSamples(s, op.nowUs);
    } else {
      hide Step;
      OthersKeepData(s, op);
    }
  }

  /** In every run, a resolved first note was a playing sample the participant really sent. */
  lemma {:induction false} OriginWasSent(ops: seq<Op>)
    ensures Sourced(Run(InitState(), ops), ops)
    decreases |ops|
  {
    if ops != [] {
      var n := |ops| - 1;
      OriginWasSent(ops[..n]);
      InitHasInv();
      RunKeepsInv(InitState(), ops[..n]);
      StepKeepsSourced(Run(InitState(), ops[..n]), ops[..n], ops[n]);
      RunAppend(InitState(), ops[..n], ops[n]);
      assert ops == ops[..n] + [ops[n]];
    }
  }

  // ---- Presentation never goes backward within an epoch ----

  predicate InEpoch(s: State, cohort: set<string>, releaseAtUs: nat) {
    s.epoch.Some? && s.epoch.value.participants == cohort && s.epoch.value.releaseAtUs == releaseAtUs
  }

  /** The same epoch is in force before and after every operation. */
  ghost predicate Held(s: State, ops: seq<Op>, cohort: set<string>, releaseAtUs: nat)
    decreases |ops|
  {
    InEpoch(s, cohort, releaseAtUs) && (ops != [] ==> Held(Step(s, ops[0]), ops[1..], cohort, releaseAtUs))
  }

  /** Everything still playable at or after `target` is at least as new as sequence `q`. */
  predicate Floor(buffer: seq<Buffered>, q: nat, target: nat) {
    && buffer != []
    && ((exists i :: 0 <= i < |buffer| && buffer[i].sample.sequence == q && buffer[i].sample.runTimeUs <= target)
        || (forall i :: 0 <= i < |buffer| ==> buffer[i].sample.sequence > q))
  }

  lemma FloorSurvivesPush(buffer: seq<Buffered>, b: Buffered, q: nat, target: nat)
    requires SortedSamples(buffer) && Floor(buffer, q, target)
    requires b.sample.sequence > buffer[|buffer| - 1].sample.sequence
    ensures Floor(Newest(buffer + [b], MAX_RENDER_SAMPLES), q, target)
  {
    var all := buffer + [b];
    var cut := |all| - |Newest(all, MAX_RENDER_SAMPLES)|;
    assert cut <= 1 || cut < |buffer|;
    if i :| 0 <= i < |buffer| && buffer[i].sample.sequence == q && buffer[i].sample.runTimeUs <= target {
      SuffixFloor(all, cut, i, q, target);
    } else {
      assert forall k :: 0 <= k < |all| ==> all[k].sample.sequence > q;
    }
  }

  lemma SuffixFloor(all: seq<Buffered>, cut: nat, i: nat, q: nat, target: nat)
    requires SortedSamples(all) && cut < |all| && i < |all|
    requires all[i].sample.sequence == q && all[i].sample.runTimeUs <= target
    ensures Floor(all[cut..], q, target)
  {
    if i >= cut {
      assert all[cut..][i - cut] == all[i];
    }
  }

  lemma PlayheadAboveFloor(buffer: seq<Buffered>, q: nat, target: nat, later: nat)
    requires SortedSamples(buffer) && Floor(buffer, q, target) && target <= later
    requires LastReached(buffer, later).Some?
    ensures q <= buffer[LastReached(buffer, later).value].sample.sequence
  {
    var k := LastReached(buffer, later).value;
    if i :| 0 <= i < |buffer| && buffer[i].sample.sequence == q && buffer[i].sample.runTimeUs <= target {
      assert i <= k;
    }
  }

  /** Stopping a participant of the current cohort ends the epoch; any other leaves its data alone. */
  lemma StopParticipantInEpoch(s: State, r: string, cohort: set<string>, releaseAtUs: nat, p: string)
    requires Inv(s) && InEpoch(s, cohort, releaseAtUs) && p in cohort && p in s.samples && p in s.anchors
    requires StopParticipant(s, r).epoch.Some?
    ensures var t := StopParticipant(s, r);
            p in t.samples && t.samples[p] == s.samples[p] && p in t.anchors && t.anchors[p] == s.anchors[p]
  {
    StopParticipantKeepsInv(s, r);
    StopSlotsKeepData(s, IdsShowing(s.slots, r));
    assert Shows(s.slots, p);
  }

  lemma TickKeepsOrigin(s: State, nowUs: nat, p: string)
    requires Resolved(s.anchors, p)
    ensures Tick(s, nowUs).samples == s.samples && Resolved(Tick(s, nowUs).anchors, p)
      && Tick(s, nowUs).anchors[p] == s.anchors[p]
  {
    hide Present, Paint, Eligible, Cohort, CommonDelay, NextEpoch;
    if Eligible(s) != [] { ResolvedStays(s, Cohort(Eligible(s)), p); }
  }

  lemma EpochMemberResolved(s: State, cohort: set<string>, releaseAtUs: nat, p: string)
    requires Inv(s) && InEpoch(s, cohort, releaseAtUs) && p in cohort
    ensures Resolved(s.anchors, p)
  {
  }

  /** While an epoch holds, a cohort member's anchor is fixed and its buffer only receives newer samples. */
  lemma EpochKeepsFloor(s: State, op: Op, cohort: set<string>, releaseAtUs: nat, p: string, q: nat, target: nat)
    requires Inv(s) && InEpoch(s, cohort, releaseAtUs) && Step(s, op).epoch.Some?
    requires p in cohort && p in s.samples && Floor(s.samples[p], q, target)
    ensures Resolved(s.anchors, p) && p in Step(s, op).anchors && Step(s, op).anchors[p] == s.anchors[p]
    ensures p in Step(s, op).samples && Floor(Step(s, op).samples[p], q, target)
  {
    hide Inv, Tick, PushSample, StopParticipant, SortedSamples;
    EpochMemberResolved(s, cohort, releaseAtUs, p);
    InvSorted(s, p);
    if op.OpSample? {
      SampleKeepsFloor(s, op.p, op.b, p, q, target);
    } else if op.OpStopParticipant? {
      StopParticipantInEpoch(s, op.p, cohort, releaseAtUs, p);
    } else if op.OpTick? {
      TickKeepsOrigin(s, op.nowUs, p);
    } else {
      hide Step;
      OthersKeepData(s, op);
    }
  }

  lemma SampleKeepsFloor(s: State, r: string, b: Buffered, p: string, q: nat, target: nat)
    requires p in s.samples && SortedSamples(s.samples[p]) && s.samples[p] != [] && Floor(s.samples[p], q, target)
    ensures var t := PushSample(s, r, b); t.anchors == s.anchors && p in t.samples && Floor(t.samples[p], q, target)
  {
    hide Newest, SortedSamples, Floor;
    var buffer := s.samples[p];
    if r == p && (buffer == [] || buffer[|buffer| - 1].sample.sequence < b.sample.sequence) {
      FloorSurvivesPush(buffer, b, q, target);
    }
  }

  lemma {:induction false} HeldKeepsFloor(s: State, ops: seq<Op>, cohort: set<string>, releaseAtUs: nat, p: string,
                                          q: nat, target: nat)
    requires Inv(s) && Held(s, ops, cohort, releaseAtUs) && Resolved(s.anchors, p)
    requires p in cohort && p in s.samples && Floor(s.samples[p], q, target)
    ensures var t := Run(s, ops);
            && Inv(t) && InEpoch(t, cohort, releaseAtUs) && p in t.anchors && t.anchors[p] == s.anchors[p]
            && p in t.samples && Floor(t.samples[p], q, target)
    decreases |ops|
  {
    if ops != [] {
      EpochKeepsFloor(s, ops[0], cohort, releaseAtUs, p, q, target);
      StepKeepsInv(s, ops[0]);
      HeldKeepsFloor(Step(s, ops[0]), ops[1..], cohort, releaseAtUs, p, q, target);
    }
  }

  /** The sample of participant `p` that a releasing tick shows on every screen following `p`. */
  ghost function Shown(s: State, nowUs: nat, p: string): Option<Sample>
    requires Releases(s, nowUs)
  {
    Playhead(Aligned(s, nowUs), p, nowUs - Aligned(s, nowUs).epoch.value.releaseAtUs)
  }

  lemma ShownIsFloor(s: State, nowUs: nat, p: string)
    requires Inv(s) && Releases(s, nowUs) && Shown(s, nowUs, p).Some?
    ensures var t := Tick(s, nowUs);
            && Inv(t) && p in t.samples && Resolved(t.anchors, p) && t.epoch.Some? && t.epoch.value.releaseAtUs <= nowUs
            && Floor(t.samples[p], Shown(s, nowUs, p).value.sequence,
                     t.anchors[p].origin.value.sourceUs + (nowUs - t.epoch.value.releaseAtUs))
  {
    TickKeepsInv(s, nowUs);
  }

  lemma ShownAboveFloor(s: State, nowUs: nat, p: string, q: nat, target: nat)
    requires Releases(s, nowUs) && Shown(s, nowUs, p).Some?
    requires Resolved(s.anchors, p) && p in s.samples && SortedSamples(s.samples[p]) && Floor(s.samples[p], q, target)
    requires target <= s.anchors[p].origin.value.sourceUs + (nowUs - Aligned(s, nowUs).epoch.value.releaseAtUs)
    ensures q <= Shown(s, nowUs, p).value.sequence
  {
    hide SortedSamples, Floor, Eligible, Cohort, CommonDelay, NextEpoch, ResolveAnchors;
    var t := Aligned(s, nowUs);
    var elapsed := nowUs - t.epoch.value.releaseAtUs;
    ResolvedStays(s, Cohort(Eligible(s)), p);
    assert t.samples == s.samples && t.anchors[p] == s.anchors[p];
    assert Shown(s, nowUs, p) == Playhead(t, p, elapsed);
    PlayheadAboveFloor(s.samples[p], q, target, s.anchors[p].origin.value.sourceUs + elapsed);
  }

  /** Within one epoch the sequence presented for a participant never goes backward, on
      any screen, whatever is pushed or evicted in between and however source times are ordered. */
  lemma PresentationNeverGoesBack(s: State, now1: nat, ops: seq<Op>, now2: nat, cohort: set<string>, releaseAtUs: nat,
                                  p: string)
    requires Inv(s) && now1 <= now2 && p in cohort
    requires Releases(s, now1) && Shown(s, now1, p).Some?
    requires Held(Tick(s, now1), ops, cohort, releaseAtUs)
    requires Releases(Run(Tick(s, now1), ops), now2) && Shown(Run(Tick(s, now1), ops), now2, p).Some?
    requires InEpoch(Tick(Run(Tick(s, now1), ops), now2), cohort, releaseAtUs)
    ensures Shown(s, now1, p).value.sequence <= Shown(Run(Tick(s, now1), ops), now2, p).value.sequence
  {
    var a := Tick(s, now1);
    var q := Shown(s, now1, p).value.sequence;
    ShownIsFloor(s, now1, p);
    assert InEpoch(a, cohort, releaseAtUs);
    var target := a.anchors[p].origin.value.sourceUs + (now1 - releaseAtUs);
    HeldKeepsFloor(a, ops, cohort, releaseAtUs, p, q, target);
    ShownAboveFloor(Run(a, ops), now2, p, q, target);
  }
}
