/** What is buffered after any run: exactly the newest of what each participant sent since it was last forgotten. */
module PresenterArrivals {
  import opened Wrappers
  import opened Presenter
  import PresenterTheorems

  // ---- What was sent ----

  /** What counts of all that one participant sent since it was last forgotten; nothing is ever evicted here. */
  datatype Sent = Sent(samples: seq<Buffered>, taps: seq<Tap>, scores: seq<Score>, anchor: Option<Anchor>)

  /** Samples and scores count when their sequence is above the last one that counted, taps when they have an
      edge and none of the last 4,096 has their sequence. A new run, a full stop or a stop of the participant
      forgets everything. */
  function Noted(h: Sent, op: Op, p: string): Sent {
    match op
    case OpSample(q, b) =>
      if q == p && (h.samples == [] || h.samples[|h.samples| - 1].sample.sequence < b.sample.sequence)
      then h.(samples := h.samples + [b])
      else h
    case OpTap(q, tap) =>
      if q == p && (tap.pressed || tap.released)
         && forall i :: |h.taps| - 4_096 <= i < |h.taps| && 0 <= i ==> h.taps[i].sequence != tap.sequence
      then h.(taps := h.taps + [tap])
      else h
    case OpScore(q, score) =>
      if q == p && 0.0 <= score.accuracy <= 100.0
         && (h.scores == [] || h.scores[|h.scores| - 1].sequence < score.sequence)
      then h.(scores := h.scores + [score])
      else h
    case OpAnchor(q, beat, offset) => if q == p then h.(anchor := Some(Anchor(beat, offset, None))) else h
    case OpStopParticipant(q) => if q == p then Sent([], [], [], None) else h
    case OpBeginRun => Sent([], [], [], None)
    case OpStopAll => Sent([], [], [], None)
    case _ => h
  }

  function SentBy(ops: seq<Op>, p: string): Sent {
    if ops == [] then Sent([], [], [], None) else Noted(SentBy(ops[..|ops| - 1], p), ops[|ops| - 1], p)
  }

  // ---- Calls that leave the buffers alone ----

  /** The same buffers, and anchors that differ at most in whether they are resolved. */
  predicate SameData(s: State, t: State) {
    && t.samples == s.samples && t.taps == s.taps && t.scores == s.scores && t.anchors.Keys == s.anchors.Keys
    && forall p :: p in s.anchors ==> t.anchors[p] == s.anchors[p].(origin := t.anchors[p].origin)
  }

  lemma {:induction false} StopSlotsKeepBuffers(s: State, ids: seq<string>)
    ensures SameData(s, StopSlots(s, ids))
    decreases |ids|
  {
    hide IndexOf;
    if ids != [] { StopSlotsKeepBuffers(StopSlot(s, ids[0]), ids[1..]); }
  }

  lemma TickKeepsBuffers(s: State, nowUs: nat)
    ensures SameData(s, Tick(s, nowUs))
  {
    hide Eligible, Cohort, CommonDelay, NextEpoch, Paint, FirstNote;
    var t := Tick(s, nowUs);
    if Eligible(s) != [] {
      var u := Aligned(s, nowUs);
      assert t == u.(screens := t.screens, epoch := t.epoch);
    }
  }

  lemma ConfigureKeepsBuffers(s: State, id: string, r: Request, frameMissing: bool, io: Io)
    ensures SameData(s, Configure(s, id, r, frameMissing, io))
  {
    hide IndexOf, Candidate, RenderChanged, ValidRequest, ConfiguredSlots, ConfiguredScreen;
  }

  /** A call that brings nothing and forgets nothing. */
  predicate Quiet(op: Op) {
    op.OpConfigure? || op.OpLaunch? || op.OpLaunchAutoplay? || op.OpStopAutoplay? || op.OpStopSlot? || op.OpTick?
  }

  lemma QuietKeepsBuffers(s: State, op: Op)
    requires Quiet(op)
    ensures SameData(s, Step(s, op))
  {
    hide Configure, Tick, ResetInput, ResetPages, FindFeatured, ActiveSlots, IndexOf, DropCursors, SameData;
    match op
    case OpConfigure(id, r, frameMissing, io) => ConfigureKeepsBuffers(s, id, r, frameMissing, io);
    case OpTick(nowUs) => TickKeepsBuffers(s, nowUs);
    case OpLaunch(id, io) => assert SameData(s, Launch(s, id, io)) by { SameFields(s, Launch(s, id, io)); }
    case OpLaunchAutoplay(a, b) => SameFields(s, LaunchAutoplay(s, a, b));
    case OpStopAutoplay => SameFields(s, StopAutoplay(s));
    case OpStopSlot(id) => SameFields(s, StopSlot(s, id));
  }

  lemma SameFields(s: State, t: State)
    requires t.samples == s.samples && t.taps == s.taps && t.scores == s.scores && t.anchors == s.anchors
    ensures SameData(s, t)
  {
  }

  // ---- What is buffered ----

  predicate HoldsSamples(samples: map<string, seq<Buffered>>, sent: seq<Buffered>, p: string) {
    GetOr(samples, p, []) == Newest(sent, 36_000)
  }

  predicate HoldsTaps(taps: map<string, seq<Tap>>, sent: seq<Tap>, p: string) {
    GetOr(taps, p, []) == Newest(sent, 4_096)
  }

  predicate HoldsScores(scores: map<string, seq<Score>>, sent: seq<Score>, p: string) {
    GetOr(scores, p, []) == Newest(sent, 4_096)
  }

  predicate HoldsAnchor(anchors: map<string, Anchor>, sent: Option<Anchor>, p: string) {
    && (p in anchors <==> sent.Some?)
    && (p in anchors ==> anchors[p].(origin := None) == sent.value)
  }

  /** The buffers of `p` hold the newest of what it sent, and its anchor is the last one. */
  predicate HoldsNewest(s: State, h: Sent, p: string) {
    && HoldsSamples(s.samples, h.samples, p) && HoldsTaps(s.taps, h.taps, p) && HoldsScores(s.scores, h.scores, p)
    && HoldsAnchor(s.anchors, h.anchor, p)
  }

  /** Pushing to the newest of a list gives the newest of the longer list. */
  lemma JoinNewest<T>(buffer: seq<T>, sent: seq<T>, x: T, cap: nat)
    requires cap > 0 && buffer == Newest(sent, cap)
    ensures buffer == [] <==> sent == []
    ensures buffer != [] ==> buffer[|buffer| - 1] == sent[|sent| - 1]
    ensures Newest(buffer + [x], cap) == Newest(sent + [x], cap)
  {
  }

  /** What a push makes of one participant's buffer. */
  lemma PushedSample(s: State, q: string, b: Buffered, p: string)
    ensures var buffer := GetOr(s.samples, p, []);
            GetOr(PushSample(s, q, b).samples, p, []) ==
            if q == p && (buffer == [] || buffer[|buffer| - 1].sample.sequence < b.sample.sequence)
            then Newest(buffer + [b], 36_000) else buffer
  {
    hide Newest;
  }

  lemma NotedSample(h: Sent, q: string, b: Buffered, p: string)
    ensures Noted(h, OpSample(q, b), p).samples ==
            if q == p && (h.samples == [] || h.samples[|h.samples| - 1].sample.sequence < b.sample.sequence)
            then h.samples + [b] else h.samples
  {
  }

  lemma SampleJoins(s: State, h: Sent, q: string, b: Buffered, p: string)
    requires HoldsSamples(s.samples, h.samples, p)
    ensures HoldsSamples(PushSample(s, q, b).samples, Noted(h, OpSample(q, b), p).samples, p)
  {
    hide Newest, Noted, PushSample;
    PushedSample(s, q, b, p);
    NotedSample(h, q, b, p);
    JoinNewest(GetOr(s.samples, p, []), h.samples, b, 36_000);
  }

  lemma SampleHolds(s: State, h: Sent, q: string, b: Buffered, p: string)
    requires HoldsNewest(s, h, p)
    ensures HoldsNewest(PushSample(s, q, b), Noted(h, OpSample(q, b), p), p)
  {
    hide Newest, HoldsSamples, HoldsTaps, HoldsScores, HoldsAnchor;
    SampleJoins(s, h, q, b, p);
  }

  lemma RecentHasTap(sent: seq<Tap>, sequence: nat)
    ensures HasTap(Newest(sent, 4_096), sequence) <==>
            exists i :: |sent| - 4_096 <= i < |sent| && 0 <= i && sent[i].sequence == sequence
  {
    var kept := Newest(sent, 4_096);
    var cut := |sent| - |kept|;
    assert forall i :: 0 <= i < |kept| ==> kept[i] == sent[cut + i];
    if i :| |sent| - 4_096 <= i < |sent| && 0 <= i && sent[i].sequence == sequence {
      assert kept[i - cut].sequence == sequence;
    }
  }

  lemma PushedTap(s: State, q: string, tap: Tap, p: string)
    ensures var buffer := GetOr(s.taps, p, []);
            GetOr(PushTap(s, q, tap).taps, p, []) ==
            if q == p && (tap.pressed || tap.released) && !HasTap(buffer, tap.sequence)
            then Newest(buffer + [tap], 4_096) else buffer
  {
    hide Newest, HasTap;
  }

  lemma NotedTap(h: Sent, q: string, tap: Tap, p: string)
    ensures Noted(h, OpTap(q, tap), p).taps ==
            if q == p && (tap.pressed || tap.released) && !HasTap(Newest(h.taps, 4_096), tap.sequence)
            then h.taps + [tap] else h.taps
  {
    hide Newest, HasTap;
    RecentHasTap(h.taps, tap.sequence);
  }

  lemma TapJoins(s: State, h: Sent, q: string, tap: Tap, p: string)
    requires HoldsTaps(s.taps, h.taps, p)
    ensures HoldsTaps(PushTap(s, q, tap).taps, Noted(h, OpTap(q, tap), p).taps, p)
  {
    hide Newest, HasTap, Noted, PushTap;
    PushedTap(s, q, tap, p);
    NotedTap(h, q, tap, p);
    JoinNewest(GetOr(s.taps, p, []), h.taps, tap, 4_096);
  }

  lemma TapHolds(s: State, h: Sent, q: string, tap: Tap, p: string)
    requires HoldsNewest(s, h, p)
    ensures HoldsNewest(PushTap(s, q, tap), Noted(h, OpTap(q, tap), p), p)
  {
    hide Newest, HasTap, HoldsSamples, HoldsTaps, HoldsScores, HoldsAnchor;
    TapJoins(s, h, q, tap, p);
  }

  lemma PushedScore(s: State, q: string, score: Score, p: string)
    ensures var buffer := GetOr(s.scores, p, []);
            GetOr(PushScore(s, q, score).scores, p, []) ==
            if q == p && 0.0 <= score.accuracy <= 100.0
               && (buffer == [] || buffer[|buffer| - 1].sequence < score.sequence)
            then Newest(buffer + [score], 4_096) else buffer
  {
    hide Newest;
  }

  lemma NotedScore(h: Sent, q: string, score: Score, p: string)
    ensures Noted(h, OpScore(q, score), p).scores ==
            if q == p && 0.0 <= score.accuracy <= 100.0
               && (h.scores == [] || h.scores[|h.scores| - 1].sequence < score.sequence)
            then h.scores + [score] else h.scores
  {
  }

  lemma ScoreJoins(s: State, h: Sent, q: string, score: Score, p: string)
    requires HoldsScores(s.scores, h.scores, p)
    ensures HoldsScores(PushScore(s, q, score).scores, Noted(h, OpScore(q, score), p).scores, p)
  {
    hide Newest, Noted, PushScore;
    PushedScore(s, q, score, p);
    NotedScore(h, q, score, p);
    JoinNewest(GetOr(s.scores, p, []), h.scores, score, 4_096);
  }

  lemma ScoreHolds(s: State, h: Sent, q: string, score: Score, p: string)
    requires HoldsNewest(s, h, p)
    ensures HoldsNewest(PushScore(s, q, score), Noted(h, OpScore(q, score), p), p)
  {
    hide Newest, HoldsSamples, HoldsTaps, HoldsScores, HoldsAnchor;
    ScoreJoins(s, h, q, score, p);
  }

  lemma QuietHolds(s: State, h: Sent, op: Op, p: string)
    requires HoldsNewest(s, h, p) && Quiet(op)
    ensures HoldsNewest(Step(s, op), Noted(h, op, p), p)
  {
    hide Step, HoldsSamples, HoldsTaps, HoldsScores;
    QuietKeepsBuffers(s, op);
  }

  lemma NothingHeld(s: State, p: string)
    requires p !in s.samples && p !in s.taps && p !in s.scores && p !in s.anchors
    ensures HoldsNewest(s, Sent([], [], [], None), p)
  {
  }

  lemma AnchorHolds(s: State, h: Sent, q: string, beat: real, offset: real, p: string)
    requires HoldsNewest(s, h, p)
    ensures HoldsNewest(PushAnchor(s, q, beat, offset), Noted(h, OpAnchor(q, beat, offset), p), p)
  {
    hide HoldsSamples, HoldsTaps, HoldsScores;
  }

  lemma ParticipantGone(s: State, p: string)
    ensures var t := StopParticipant(s, p); p !in t.samples && p !in t.taps && p !in t.scores && p !in t.anchors
  {
    hide StopSlots, IdsShowing;
  }

  lemma OthersStay(s: State, h: Sent, q: string, p: string)
    requires HoldsNewest(s, h, p) && q != p
    ensures HoldsNewest(StopParticipant(s, q), h, p)
  {
    hide StopSlots, IdsShowing, Newest;
    StopSlotsKeepBuffers(s, IdsShowing(s.slots, q));
  }

  lemma ForgettingHolds(s: State, h: Sent, op: Op, p: string)
    requires HoldsNewest(s, h, p) && (op.OpBeginRun? || op.OpStopParticipant? || op.OpStopAll?)
    ensures HoldsNewest(Step(s, op), Noted(h, op, p), p)
  {
    hide FreshScreen, Stopped, StopParticipant, HoldsNewest;
    if op.OpStopParticipant? && op.p != p {
      OthersStay(s, h, op.p, p);
    } else {
      if op.OpStopParticipant? { ParticipantGone(s, p); }
      NothingHeld(Step(s, op), p);
    }
  }

  lemma StepHolds(s: State, h: Sent, op: Op, p: string)
    requires HoldsNewest(s, h, p)
    ensures HoldsNewest(Step(s, op), Noted(h, op, p), p)
  {
    hide HoldsNewest, Noted, PushSample, PushTap, PushScore;
    match op
    case OpSample(q, b) => SampleHolds(s, h, q, b, p);
    case OpTap(q, tap) => TapHolds(s, h, q, tap, p);
    case OpScore(q, score) => ScoreHolds(s, h, q, score, p);
    case OpAnchor(q, beat, offset) => AnchorHolds(s, h, q, beat, offset, p);
    case OpBeginRun => ForgettingHolds(s, h, op, p);
    case OpStopParticipant(_) => ForgettingHolds(s, h, op, p);
    case OpStopAll => ForgettingHolds(s, h, op, p);
    case _ => QuietHolds(s, h, op, p);
  }

  /** In every run each buffer holds exactly the newest of what its participant sent since it was last
      forgotten, and its anchor is the last one it sent. */
  lemma {:induction false} BuffersHoldTheNewest(ops: seq<Op>, p: string)
    ensures HoldsNewest(Run(InitState(), ops), SentBy(ops, p), p)
    decreases |ops|
  {
    hide HoldsNewest, Step, Noted;
    if ops == [] {
      EmptyHolds(p);
    } else {
      var n := |ops| - 1;
      BuffersHoldTheNewest(ops[..n], p);
      StepHolds(Run(InitState(), ops[..n]), SentBy(ops[..n], p), ops[n], p);
      PresenterTheorems.RunLast(InitState(), ops);
    }
  }

  lemma EmptyHolds(p: string)
    ensures HoldsNewest(InitState(), Sent([], [], [], None), p)
  {
  }
}
