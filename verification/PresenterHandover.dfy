/** A screen that is handed to another participant while its tap cursor stays: who it happens to, and
    exactly when the new participant loses taps by it. */
module PresenterHandover {
  import opened Wrappers
  import opened Presenter
  import opened PresenterInvariant
  import opened PresenterTheorems
  import opened PresenterCursors
  import opened PresenterSources
  import opened PresenterTaps
  import opened PresenterPassing

  /** The tap can be emitted beside a sample at this beat. */
  predicate Due(tap: Tap, beat: real) {
    0 < tap.sequence && beat - 0.05 <= tap.beat <= beat + 0.001
  }

  /** A presenting tick takes a due tap for one that was already emitted. */
  ghost predicate Skips(s: State, nowUs: nat, id: string, p: string, x: Sample, tap: Tap)
    requires Releases(s, nowUs) && id in s.screens
  {
    tap in TapsOf(s, p) && Due(tap, x.beat) && tap.sequence <= StartCursor(Aligned(s, nowUs), s.screens[id], p, x.beat)
  }

  /** Nothing is presented on the screen and its tap cursor is not dropped. */
  ghost predicate Quiet(s: State, op: Op, id: string) {
    && id in s.screens && id in Step(s, op).screens
    && (op.OpTick? ==> !Presenting(s, op.nowUs, id))
    && Step(s, op).screens[id].tapCursor == s.screens[id].tapCursor
  }

  ghost predicate QuietThroughout(s: State, ops: seq<Op>, id: string) {
    forall i :: 0 <= i < |ops| ==> Quiet(Run(s, ops[..i]), ops[i], id)
  }

  /** A tick ahead of the release that puts the screen on `p`. */
  ghost predicate HandsOver(s: State, op: Op, id: string, p: string) {
    && op.OpTick? && !Releases(s, op.nowUs) && id in s.screens && id in Step(s, op).screens
    && s.screens[id].source != Some(p) && Step(s, op).screens[id].source == Some(p)
  }

  ghost predicate HandedOver(s: State, ops: seq<Op>, id: string, p: string) {
    exists i :: 0 <= i < |ops| && HandsOver(Run(s, ops[..i]), ops[i], id, p)
  }

  // ---- How a source changes ----

  /** Outside a tick a source only disappears, and then the tap cursor goes with it. */
  lemma OthersNeverChangeSource(s: State, op: Op, id: string)
    requires Inv(s) && !op.OpTick? && id in s.screens && id in Step(s, op).screens
    ensures var sc, sc' := s.screens[id], Step(s, op).screens[id];
            sc'.source == sc.source || (sc'.source == None && sc'.tapCursor == None)
  {
    hide Configure, Launch, LaunchAutoplay, StopSlots, Tick, Newest, HasTap, IndexOf, Inv;
    match op
    case OpConfigure(key, r, frameMissing, io) => ConfigureSource(s, key, r, frameMissing, io, id);
    case OpStopParticipant(p) => StopSlotsSource(s, IdsShowing(s.slots, p), id);
    case OpLaunch(key, io) =>
      LaunchKeepsCursors(s, key, io, true, true, id);
      assert Step(s, op).screens[id].source == DropPages(Step(s, op).screens[id]).source;
    case OpLaunchAutoplay(a, b) =>
      LaunchKeepsCursors(s, id, IoOk, a, b, id);
      assert Step(s, op).screens[id].source == DropPages(Step(s, op).screens[id]).source;
    case _ =>
  }

  lemma ConfigureSource(s: State, key: string, r: Request, frameMissing: bool, io: Io, id: string)
    requires id in s.screens && id in Configure(s, key, r, frameMissing, io).screens
    ensures var sc, sc' := s.screens[id], Configure(s, key, r, frameMissing, io).screens[id];
            sc'.source == sc.source || (sc'.source == None && sc'.tapCursor == None)
  {
    hide Candidate, RenderChanged, ValidRequest, IndexOf, ResetPages, Unfeature;
    ResetsKeepCursors();
    assert forall a: Screen :: a.source == DropPages(a).source && a.tapCursor == DropPages(a).tapCursor;
  }

  lemma {:induction false} StopSlotsSource(s: State, ids: seq<string>, id: string)
    requires id in s.screens
    ensures id in StopSlots(s, ids).screens
    ensures var sc, sc' := s.screens[id], StopSlots(s, ids).screens[id];
            sc' == sc || (sc'.source == None && sc'.tapCursor == None)
    decreases |ids|
  {
    hide IndexOf;
    if ids != [] { StopSlotsSource(StopSlot(s, ids[0]), ids[1..], id); }
  }

  /** While the cursor is kept and nothing is presented, a new source can only come from a warm-up. */
  lemma QuietSource(s: State, op: Op, id: string, p: string)
    requires Inv(s) && Quiet(s, op, id) && s.screens[id].tapCursor.Some?
    requires s.screens[id].source != Some(p) && Step(s, op).screens[id].source == Some(p)
    ensures HandsOver(s, op, id, p)
  {
    hide Inv, Step, Tick, Presenting, Releases;
    if op.OpTick? {
      TickQuiet(s, op.nowUs, id);
    } else {
      OthersNeverChangeSource(s, op, id);
    }
  }

  lemma TickQuiet(s: State, nowUs: nat, id: string)
    requires id in s.screens && !Presenting(s, nowUs, id)
    ensures id in Step(s, OpTick(nowUs)).screens
    ensures Releases(s, nowUs) ==> Step(s, OpTick(nowUs)).screens[id] == s.screens[id]
  {
    hide Tick, Presenting, Releases;
    IdleScreen(s, nowUs, id);
  }

  lemma QuietPrefix(s: State, ops: seq<Op>, id: string)
    requires ops != [] && QuietThroughout(s, ops, id)
    ensures QuietThroughout(s, ops[..|ops| - 1], id) && Quiet(Run(s, ops[..|ops| - 1]), ops[|ops| - 1], id)
  {
    hide Run, Quiet;
    var n := |ops| - 1;
    forall i | 0 <= i < n ensures Quiet(Run(s, ops[..n][..i]), ops[..n][i], id) { assert ops[..n][..i] == ops[..i]; }
  }

  lemma HandedOverGrows(s: State, ops: seq<Op>, n: nat, id: string, p: string)
    requires n <= |ops| && HandedOver(s, ops[..n], id, p)
    ensures HandedOver(s, ops, id, p)
  {
    hide Run, HandsOver;
    var i :| 0 <= i < n && HandsOver(Run(s, ops[..n][..i]), ops[..n][i], id, p);
    assert ops[..n][..i] == ops[..i];
  }

  lemma HandedOverHere(s: State, ops: seq<Op>, i: nat, id: string, p: string)
    requires i < |ops| && HandsOver(Run(s, ops[..i]), ops[i], id, p)
    ensures HandedOver(s, ops, id, p)
  {
    hide Run, HandsOver;
  }

  /** Over a quiet stretch the cursor stays, and a screen that ends up on another participant was put
      there by a warm-up. */
  lemma {:induction false} QuietRun(s: State, ops: seq<Op>, id: string, p: string)
    requires Inv(s) && id in s.screens && s.screens[id].tapCursor.Some? && s.screens[id].source != Some(p)
    requires QuietThroughout(s, ops, id)
    ensures var t := Run(s, ops);
            && id in t.screens && t.screens[id].tapCursor == s.screens[id].tapCursor
            && (t.screens[id].source == Some(p) ==> HandedOver(s, ops, id, p))
    decreases |ops|
  {
    hide Inv, Step, HandedOver, HandsOver;
    if ops != [] {
      var n := |ops| - 1;
      var u := Run(s, ops[..n]);
      QuietPrefix(s, ops, id);
      QuietRun(s, ops[..n], id, p);
      RunLast(s, ops);
      RunKeepsInv(s, ops[..n]);
      if Run(s, ops).screens[id].source == Some(p) {
        if u.screens[id].source == Some(p) {
          HandedOverGrows(s, ops, n, id, p);
        } else {
          QuietSource(u, ops[n], id, p);
          HandedOverHere(s, ops, n, id, p);
        }
      }
    }
  }

  // ---- When taps are skipped ----

  /** After `r` was shown on a screen, the first tick that shows `p` there skips a due tap exactly when the tap
      is at or below the cursor left by `r` and the screen already stands on `p`, where a warm-up has put it; or
      when it re-bases and the tap is at or below the last one clearly behind. The second needs a pair of taps in
      unsafe order. A tap of `p` that the screen emitted before it showed `r` counts as skipped too. */
  lemma HandoverSkipsIff(s: State, now1: nat, r: string, y: Sample, ops: seq<Op>, now2: nat, id: string, p: string,
                         x: Sample, tap: Tap)
    requires Inv(s) && Presents(s, now1, id, r, y) && r != p && id in Tick(s, now1).screens
    requires QuietThroughout(Tick(s, now1), ops, id)
    requires Presents(Run(Tick(s, now1), ops), now2, id, p, x)
    ensures var a, b := Tick(s, now1), Run(Tick(s, now1), ops);
            && a.screens[id].tapCursor.Some? && b.screens[id].tapCursor == a.screens[id].tapCursor
            && (Skips(b, now2, id, p, x, tap)
                <==> tap in TapsOf(b, p) && Due(tap, x.beat)
                     && tap.sequence <= (if b.screens[id].source == Some(p) then a.screens[id].tapCursor.value
                                         else Baseline(TapsOf(b, p), x.beat)))
            && (b.screens[id].source == Some(p) ==> HandedOver(a, ops, id, p))
            && (b.screens[id].source != Some(p) && ScanSafe(TapsOf(b, p)) ==> !Skips(b, now2, id, p, x, tap))
  {
    hide Inv, Tick, Run, QuietThroughout, HandedOver, ScanSafe, DistinctTaps, Baseline, Shown, Source, Eligible,
        Aligned;
    var a, b := Tick(s, now1), Run(Tick(s, now1), ops);
    PresentedScreen(s, now1, id, r, y);
    StepKeepsInv(s, OpTick(now1));
    QuietRun(a, ops, id, p);
    RunKeepsInv(a, ops);
    AlignedTaps(b, now2);
    if ScanSafe(TapsOf(b, p)) && tap in TapsOf(b, p) && Due(tap, x.beat)
      && tap.sequence <= Baseline(TapsOf(b, p), x.beat) {
      InvDistinctTaps(b, p);
      SafeBaseline(TapsOf(b, p), x.beat, tap);
    }
  }

  lemma InvDistinctTaps(s: State, p: string)
    requires Inv(s)
    ensures DistinctTaps(TapsOf(s, p))
  {
  }

  /** Where no scan can lose a tap, re-basing skips only taps clearly behind the sample. */
  lemma SafeBaseline(taps: seq<Tap>, beat: real, tap: Tap)
    requires ScanSafe(taps) && DistinctTaps(taps) && tap in taps && 0 < tap.sequence <= Baseline(taps, beat)
    ensures tap.beat < beat - 0.05
  {
    BaselineIsBehind(taps, beat);
    var j :| 0 <= j < |taps| && taps[j].sequence == Baseline(taps, beat) && taps[j].beat < beat - 0.05;
    var i :| 0 <= i < |taps| && taps[i] == tap;
    if i < j { assert Harmless(taps[i], taps[j], true); }
    if j < i { assert Harmless(taps[i], taps[j], false); }
  }

  lemma {:induction false} BaselineIsBehind(taps: seq<Tap>, beat: real)
    requires Baseline(taps, beat) > 0
    ensures exists j :: 0 <= j < |taps| && taps[j].sequence == Baseline(taps, beat) && taps[j].beat < beat - 0.05
  {
    var n := |taps| - 1;
    if taps[n].beat >= beat - 0.05 {
      BaselineIsBehind(taps[..n], beat);
      var j :| 0 <= j < n && taps[..n][j].sequence == Baseline(taps[..n], beat) && taps[..n][j].beat < beat - 0.05;
      assert taps[j] == taps[..n][j];
    }
  }

  /** A skipped tap is never emitted on that screen afterwards, as long as its cursor is kept. */
  lemma SkippedTapIsNeverEmitted(s: State, nowUs: nat, id: string, p: string, x: Sample, tap: Tap, ops: seq<Op>,
                                 later: nat, q: string, y: Sample, emitted: Tap)
    requires Presents(s, nowUs, id, p, x) && Skips(s, nowUs, id, p, x, tap) && id in Tick(s, nowUs).screens
    requires KeepsTapCursorThroughout(Tick(s, nowUs), ops + [OpTick(later)], id)
    requires EmitsTap(Run(Tick(s, nowUs), ops), later, id, q, y, emitted)
    ensures tap.sequence < emitted.sequence
    ensures forall now :: EmitsTap(s, nowUs, id, p, x, now) ==> tap.sequence < now.sequence
  {
    hide Tick, Run, Eligible, Shown, Source, ScanTaps, Baseline, Due, Aligned;
    var a, b := Tick(s, nowUs), Run(Tick(s, nowUs), ops);
    forall now | EmitsTap(s, nowUs, id, p, x, now) ensures tap.sequence < now.sequence {
      EmittedTapIsCursor(s, nowUs, id, p, x, now);
    }
    PresentedScreen(s, nowUs, id, p, x);
    KeepsSplits(a, ops, OpTick(later), id);
    TapCursorNeverDropsOverRun(a, ops, id, tap.sequence);
    EmittedTapIsCursor(b, later, id, q, y, emitted);
  }

  // ---- A configured slot is never handed over ----

  lemma QuietSlotStep(s: State, op: Op, i: nat, r: string)
    requires Inv(s) && SourcesFit(s.slots, s.screens) && i < |s.slots| && Quiet(s, op, s.slots[i].id)
    requires s.screens[s.slots[i].id].tapCursor.Some? && s.screens[s.slots[i].id].source == Some(r)
    ensures Step(s, op).screens[s.slots[i].id].source == Some(r)
  {
    hide Inv, Step, Eligible, FindSlot, Presenting;
    var id := s.slots[i].id;
    if op.OpTick? {
      EligibleIsOwnSlot(s, i);
      TickStaysOnSource(s, op.nowUs, id, r);
    } else {
      OthersNeverChangeSource(s, op, id);
    }
  }

  lemma {:induction false} QuietSlotRun(s: State, ops: seq<Op>, i: nat, r: string)
    requires Inv(s) && SourcesFit(s.slots, s.screens) && i < |s.slots| && s.slots[i].id in s.screens
    requires s.screens[s.slots[i].id].tapCursor.Some? && s.screens[s.slots[i].id].source == Some(r)
    requires QuietThroughout(s, ops, s.slots[i].id)
    ensures var t := Run(s, ops); var id := s.slots[i].id;
            && Inv(t) && SourcesFit(t.slots, t.screens) && SameIds(s.slots, t.slots)
            && id in t.screens && t.screens[id].tapCursor.Some? && t.screens[id].source == Some(r)
    decreases |ops|
  {
    hide Inv, Step, SourcesFit;
    if ops != [] {
      var n := |ops| - 1;
      var u := Run(s, ops[..n]);
      QuietPrefix(s, ops, s.slots[i].id);
      QuietSlotRun(s, ops[..n], i, r);
      RunLast(s, ops);
      QuietSlotStep(u, ops[n], i, r);
      StepKeepsInv(u, ops[n]);
      StepKeepsSources(u, ops[n]);
      StepKeepsIds(u, ops[n]);
    }
  }

  /** On a configured slot, in every run, two presentations without a cursor reset in between show the
      same participant: only AUTOPLAY is ever handed over with its cursor. */
  lemma SlotIsNeverHandedOver(before: seq<Op>, now1: nat, i: nat, r: string, y: Sample, ops: seq<Op>, now2: nat,
                              p: string, x: Sample)
    requires var s := Run(InitState(), before);
             && i < |s.slots| && Presents(s, now1, s.slots[i].id, r, y)
             && QuietThroughout(Tick(s, now1), ops, s.slots[i].id)
             && Presents(Run(Tick(s, now1), ops), now2, s.slots[i].id, p, x)
    ensures p == r
  {
    hide Inv, Tick, Run, QuietThroughout, Presenting, Shown, Eligible, FindSlot;
    var s := Run(InitState(), before);
    var a, b := Tick(s, now1), Run(Tick(s, now1), ops);
    SlotsShowTheirOwn(before);
    StepKeepsInv(s, OpTick(now1));
    StepKeepsSources(s, OpTick(now1));
    TickKeepsSlots(s, now1);
    PresentedScreen(s, now1, s.slots[i].id, r, y);
    QuietSlotRun(a, ops, i, r);
    EligibleIsOwnSlot(b, i);
  }
}
