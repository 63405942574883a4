/** The delayed cohort presenter of the renderer, as a state machine over its public calls.

    Every hidden renderer is kept warm until the whole cohort has reached its first
    note plus the largest configured delay; from then on all sources play on one
    shared elapsed clock. The source keeps one map per cursor, counter and page, all
    keyed by slot id; here they are gathered into one `Screen` record per slot id.
    Flag bits are named booleans, and beats are finite reals. */
module Presenter {
  import opened Wrappers

  const AUTOPLAY_SLOT := "AUTOPLAY"
  const MAX_RENDER_SAMPLES: nat := 36_000
  const MAX_RENDER_TAPS: nat := 4_096
  const MAX_RENDER_SCORES: nat := 4_096

  // ---- Telemetry ----

  datatype Flags = Flags(playing: bool, paused: bool, rawPressed: bool, rawReleased: bool)

  datatype Sample = Sample(sequence: nat, runTimeUs: nat, beat: real, paddleAngle: real, flags: Flags)

  datatype Buffered = Buffered(sample: Sample, receivedAtUs: nat)

  /** Where a participant's first note was found: its source time and its receipt time. */
  datatype Origin = Origin(sourceUs: nat, receiptUs: nat)

  datatype Anchor = Anchor(firstNoteBeat: real, inputOffsetMs: real, origin: Option<Origin>)

  datatype Tap = Tap(sequence: nat, beat: real, judgementBeat: real, pressed: bool, released: bool)

  datatype Score = Score(sequence: nat, runTimeUs: nat, accuracy: real, averageOffset: real, totals: seq<nat>,
      results: bool)

  // ---- Slots and pages ----

  datatype Slot = Slot(id: string, participant: Option<string>, active: bool, featured: bool,
                       mode: int, width: int, height: int, fps: int, delayMs: nat)

  datatype Request = Request(participant: Option<string>, mode: Option<int>, width: Option<int>,
                             height: Option<int>, fps: Option<int>, delayMs: Option<nat>, featured: Option<bool>)

  datatype OutFlags = OutFlags(playing: bool, paused: bool, capture: bool, syncRelease: bool, tapPressed: bool,
      tapReleased: bool)

  datatype InputPage =
    | ZeroInput
    | Input(commit: nat, judgementBeat: Option<real>, inputOffsetMs: real, beat: real, paddleAngle: real,
        flags: OutFlags)

  datatype ScorePage =
    | ZeroScore
    | ShownScore(commit: nat, results: bool, accuracy: real, averageOffset: real, counters: seq<nat>)

  /** Everything kept under one slot id: the two mapped pages (absent until first reset),
      their commit counters, the source being shown and the three cursors into it. */
  datatype Screen = Screen(page: Option<InputPage>, scorePage: Option<ScorePage>,
                           inputCommit: nat, scoreCommit: nat, source: Option<string>,
                           tapCursor: Option<nat>, sampleCursor: Option<nat>, scoreCursor: Option<nat>)

  const BLANK := Screen(None, None, 0, 0, None, None, None, None)

  datatype Epoch = Epoch(participants: set<string>, releaseAtUs: nat, released: bool)

  datatype State = State(
    slots: seq<Slot>,
    samples: map<string, seq<Buffered>>,
    anchors: map<string, Anchor>,
    taps: map<string, seq<Tap>>,
    scores: map<string, seq<Score>>,
    screens: map<string, Screen>,
    awaiting: set<string>,
    epoch: Option<Epoch>,
    autoplay: bool)

  function DefaultSlot(id: string, featured: bool): Slot {
    Slot(id, None, false, featured, 0, 1280, 720, 60, 500)
  }

  function InitState(): State {
    State([DefaultSlot("A", true), DefaultSlot("B", false), DefaultSlot("C", false), DefaultSlot("D", false)],
          map[], map[], map[], map[],
          map["A" := BLANK, "B" := BLANK, "C" := BLANK, "D" := BLANK, AUTOPLAY_SLOT := BLANK],
          {}, None, false)
  }

  // ---- Arrivals ----

  function PushSample(s: State, p: string, b: Buffered): State {
    var buffer := GetOr(s.samples, p, []);
    if buffer != [] && b.sample.sequence <= buffer[|buffer| - 1].sample.sequence then s
    else s.(samples := s.samples[p := Newest(buffer + [b], MAX_RENDER_SAMPLES)])
  }

  function PushAnchor(s: State, p: string, firstNoteBeat: real, inputOffsetMs: real): State {
    s.(anchors := s.anchors[p := Anchor(firstNoteBeat, inputOffsetMs, None)], epoch := None)
  }

  predicate HasTap(buffer: seq<Tap>, sequence: nat) {
    exists i :: 0 <= i < |buffer| && buffer[i].sequence == sequence
  }

  function PushTap(s: State, p: string, tap: Tap): State {
    var buffer := GetOr(s.taps, p, []);
    if !tap.pressed && !tap.released then s
    else if HasTap(buffer, tap.sequence) then s
    else s.(taps := s.taps[p := Newest(buffer + [tap], MAX_RENDER_TAPS)])
  }

  function PushScore(s: State, p: string, score: Score): State {
    var buffer := GetOr(s.scores, p, []);
    if !(0.0 <= score.accuracy <= 100.0) then s
    else if buffer != [] && score.sequence <= buffer[|buffer| - 1].sequence then s
    else s.(scores := s.scores[p := Newest(buffer + [score], MAX_RENDER_SCORES)])
  }

  // ---- Run, launch, configure and stop ----

  /** What `begin_run` leaves of a screen: pages that exist are zeroed, the rest forgotten. */
  function FreshScreen(sc: Screen): Screen {
    Screen(if sc.page.Some? then Some(ZeroInput) else None,
           if sc.scorePage.Some? then Some(ZeroScore) else None,
           0, 0, None, None, None, None)
  }

  function BeginRun(s: State): State {
    s.(samples := map[], anchors := map[], taps := map[], scores := map[], awaiting := {}, epoch := None,
       screens := map id | id in s.screens :: FreshScreen(s.screens[id]))
  }

  /** Which of the three file operations behind a page reset fails, if any. */
  datatype Io = IoOk | FrameFails | InputFails | ScoreFails

  /** An existing page is always zeroed (only its flush can fail); a missing one is created. */
  function ResetInput(sc: Screen, ok: bool): Screen {
    if sc.page.Some? || ok then sc.(page := Some(ZeroInput)) else sc
  }

  function ResetScore(sc: Screen, ok: bool): Screen {
    if sc.scorePage.Some? || ok then sc.(scorePage := Some(ZeroScore)) else sc
  }

  function ResetPages(sc: Screen, io: Io): Screen {
    match io
    case FrameFails => sc
    case InputFails => ResetInput(sc, false)
    case ScoreFails => ResetScore(ResetInput(sc, true), false)
    case IoOk => ResetScore(ResetInput(sc, true), true)
  }

  function DropCursors(sc: Screen): Screen {
    sc.(source := None, tapCursor := None, sampleCursor := None, scoreCursor := None)
  }

  function IndexOf(slots: seq<Slot>, id: string): (r: Option<nat>)
    ensures r.Some? ==> r.value < |slots| && slots[r.value].id == id
    ensures r.None? ==> forall i :: 0 <= i < |slots| ==> slots[i].id != id
  {
    if slots == [] then None
    else if slots[0].id == id then Some(0)
    else
      var rest := IndexOf(slots[1..], id);
      if rest.Some? then Some(rest.value + 1)
      else
        assert forall i :: 1 <= i < |slots| ==> slots[i] == slots[1..][i - 1];
        None
  }

  predicate ValidRequest(r: Request) {
    && (r.width.Some? ==> 320 <= r.width.value <= 1920)
    && (r.height.Some? ==> 180 <= r.height.value <= 1080)
    && (r.fps.Some? ==> r.fps.value == 30 || r.fps.value == 60)
  }

  function Clamp(x: nat, lo: nat, hi: nat): nat
    requires lo <= hi
  {
    if x < lo then lo else if x > hi then hi else x
  }

  /** The candidate a valid request makes of a slot, before the featured flag. */
  function Candidate(slot: Slot, r: Request): Slot {
    var participant := if r.participant.None? then slot.participant
                       else if r.participant.value == "" then None else r.participant;
    slot.(participant := participant, active := participant.Some?,
          mode := if r.mode.Some? then r.mode.value else slot.mode,
          width := if r.width.Some? then r.width.value else slot.width,
          height := if r.height.Some? then r.height.value else slot.height,
          fps := if r.fps.Some? then r.fps.value else slot.fps,
          delayMs := if r.delayMs.Some? then Clamp(r.delayMs.value, 250, 1_500) else slot.delayMs)
  }

  predicate RenderChanged(before: Slot, after: Slot) {
    before.(featured := after.featured, active := after.active) != after
  }

  function Unfeature(slots: seq<Slot>): (r: seq<Slot>)
    ensures |r| == |slots|
    ensures forall i :: 0 <= i < |r| ==> r[i] == slots[i].(featured := false)
  {
    seq(|slots|, i requires 0 <= i < |slots| => slots[i].(featured := false))
  }

  /** The screen a configuration leaves: cursors dropped on a render change, pages reset when needed. */
  function ConfiguredScreen(sc: Screen, changed: bool, frameMissing: bool, io: Io): Screen {
    var kept := if changed then DropCursors(sc) else sc;
    if changed || frameMissing then ResetPages(kept, io) else kept
  }

  /** The slot table with one slot replaced; featuring it unfeatures all others. */
  function ConfiguredSlots(slots: seq<Slot>, i: nat, configured: Slot, feature: bool): seq<Slot>
    requires i < |slots|
  {
    if feature then Unfeature(slots)[i := configured.(featured := true)] else slots[i := configured]
  }

  function Configure(s: State, id: string, r: Request, frameMissing: bool, io: Io): State {
    var index := IndexOf(s.slots, id);
    if index.None? || !ValidRequest(r) || id !in s.screens then s
    else
      var configured := Candidate(s.slots[index.value], r);
      var changed := RenderChanged(s.slots[index.value], configured);
      s.(screens := s.screens[id := ConfiguredScreen(s.screens[id], changed, frameMissing, io)],
         epoch := if changed then None else s.epoch,
         slots := if (changed || frameMissing) && io != IoOk then s.slots
                  else ConfiguredSlots(s.slots, index.value, configured, r.featured == Some(true)))
  }

  /** `launch_slot` up to and including `prepare_slot_launch`: close the gate, then zero the pages. */
  function Launch(s: State, id: string, io: Io): State {
    var index := IndexOf(s.slots, id);
    if index.None? || !s.slots[index.value].active || id !in s.screens then s
    else s.(awaiting := s.awaiting + {id}, screens := s.screens[id := ResetPages(s.screens[id], io)])
  }

  function FindFeatured(slots: seq<Slot>): (r: Option<Slot>)
    ensures r.Some? ==> r.value in slots && r.value.featured
  {
    if slots == [] then None
    else if slots[0].featured then Some(slots[0])
    else FindFeatured(slots[1..])
  }

  function LaunchAutoplay(s: State, inputOk: bool, spawnOk: bool): State {
    if AUTOPLAY_SLOT !in s.screens || FindFeatured(ActiveSlots(s.slots)).None? then s
    else
      s.(awaiting := s.awaiting + {AUTOPLAY_SLOT},
         screens := s.screens[AUTOPLAY_SLOT := ResetInput(s.screens[AUTOPLAY_SLOT], inputOk)],
         autoplay := s.autoplay || (inputOk && spawnOk))
  }

  function StopAutoplay(s: State): State {
    if AUTOPLAY_SLOT !in s.screens then s
    else
      s.(screens := s.screens[AUTOPLAY_SLOT := s.screens[AUTOPLAY_SLOT].(page := None, source := None,
          tapCursor := None, sampleCursor := None)],
         awaiting := s.awaiting - {AUTOPLAY_SLOT}, autoplay := false, epoch := None)
  }

  function StopSlot(s: State, id: string): State {
    var index := IndexOf(s.slots, id);
    if index.None? || id !in s.screens then s
    else
      s.(slots := s.slots[index.value := s.slots[index.value].(participant := None, active := false)],
         screens := s.screens[id := DropCursors(s.screens[id])],
         awaiting := s.awaiting - {id}, epoch := None)
  }

  function StopSlots(s: State, ids: seq<string>): State
    decreases |ids|
  {
    if ids == [] then s else StopSlots(StopSlot(s, ids[0]), ids[1..])
  }

  function IdsShowing(slots: seq<Slot>, p: string): (ids: seq<string>)
    ensures forall i :: 0 <= i < |slots| && slots[i].participant == Some(p) ==> slots[i].id in ids
    ensures ids != [] ==> exists i :: 0 <= i < |slots| && slots[i].participant == Some(p) && slots[i].id == ids[0]
  {
    if slots == [] then []
    else
      var rest := IdsShowing(slots[1..], p);
      assert forall i :: 1 <= i < |slots| ==> slots[i] == slots[1..][i - 1];
      if slots[0].participant == Some(p) then [slots[0].id] + rest else rest
  }

  function StopParticipant(s: State, p: string): State {
    var t := StopSlots(s, IdsShowing(s.slots, p));
    t.(samples := t.samples - {p}, anchors := t.anchors - {p}, taps := t.taps - {p}, scores := t.scores - {p})
  }

  function Stopped(slots: seq<Slot>): seq<Slot> {
    seq(|slots|, i requires 0 <= i < |slots| => slots[i].(participant := None, active := false))
  }

  function StopAll(s: State): State {
    s.(slots := Stopped(s.slots), samples := map[], anchors := map[], taps := map[], scores := map[],
       screens := map id | id in s.screens :: BLANK, awaiting := {}, epoch := None, autoplay := false)
  }

  // ---- One tick of `write_aligned_inputs` ----

  function ActiveSlots(slots: seq<Slot>): (r: seq<Slot>)
    ensures forall slot :: slot in r <==> slot in slots && slot.active
  {
    if slots == [] then []
    else if slots[0].active then [slots[0]] + ActiveSlots(slots[1..])
    else ActiveSlots(slots[1..])
  }

  /** Active slots that are not parked behind the launch barrier. */
  function LiveSlots(slots: seq<Slot>, awaiting: set<string>): (r: seq<Slot>)
    ensures forall slot :: slot in r <==> slot in slots && slot.active && slot.id !in awaiting
  {
    if slots == [] then []
    else if slots[0].active && slots[0].id !in awaiting then [slots[0]] + LiveSlots(slots[1..], awaiting)
    else LiveSlots(slots[1..], awaiting)
  }

  /** The slots this tick writes: live ones, plus AUTOPLAY following the featured live slot. */
  function Eligible(s: State): (r: seq<Slot>)
    ensures forall slot :: slot in LiveSlots(s.slots, s.awaiting) ==> slot in r
  {
    var live := LiveSlots(s.slots, s.awaiting);
    var featured := FindFeatured(live);
    if s.autoplay && featured.Some? && AUTOPLAY_SLOT !in s.awaiting
    then live + [featured.value.(id := AUTOPLAY_SLOT, featured := false)]
    else live
  }

  function DelayUs(slot: Slot): nat { slot.delayMs * 1_000 }

  function CommonDelay(slots: seq<Slot>): (d: nat)
    requires slots != []
    ensures forall slot :: slot in slots ==> DelayUs(slot) <= d
    ensures exists slot :: slot in slots && DelayUs(slot) == d
  {
    if |slots| == 1 then
      assert slots[0] in slots;
      DelayUs(slots[0])
    else
      var rest := CommonDelay(slots[1..]);
      assert forall slot :: slot in slots ==> slot == slots[0] || slot in slots[1..];
      if DelayUs(slots[0]) > rest then assert slots[0] in slots; DelayUs(slots[0]) else rest
  }

  function Cohort(slots: seq<Slot>): (r: set<string>)
    ensures forall slot :: slot in slots && slot.participant.Some? ==> slot.participant.value in r
    ensures forall p :: p in r ==> exists slot :: slot in slots && slot.participant == Some(p)
  {
    set slot | slot in slots && slot.participant.Some? :: slot.participant.value
  }

  predicate ReachesNote(b: Buffered, beat: real) {
    b.sample.flags.playing && b.sample.beat + 0.0001 >= beat
  }

  /** The first buffered sample that plays at or after the anchor's note. */
  function FirstNote(buffer: seq<Buffered>, beat: real): (r: Option<Buffered>)
    ensures r.Some? ==> r.value in buffer && ReachesNote(r.value, beat)
    ensures r.None? <==> forall b :: b in buffer ==> !ReachesNote(b, beat)
  {
    if buffer == [] then None
    else if ReachesNote(buffer[0], beat) then Some(buffer[0])
    else FirstNote(buffer[1..], beat)
  }

  function ResolveAnchor(a: Anchor, buffer: seq<Buffered>): Anchor {
    var first := FirstNote(buffer, a.firstNoteBeat);
    if a.origin.Some? || first.None? then a
    else a.(origin := Some(Origin(first.value.sample.runTimeUs, first.value.receivedAtUs)))
  }

  function ResolveAnchors(s: State, cohort: set<string>): (r: map<string, Anchor>)
    ensures r.Keys == s.anchors.Keys
  {
    map p | p in s.anchors ::
      if p in cohort then ResolveAnchor(s.anchors[p], GetOr(s.samples, p, [])) else s.anchors[p]
  }

  predicate Resolved(anchors: map<string, Anchor>, p: string) {
    p in anchors && anchors[p].origin.Some?
  }

  predicate Ready(anchors: map<string, Anchor>, cohort: set<string>) {
    forall p :: p in cohort ==> Resolved(anchors, p)
  }

  function Receipt(anchors: map<string, Anchor>, p: string): nat
    requires Resolved(anchors, p)
  {
    anchors[p].origin.value.receiptUs
  }

  ghost function LatestReceipt(anchors: map<string, Anchor>, cohort: set<string>): (m: nat)
    requires Ready(anchors, cohort) && cohort != {}
    ensures forall p :: p in cohort ==> Receipt(anchors, p) <= m
    ensures exists p :: p in cohort && Receipt(anchors, p) == m
  {
    var p :| p in cohort;
    if cohort == {p} then Receipt(anchors, p)
    else
      var rest := LatestReceipt(anchors, cohort - {p});
      if Receipt(anchors, p) > rest then Receipt(anchors, p) else rest
  }

  ghost function NextEpoch(epoch: Option<Epoch>, anchors: map<string, Anchor>, cohort: set<string>, delayUs: nat,
                           nowUs: nat): Option<Epoch> {
    if epoch.Some? && epoch.value.participants == cohort then epoch
    else if Ready(anchors, cohort) then
      Some(Epoch(cohort, (if cohort == {} then nowUs else LatestReceipt(anchors, cohort)) + delayUs, false))
    else None
  }

  /** The newest sample received no later than the warm-up target. */
  function LastReceived(buffer: seq<Buffered>, targetUs: nat): (r: Option<Sample>)
    ensures r.Some? ==> exists b :: b in buffer && b.sample == r.value && b.receivedAtUs <= targetUs
  {
    if buffer == [] then None
    else
      var last := buffer[|buffer| - 1];
      if last.receivedAtUs <= targetUs then Some(last.sample) else LastReceived(buffer[..|buffer| - 1], targetUs)
  }

  /** The last sample in sequence order whose source time has been reached. */
  function LastReached(buffer: seq<Buffered>, targetUs: nat): (r: Option<nat>)
    ensures r.Some? ==> r.value < |buffer| && buffer[r.value].sample.runTimeUs <= targetUs
    ensures r.Some? ==> forall j :: r.value < j < |buffer| ==> buffer[j].sample.runTimeUs > targetUs
    ensures r.None? ==> forall j :: 0 <= j < |buffer| ==> buffer[j].sample.runTimeUs > targetUs
  {
    if buffer == [] then None
    else if buffer[|buffer| - 1].sample.runTimeUs <= targetUs then Some(|buffer| - 1)
    else LastReached(buffer[..|buffer| - 1], targetUs)
  }

  function LastScore(scores: seq<Score>, runTimeUs: nat): (r: Option<nat>)
    ensures r.Some? ==> r.value < |scores| && scores[r.value].runTimeUs <= runTimeUs
    ensures r.Some? ==> forall j :: r.value < j < |scores| ==> scores[j].runTimeUs > runTimeUs
    ensures r.None? ==> forall j :: 0 <= j < |scores| ==> scores[j].runTimeUs > runTimeUs
  {
    if scores == [] then None
    else if scores[|scores| - 1].runTimeUs <= runTimeUs then Some(|scores| - 1)
    else LastScore(scores[..|scores| - 1], runTimeUs)
  }

  /** The sample participant `p` shows `elapsedUs` after the common release. */
  function Playhead(s: State, p: string, elapsedUs: nat): Option<Sample> {
    if p !in s.samples || !Resolved(s.anchors, p) then None
    else
      var index := LastReached(s.samples[p], s.anchors[p].origin.value.sourceUs + elapsedUs);
      if index.None? then None else Some(s.samples[p][index.value].sample)
  }

  /** `wrapping_add(1).max(1)` on 32 bits: the commit marker never returns to zero. */
  function NextCommit(c: nat): nat { if c >= 0xFFFF_FFFF then 1 else c + 1 }

  function OffsetOf(anchors: map<string, Anchor>, p: string): real {
    if p in anchors then anchors[p].inputOffsetMs else 0.0
  }

  function FindSlot(slots: seq<Slot>, id: string): (r: Option<Slot>)
    ensures r.Some? ==> r.value in slots && r.value.id == id
    ensures r.None? ==> forall slot :: slot in slots ==> slot.id != id
  {
    if slots == [] then None else if slots[0].id == id then Some(slots[0]) else FindSlot(slots[1..], id)
  }

  /** Warm-up: motion and playing state only; capture and tap edges stay gated. */
  function Warm(s: State, sc: Screen, slot: Slot, targetUs: nat): Screen {
    if slot.participant.None? || sc.page.None? then sc
    else
      var p := slot.participant.value;
      var sample := LastReceived(GetOr(s.samples, p, []), targetUs);
      if sample.None? then sc
      else
        var x := sample.value;
        var commit := NextCommit(sc.inputCommit);
        sc.(source := Some(p), inputCommit := commit,
            page := Some(Input(commit, None, OffsetOf(s.anchors, p), x.beat, x.paddleAngle,
                               OutFlags(x.flags.playing, x.flags.paused, false, false, false, false))))
  }

  /** Where the tap cursor starts on a new source: the last event clearly behind the sample. */
  function Baseline(taps: seq<Tap>, beat: real): nat {
    if taps == [] then 0
    else if taps[|taps| - 1].beat < beat - 0.05 then taps[|taps| - 1].sequence
    else Baseline(taps[..|taps| - 1], beat)
  }

  /** Walks the reliable taps: skip consumed and future events, consume stale ones, stop at the first due one. */
  function ScanTaps(taps: seq<Tap>, cursor: nat, beat: real): (r: (nat, Option<Tap>))
    ensures cursor <= r.0
    ensures r.1.Some? ==> r.1.value in taps && cursor < r.1.value.sequence == r.0
    ensures r.1.Some? ==> beat - 0.05 <= r.1.value.beat <= beat + 0.001
  {
    if taps == [] then (cursor, None)
    else
      var event := taps[0];
      if event.sequence <= cursor || event.beat > beat + 0.001 then ScanTaps(taps[1..], cursor, beat)
      else if event.beat + 0.05 >= beat then (event.sequence, Some(event))
      else ScanTaps(taps[1..], event.sequence, beat)
  }

  /** Score counters are truncated to 32 bits on the page. */
  function Truncate(n: nat): nat { if n > 0xFFFF_FFFF then 0xFFFF_FFFF else n }

  function ShowScore(sc: Screen, score: Score): Screen {
    var commit := NextCommit(sc.scoreCommit);
    var counters := seq(|score.totals|, i requires 0 <= i < |score.totals| => Truncate(score.totals[i]));
    sc.(scoreCommit := commit, scoreCursor := Some(score.sequence),
        scorePage := Some(ShownScore(commit, score.results, score.accuracy, score.averageOffset, counters)))
  }

  function StartCursor(s: State, sc: Screen, p: string, beat: real): nat {
    if sc.source != Some(p) then Baseline(GetOr(s.taps, p, []), beat)
    else if sc.tapCursor.Some? then sc.tapCursor.value else 0
  }

  /** The reliable tap a presenting tick would emit on a screen, with the cursor it leaves. */
  function DueTap(s: State, sc: Screen, p: string, beat: real): (nat, Option<Tap>) {
    ScanTaps(GetOr(s.taps, p, []), StartCursor(s, sc, p, beat), beat)
  }

  /** Whether the sample about to be shown is one this screen has not shown yet. */
  predicate IsNewSample(sc: Screen, p: string, x: Sample) {
    sc.source != Some(p) || sc.sampleCursor != Some(x.sequence)
  }

  /** The input record a presenting tick publishes for sample `x`, and the cursors it leaves. */
  function PresentInput(s: State, sc: Screen, p: string, x: Sample, firstRelease: bool): Screen {
    var changed := sc.source != Some(p);
    var (cursor, tap) := DueTap(s, sc, p, x.beat);
    var raw := tap.None? && IsNewSample(sc, p, x);
    var commit := NextCommit(sc.inputCommit);
    var flags := OutFlags(x.flags.playing, x.flags.paused, true, firstRelease || changed,
                          (tap.Some? && tap.value.pressed) || (raw && x.flags.rawPressed),
                          (tap.Some? && tap.value.released) || (raw && x.flags.rawReleased));
    var beat := if firstRelease && p in s.anchors then s.anchors[p].firstNoteBeat else x.beat;
    var judgement := if tap.Some? then Some(tap.value.judgementBeat) else None;
    var page := Input(commit, judgement, OffsetOf(s.anchors, p), beat, x.paddleAngle, flags);
    sc.(source := Some(p), inputCommit := commit, page := Some(page),
        tapCursor := Some(cursor), sampleCursor := Some(x.sequence),
        scoreCursor := if changed then None else sc.scoreCursor)
  }

  /** Publishes the newest score not later than the sample beside it, unless it is already shown. */
  function PresentScore(sc: Screen, scores: seq<Score>, runTimeUs: nat): Screen {
    var score := LastScore(scores, runTimeUs);
    if sc.scorePage.None? || score.None? || sc.scoreCursor == Some(scores[score.value].sequence) then sc
    else ShowScore(sc, scores[score.value])
  }

  function Present(s: State, sc: Screen, slot: Slot, elapsedUs: nat, firstRelease: bool): Screen {
    if slot.participant.None? || sc.page.None? then sc
    else
      var p := slot.participant.value;
      var playhead := Playhead(s, p, elapsedUs);
      if playhead.None? then sc
      else PresentScore(PresentInput(s, sc, p, playhead.value, firstRelease), GetOr(s.scores, p, []),
          playhead.value.runTimeUs)
  }

  datatype Phase = Warmup(targetUs: nat) | Release(elapsedUs: nat, first: bool)

  function PaintScreen(s: State, slots: seq<Slot>, id: string, phase: Phase): Screen
    requires id in s.screens
  {
    var slot := FindSlot(slots, id);
    if slot.None? then s.screens[id]
    else
      match phase
      case Warmup(target) => Warm(s, s.screens[id], slot.value, target)
      case Release(elapsed, first) => Present(s, s.screens[id], slot.value, elapsed, first)
  }

  function Paint(s: State, slots: seq<Slot>, phase: Phase): (r: map<string, Screen>)
    ensures r.Keys == s.screens.Keys
  {
    map id | id in s.screens :: PaintScreen(s, slots, id, phase)
  }

  /** The state after anchors were resolved and the epoch re-evaluated, before anything is written. */
  ghost function Aligned(s: State, nowUs: nat): State
    requires Eligible(s) != []
  {
    var slots := Eligible(s);
    var anchors := ResolveAnchors(s, Cohort(slots));
    s.(anchors := anchors, epoch := NextEpoch(s.epoch, anchors, Cohort(slots), CommonDelay(slots), nowUs))
  }

  ghost predicate Releases(s: State, nowUs: nat) {
    Eligible(s) != [] && Aligned(s, nowUs).epoch.Some? && Aligned(s, nowUs).epoch.value.releaseAtUs <= nowUs
  }

  /** Once aligned, a tick before the release warms every slot; from the release on it presents. */
  function Finish(t: State, slots: seq<Slot>, nowUs: nat): State
    requires slots != []
  {
    if t.epoch.Some? && t.epoch.value.releaseAtUs <= nowUs then
      var e := t.epoch.value;
      t.(screens := Paint(t, slots, Release(nowUs - e.releaseAtUs, !e.released)), epoch := Some(e.(released := true)))
    else
      var delay := CommonDelay(slots);
      t.(screens := Paint(t, slots, Warmup(if nowUs < delay then 0 else nowUs - delay)))
  }

  ghost function Tick(s: State, nowUs: nat): State {
    if Eligible(s) == [] then s else Finish(Aligned(s, nowUs), Eligible(s), nowUs)
  }

  // ---- Runs ----

  datatype Op =
    | OpSample(p: string, b: Buffered)
    | OpAnchor(p: string, firstNoteBeat: real, inputOffsetMs: real)
    | OpTap(p: string, tap: Tap)
    | OpScore(p: string, score: Score)
    | OpBeginRun
    | OpConfigure(id: string, request: Request, frameMissing: bool, io: Io)
    | OpLaunch(id: string, io: Io)
    | OpLaunchAutoplay(inputOk: bool, spawnOk: bool)
    | OpStopAutoplay
    | OpStopSlot(id: string)
    | OpStopParticipant(p: string)
    | OpStopAll
    | OpTick(nowUs: nat)

  ghost function Step(s: State, op: Op): State {
    match op
    case OpSample(p, b) => PushSample(s, p, b)
    case OpAnchor(p, beat, offset) => PushAnchor(s, p, beat, offset)
    case OpTap(p, tap) => PushTap(s, p, tap)
    case OpScore(p, score) => PushScore(s, p, score)
    case OpBeginRun => BeginRun(s)
    case OpConfigure(id, r, frameMissing, io) => Configure(s, id, r, frameMissing, io)
    case OpLaunch(id, io) => Launch(s, id, io)
    case OpLaunchAutoplay(inputOk, spawnOk) => LaunchAutoplay(s, inputOk, spawnOk)
    case OpStopAutoplay => StopAutoplay(s)
    case OpStopSlot(id) => StopSlot(s, id)
    case OpStopParticipant(p) => StopParticipant(s, p)
    case OpStopAll => StopAll(s)
    case OpTick(nowUs) => Tick(s, nowUs)
  }

  ghost function Run(s: State, ops: seq<Op>): State
    decreases |ops|
  {
    if ops == [] then s else Run(Step(s, ops[0]), ops[1..])
  }
}
