/** The renderer manager as an object: its calls update the fields in place, and each one
    is proved to be the corresponding step of the presenter state machine. */
module Manager {
  import opened Wrappers
  import opened Presenter
  import opened PresenterInvariant

  predicate DistinctIds(slots: seq<Slot>) {
    forall j, k :: 0 <= j < k < |slots| ==> slots[j].id != slots[k].id
  }

  /** The first slot carrying an id is the slot itself when ids are distinct. */
  lemma FindsItself(slots: seq<Slot>, i: nat)
    requires i < |slots| && DistinctIds(slots)
    ensures FindSlot(slots, slots[i].id) == Some(slots[i])
  {
    var found := FindSlot(slots, slots[i].id);
    assert slots[i] in slots;
    var k :| 0 <= k < |slots| && slots[k] == found.value;
  }

  lemma {:induction false} LiveIdsDistinct(slots: seq<Slot>, awaiting: set<string>)
    requires DistinctIds(slots)
    ensures DistinctIds(LiveSlots(slots, awaiting))
  {
    if slots != [] {
      var rest := LiveSlots(slots[1..], awaiting);
      LiveIdsDistinct(slots[1..], awaiting);
      forall k | 0 <= k < |rest| ensures rest[k].id != slots[0].id {
        assert rest[k] in slots[1..];
        var m :| 0 <= m < |slots| - 1 && slots[1..][m] == rest[k];
        assert slots[m + 1] == rest[k];
      }
      assert DistinctIds([slots[0]] + rest);
    }
  }

  lemma EligibleIdsDistinct(s: State)
    requires SlotsOk(s.slots, s.screens.Keys)
    ensures DistinctIds(Eligible(s))
    ensures forall k :: 0 <= k < |Eligible(s)| ==> Eligible(s)[k].id in s.screens
  {
    var live := LiveSlots(s.slots, s.awaiting);
    assert DistinctIds(s.slots);
    LiveIdsDistinct(s.slots, s.awaiting);
    forall k | 0 <= k < |live| ensures live[k].id in s.screens && live[k].id != AUTOPLAY_SLOT {
      assert live[k] in s.slots;
    }
    hide LiveSlots, SlotsOk, FindFeatured;
  }

  /** The latest receipt is the only value that bounds all receipts and is one of them. */
  lemma LatestReceiptIsUnique(anchors: map<string, Anchor>, cohort: set<string>, m: nat)
    requires cohort != {} && Ready(anchors, cohort)
    requires forall p :: p in cohort ==> Receipt(anchors, p) <= m
    requires exists p :: p in cohort && Receipt(anchors, p) == m
    ensures m == LatestReceipt(anchors, cohort)
  {
  }

  lemma SkipConsumed(taps: seq<Tap>, i: nat, cursor: nat, beat: real)
    requires i < |taps|
    ensures var event := taps[i];
            ScanTaps(taps[i..], cursor, beat) ==
            if event.sequence <= cursor || event.beat > beat + 0.001 then ScanTaps(taps[i + 1..], cursor, beat)
            else if event.beat + 0.05 >= beat then (event.sequence, Some(event))
            else ScanTaps(taps[i + 1..], event.sequence, beat)
  {
    assert taps[i..][1..] == taps[i + 1..];
  }

  /** Evicts from the front until at most `cap` elements are left. */
  method EvictFront<T>(xs: seq<T>, cap: nat) returns (r: seq<T>)
    ensures r == Newest(xs, cap)
  {
    r := xs;
    while |r| > cap
      invariant |r| <= |xs| && r == xs[|xs| - |r|..] && (|r| >= cap || r == xs)
    {
      r := r[1..];
    }
  }

  method ContainsTap(buffer: seq<Tap>, sequence: nat) returns (found: bool)
    ensures found <==> HasTap(buffer, sequence)
  {
    for i := 0 to |buffer|
      invariant forall k :: 0 <= k < i ==> buffer[k].sequence != sequence
    {
      if buffer[i].sequence == sequence { return true; }
    }
    found := false;
  }

  /** The reliable-tap loop: consumes stale events and stops at the first due one. */
  method NextTap(events: seq<Tap>, start: nat, beat: real) returns (cursor: nat, due: Option<Tap>)
    ensures (cursor, due) == ScanTaps(events, start, beat)
  {
    cursor, due := start, None;
    for i := 0 to |events|
      invariant due.None? && ScanTaps(events[i..], cursor, beat) == ScanTaps(events, start, beat)
    {
      SkipConsumed(events, i, cursor, beat);
      var event := events[i];
      if event.sequence <= cursor || event.beat > beat + 0.001 { continue; }
      cursor := event.sequence;
      if event.beat + 0.05 >= beat {
        due := Some(event);
        return;
      }
    }
  }

  /** Publishes the input record for one sample: consumes taps, then falls back to new raw edges. */
  method PublishInput(s: State, before: Screen, p: string, x: Sample, firstRelease: bool) returns (sc: Screen)
    ensures sc == PresentInput(s, before, p, x, firstRelease)
  {
    hide ScanTaps, Baseline, NextCommit, OffsetOf;
    sc := before;
    var events := GetOr(s.taps, p, []);
    var changed := sc.source != Some(p);
    if changed {
      sc := sc.(source := Some(p), sampleCursor := None, scoreCursor := None,
          tapCursor := Some(Baseline(events, x.beat)));
    }
    var start := if sc.tapCursor.Some? then sc.tapCursor.value else 0;
    var cursor, tap := NextTap(events, start, x.beat);
    var sampleIsNew := sc.sampleCursor != Some(x.sequence);
    var pressed := tap.None? && sampleIsNew && x.flags.rawPressed;
    var released := tap.None? && sampleIsNew && x.flags.rawReleased;
    var beat := if firstRelease && p in s.anchors then s.anchors[p].firstNoteBeat else x.beat;
    var judgement := None;
    if tap.Some? { pressed, released, judgement := tap.value.pressed, tap.value.released,
        Some(tap.value.judgementBeat); }
    var flags := OutFlags(x.flags.playing, x.flags.paused, true, firstRelease || changed, pressed, released);
    var commit := NextCommit(sc.inputCommit);
    sc := sc.(tapCursor := Some(cursor), sampleCursor := Some(x.sequence), inputCommit := commit,
              page := Some(Input(commit, judgement, OffsetOf(s.anchors, p), beat, x.paddleAngle, flags)));
  }

  /** Presents one slot after the release: moves its cursors and publishes its pages. */
  method PresentScreen(s: State, before: Screen, slot: Slot, elapsedUs: nat, firstRelease: bool) returns (sc: Screen)
    ensures sc == Present(s, before, slot, elapsedUs, firstRelease)
  {
    hide Playhead, LastScore, ShowScore, PresentInput;
    sc := before;
    if slot.participant.None? { return; }
    var p := slot.participant.value;
    var playhead := Playhead(s, p, elapsedUs);
    if playhead.None? || sc.page.None? { return; }
    var x := playhead.value;
    sc := PublishInput(s, sc, p, x, firstRelease);
    var states := GetOr(s.scores, p, []);
    var score := LastScore(states, x.runTimeUs);
    if sc.scorePage.Some? && score.Some? && sc.scoreCursor != Some(states[score.value].sequence) {
      sc := ShowScore(sc, states[score.value]);
    }
  }

  /** The new slot table, screens and epoch of one configuration request. */
  method Reconfigure(s: State, id: string, r: Request, frameMissing: bool, io: Io)
    returns (slots: seq<Slot>, screens: map<string, Screen>, epoch: Option<Epoch>, ok: bool)
    requires IndexOf(s.slots, id).Some? ==> id in s.screens
    ensures s.(slots := slots, screens := screens, epoch := epoch) == Configure(s, id, r, frameMissing, io)
    ensures !ok ==> slots == s.slots
  {
    hide ResetPages, Candidate, RenderChanged, ValidRequest, IndexOf, DropCursors, Unfeature;
    slots, screens, epoch, ok := s.slots, s.screens, s.epoch, false;
    var index := IndexOf(slots, id);
    if index.None? || !ValidRequest(r) { return; }
    var i := index.value;
    var configured := Candidate(slots[i], r);
    var changed := RenderChanged(slots[i], configured);
    var sc := screens[id];
    if changed {
      sc := DropCursors(sc);
      epoch := None;
    }
    if changed || frameMissing { sc := ResetPages(sc, io); }
    screens := screens[id := sc];
    if (changed || frameMissing) && io != IoOk { return; }
    if r.featured == Some(true) {
      slots := Unfeature(slots);
      configured := configured.(featured := true);
    }
    slots := slots[i := configured];
    ok := true;
  }

  method StopEach(slots: seq<Slot>) returns (r: seq<Slot>)
    ensures r == Stopped(slots)
  {
    r := slots;
    for i := 0 to |slots|
      invariant |r| == |slots|
      invariant forall k :: 0 <= k < |r|
                 ==> r[k] == if k < i then slots[k].(participant := None, active := false) else slots[k]
    {
      r := r[i := r[i].(participant := None, active := false)];
    }
  }

  lemma DistinctFrom(slots: seq<Slot>, i: nat)
    requires DistinctIds(slots) && i < |slots|
    ensures forall k :: 0 <= k < i ==> slots[k].id != slots[i].id
  {
  }

  class RendererManager {
    var slots: seq<Slot>
    var samples: map<string, seq<Buffered>>
    var anchors: map<string, Anchor>
    var taps: map<string, seq<Tap>>
    var scores: map<string, seq<Score>>
    var screens: map<string, Screen>
    var awaiting: set<string>
    var epoch: Option<Epoch>
    var autoplay: bool

    function View(): State
      reads this
    {
      State(slots, samples, anchors, taps, scores, screens, awaiting, epoch, autoplay)
    }

    ghost predicate Valid()
      reads this
    {
      Inv(View())
    }

    constructor ()
      ensures Valid() && View() == InitState()
    {
      slots := [DefaultSlot("A", true), DefaultSlot("B", false), DefaultSlot("C", false), DefaultSlot("D", false)];
      samples, anchors, taps, scores := map[], map[], map[], map[];
      screens := map["A" := BLANK, "B" := BLANK, "C" := BLANK, "D" := BLANK, AUTOPLAY_SLOT := BLANK];
      awaiting, epoch, autoplay := {}, None, false;
      new;
      InitHasInv();
    }

    method PushSampleAt(p: string, b: Buffered)
      requires Valid()
      modifies this`samples
      ensures Valid() && View() == PushSample(old(View()), p, b)
    {
      hide Inv, Newest, HasTap;
      PushSampleKeepsInv(View(), p, b);
      var buffer := GetOr(samples, p, []);
      if buffer != [] && b.sample.sequence <= buffer[|buffer| - 1].sample.sequence { return; }
      buffer := EvictFront(buffer + [b], MAX_RENDER_SAMPLES);
      samples := samples[p := buffer];
    }

    method PushRenderAnchor(p: string, firstNoteBeat: real, inputOffsetMs: real)
      requires Valid()
      modifies this`anchors, this`epoch
      ensures Valid() && View() == PushAnchor(old(View()), p, firstNoteBeat, inputOffsetMs)
    {
      AnchorKeepsInv(View(), p, firstNoteBeat, inputOffsetMs);
      anchors := anchors[p := Anchor(firstNoteBeat, inputOffsetMs, None)];
      epoch := None;
    }

    method PushRenderTap(p: string, tap: Tap)
      requires Valid()
      modifies this`taps
      ensures Valid() && View() == PushTap(old(View()), p, tap)
    {
      hide Inv, Newest, HasTap;
      PushTapKeepsInv(View(), p, tap);
      if !tap.pressed && !tap.released { return; }
      var buffer := GetOr(taps, p, []);
      var duplicate := ContainsTap(buffer, tap.sequence);
      if duplicate { return; }
      buffer := EvictFront(buffer + [tap], MAX_RENDER_TAPS);
      taps := taps[p := buffer];
    }

    method PushScoreState(p: string, score: Score)
      requires Valid()
      modifies this`scores
      ensures Valid() && View() == PushScore(old(View()), p, score)
    {
      hide Inv, Newest, HasTap;
      PushScoreKeepsInv(View(), p, score);
      if score.accuracy < 0.0 || score.accuracy > 100.0 { return; }
      var buffer := GetOr(scores, p, []);
      if buffer != [] && score.sequence <= buffer[|buffer| - 1].sequence { return; }
      buffer := EvictFront(buffer + [score], MAX_RENDER_SCORES);
      scores := scores[p := buffer];
    }

    method BeginNewRun()
      requires Valid()
      modifies this
      ensures Valid() && View() == BeginRun(old(View()))
    {
      BeginRunKeepsInv(View());
      hide Inv, FreshScreen;
      samples, anchors, taps, scores := map[], map[], map[], map[];
      awaiting, epoch := {}, None;
      screens := map id | id in screens :: FreshScreen(screens[id]);
    }

    /** Validates a complete candidate before publishing any field; `ok` is false when it is
        rejected or a page cannot be reset, and then the slots are untouched. */
    method ConfigureSlot(id: string, r: Request, frameMissing: bool, io: Io) returns (ok: bool)
      requires Valid()
      modifies this`slots, this`screens, this`epoch
      ensures Valid() && View() == Configure(old(View()), id, r, frameMissing, io)
      ensures !ok ==> slots == old(slots)
    {
      if IndexOf(slots, id).Some? { KnownIdHasScreen(View(), id); }
      ConfigureKeepsInv(View(), id, r, frameMissing, io);
      hide Inv, Configure;
      slots, screens, epoch, ok := Reconfigure(View(), id, r, frameMissing, io);
    }

    method LaunchSlot(id: string, io: Io)
      requires Valid()
      modifies this`awaiting, this`screens
      ensures Valid() && View() == Launch(old(View()), id, io)
    {
      LaunchKeepsInv(View(), id, io);
      var index := IndexOf(slots, id);
      if index.None? || !slots[index.value].active { return; }
      awaiting := awaiting + {id};
      screens := screens[id := ResetPages(screens[id], io)];
    }

    method LaunchAutoplayMix(inputOk: bool, spawnOk: bool)
      requires Valid()
      modifies this`awaiting, this`screens, this`autoplay
      ensures Valid() && View() == LaunchAutoplay(old(View()), inputOk, spawnOk)
    {
      LaunchAutoplayKeepsInv(View(), inputOk, spawnOk);
      if FindFeatured(ActiveSlots(slots)).None? { return; }
      awaiting := awaiting + {AUTOPLAY_SLOT};
      screens := screens[AUTOPLAY_SLOT := ResetInput(screens[AUTOPLAY_SLOT], inputOk)];
      if inputOk && spawnOk { autoplay := true; }
    }

    method DisableAutoplay()
      requires Valid()
      modifies this`awaiting, this`screens, this`autoplay, this`epoch
      ensures Valid() && View() == StopAutoplay(old(View()))
    {
      StopAllKeepsInv(View());
      screens := screens[AUTOPLAY_SLOT := screens[AUTOPLAY_SLOT].(page := None, source := None, tapCursor := None,
          sampleCursor := None)];
      awaiting := awaiting - {AUTOPLAY_SLOT};
      autoplay, epoch := false, None;
    }

    method StopOneSlot(id: string)
      requires Valid()
      modifies this`slots, this`screens, this`awaiting, this`epoch
      ensures Valid() && View() == StopSlot(old(View()), id)
    {
      StopSlotKeepsInv(View(), id);
      var index := IndexOf(slots, id);
      if index.None? { return; }
      slots := slots[index.value := slots[index.value].(participant := None, active := false)];
      screens := screens[id := DropCursors(screens[id])];
      awaiting := awaiting - {id};
      epoch := None;
    }

    method StopOneParticipant(p: string)
      requires Valid()
      modifies this
      ensures Valid() && View() == StopParticipant(old(View()), p)
    {
      StopParticipantKeepsInv(View(), p);
      var ids := IdsShowing(slots, p);
      ghost var before := View();
      for i := 0 to |ids|
        invariant Valid() && StopSlots(View(), ids[i..]) == StopSlots(before, ids)
      {
        assert ids[i..][0] == ids[i] && ids[i..][1..] == ids[i + 1..];
        StopOneSlot(ids[i]);
      }
      samples, anchors, taps, scores := samples - {p}, anchors - {p}, taps - {p}, scores - {p};
    }

    /** Every slot is stopped and everything buffered, mapped or remembered is dropped. */
    method StopEverything()
      requires Valid()
      modifies this
      ensures Valid() && View() == StopAll(old(View()))
    {
      hide Inv, Stopped;
      StopAllKeepsInv(View());
      slots := StopEach(slots);
      samples, anchors, taps, scores := map[], map[], map[], map[];
      screens := map id | id in screens :: BLANK;
      awaiting, epoch, autoplay := {}, None, false;
    }

    /** Resolves the first note of every cohort member whose anchor is still open, and
        reports whether all are resolved and the latest receipt among those that are. */
    method ResolveCohort(cohort: set<string>) returns (ready: bool, latest: nat)
      requires Valid()
      modifies this`anchors
      ensures anchors == ResolveAnchors(old(View()), cohort)
      ensures ready <==> Ready(anchors, cohort)
      ensures ready && cohort != {} ==> latest == LatestReceipt(anchors, cohort)
    {
      ready, latest := true, 0;
      var before, buffers := anchors, samples;
      var resolved := before;
      var done: set<string> := {};
      while cohort - done != {}
        invariant done <= cohort
        invariant resolved.Keys == before.Keys
        invariant forall p :: p in before
                   ==> resolved[p] == if p in done then ResolveAnchor(before[p], GetOr(buffers, p, [])) else before[p]
        invariant ready <==> Ready(resolved, done)
        invariant forall p :: p in done && Resolved(resolved, p) ==> Receipt(resolved, p) <= latest
        invariant latest == 0 || exists p :: p in done && Resolved(resolved, p) && Receipt(resolved, p) == latest
        decreases cohort - done
      {
        var p :| p in cohort - done;
        done := done + {p};
        if p in before {
          resolved := resolved[p := ResolveAnchor(before[p], GetOr(buffers, p, []))];
          if resolved[p].origin.Some? {
            if latest < Receipt(resolved, p) { latest := Receipt(resolved, p); }
          } else {
            ready := false;
          }
        } else {
          ready := false;
        }
      }
      assert forall p :: p in cohort ==> p in cohort - done || p in done;
      assert done == cohort;
      anchors := resolved;
      if ready && cohort != {} {
        var p :| p in cohort;
        LatestReceiptIsUnique(anchors, cohort, latest);
      }
    }

    /** Paints every eligible slot once; the others keep their screens. */
    method PaintSlots(eligible: seq<Slot>, phase: Phase)
      requires DistinctIds(eligible)
      requires forall k :: 0 <= k < |eligible| ==> eligible[k].id in screens
      modifies this`screens
      ensures screens == Paint(old(View()), eligible, phase)
    {
      var s := View();
      var painted := screens;
      for i := 0 to |eligible|
        invariant painted.Keys == s.screens.Keys
        invariant forall k :: 0 <= k < i ==> painted[eligible[k].id] == PaintScreen(s, eligible, eligible[k].id, phase)
        invariant forall id :: id in painted && (forall k :: 0 <= k < i ==> eligible[k].id != id)
                   ==> painted[id] == s.screens[id]
      {
        hide Warm, Present, DistinctIds, FindSlot;
        var slot := eligible[i];
        FindsItself(eligible, i);
        DistinctFrom(eligible, i);
        var sc := painted[slot.id];
        match phase {
          case Warmup(targetUs) => sc := Warm(s, sc, slot, targetUs);
          case Release(elapsedUs, first) => sc := PresentScreen(s, sc, slot, elapsedUs, first);
        }
        painted := painted[slot.id := sc];
      }
      forall id | id in painted ensures painted[id] == PaintScreen(s, eligible, id, phase) {
        hide Warm, Present, DistinctIds;
        var found := FindSlot(eligible, id);
        if found.Some? {
          var k :| 0 <= k < |eligible| && eligible[k] == found.value;
        }
      }
      screens := painted;
    }

    /** Resolves the cohort's first notes and re-evaluates the epoch. */
    method AlignEpoch(eligible: seq<Slot>, nowUs: nat)
      requires Valid() && eligible != [] && eligible == Eligible(View())
      modifies this`anchors, this`epoch
      ensures View() == Aligned(old(View()), nowUs)
    {
      hide Inv, Eligible, Cohort, CommonDelay, LatestReceipt, ResolveAnchors, Ready;
      var cohort := Cohort(eligible);
      var ready, latest := ResolveCohort(cohort);
      if epoch.Some? && epoch.value.participants != cohort { epoch := None; }
      if epoch.None? && ready {
        epoch := Some(Epoch(cohort, (if cohort == {} then nowUs else latest) + CommonDelay(eligible), false));
      }
    }

    method FinishTick(eligible: seq<Slot>, nowUs: nat)
      requires eligible != [] && DistinctIds(eligible)
      requires forall k :: 0 <= k < |eligible| ==> eligible[k].id in screens
      modifies this`epoch, this`screens
      ensures View() == Finish(old(View()), eligible, nowUs)
    {
      hide CommonDelay, Paint, DistinctIds;
      if epoch.None? || nowUs < epoch.value.releaseAtUs {
        var delayUs := CommonDelay(eligible);
        PaintSlots(eligible, Warmup(if nowUs < delayUs then 0 else nowUs - delayUs));
      } else {
        PaintSlots(eligible, Release(nowUs - epoch.value.releaseAtUs, !epoch.value.released));
        epoch := Some(epoch.value.(released := true));
      }
    }

    /** One tick of the delayed presenter. */
    method WriteAlignedInputs(nowUs: nat)
      requires Valid()
      modifies this`anchors, this`epoch, this`screens
      ensures Valid() && View() == Tick(old(View()), nowUs)
    {
      TickKeepsInv(View(), nowUs);
      EligibleIdsDistinct(View());
      hide Inv, Eligible, Aligned, DistinctIds, Finish;
      var eligible := Eligible(View());
      if eligible == [] { return; }
      AlignEpoch(eligible, nowUs);
      FinishTick(eligible, nowUs);
    }
  }
}
