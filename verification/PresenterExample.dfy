/** A run from the initial state in which AUTOPLAY is handed over with its cursor and a due tap is lost. */
module PresenterExample {
  import opened Wrappers
  import opened Presenter
  import opened PresenterInvariant
  import opened PresenterTheorems
  import opened PresenterCursors
  import opened PresenterTaps
  import opened PresenterPassing
  import opened PresenterHandover

  // ---- Runs in pieces ----

  lemma {:induction false} RunSplits(s: State, ops: seq<Op>, rest: seq<Op>)
    ensures Run(s, ops + rest) == Run(Run(s, ops), rest)
    decreases |ops|
  {
    hide Step;
    if ops == [] {
      assert ops + rest == rest;
    } else {
      assert (ops + rest)[1..] == ops[1..] + rest;
      RunSplits(Step(s, ops[0]), ops[1..], rest);
    }
  }

  lemma RunOne(s: State, a: Op)
    ensures Run(s, [a]) == Step(s, a)
  {
    hide Step;
    assert [a][1..] == [];
  }

  lemma RunTwo(s: State, a: Op, b: Op)
    ensures Run(s, [a, b]) == Step(Step(s, a), b)
  {
    hide Step, Run;
    assert [a, b] == [a] + [b];
    RunSplits(s, [a], [b]);
    RunOne(s, a);
    RunOne(Step(s, a), b);
  }

  lemma RunThree(s: State, a: Op, b: Op, c: Op)
    ensures Run(s, [a, b, c]) == Step(Step(Step(s, a), b), c)
  {
    hide Step, Run;
    assert [a, b, c] == [a, b] + [c];
    RunSplits(s, [a, b], [c]);
    RunTwo(s, a, b);
    RunOne(Step(Step(s, a), b), c);
  }

  // ---- One featured slot and AUTOPLAY ----

  function SlotA(who: string): Slot { Slot("A", Some(who), true, true, 0, 1280, 720, 60, 500) }

  function Slots(who: string): seq<Slot> {
    [SlotA(who), DefaultSlot("B", false), DefaultSlot("C", false), DefaultSlot("D", false)]
  }

  /** A screen that is mapped, with its source and tap cursor. */
  predicate At(sc: Screen, source: Option<string>, cursor: Option<nat>) {
    sc.page.Some? && sc.source == source && sc.tapCursor == cursor
  }

  /** Slot A shows `who`, is featured, and AUTOPLAY runs. */
  predicate Scene(s: State, who: string, sourceA: Option<string>, cursorA: Option<nat>, source: Option<string>,
                  cursor: Option<nat>) {
    && s.slots == Slots(who) && s.autoplay && s.awaiting == {}
    && "A" in s.screens && At(s.screens["A"], sourceA, cursorA)
    && AUTOPLAY_SLOT in s.screens && At(s.screens[AUTOPLAY_SLOT], source, cursor)
  }

  lemma {:induction false} NoneLive(slots: seq<Slot>)
    requires forall slot :: slot in slots ==> !slot.active
    ensures LiveSlots(slots, {}) == []
  {
    if slots != [] { NoneLive(slots[1..]); }
  }

  lemma SceneSlots(s: State, who: string)
    requires s.slots == Slots(who) && s.autoplay && s.awaiting == {}
    ensures var auto := SlotA(who).(id := AUTOPLAY_SLOT, featured := false);
            && Eligible(s) == [SlotA(who), auto] && FindSlot(Eligible(s), "A") == Some(SlotA(who))
            && FindSlot(Eligible(s), AUTOPLAY_SLOT) == Some(auto)
            && Cohort(Eligible(s)) == {who} && CommonDelay(Eligible(s)) == 500_000
  {
    var slots, auto := Slots(who), SlotA(who).(id := AUTOPLAY_SLOT, featured := false);
    NoneLive(slots[1..]);
    assert LiveSlots(slots, {}) == [SlotA(who)];
    var eligible := [SlotA(who), auto];
    assert Eligible(s) == eligible && eligible[1..] == [auto];
    assert FindSlot([auto], AUTOPLAY_SLOT) == Some(auto);
    assert SlotA(who) in eligible;
  }

  // ---- The run ----

  function Follow(who: string): Op {
    OpConfigure("A", Request(Some(who), None, None, None, None, None, None), false, IoOk)
  }

  const PLAYING := Flags(true, false, false, false)
  const P_NOTE := Buffered(Sample(1, 0, 0.0, 0.0, PLAYING), 0)
  const P_TAP := Tap(5, 0.0, 0.0, true, false)
  const Q_EARLY := Buffered(Sample(1, 0, 0.0, 0.0, PLAYING), 600_000)
  const Q_NOTE := Buffered(Sample(2, 100_000, 1.0, 0.0, PLAYING), 700_000)
  const Q_TAP := Tap(1, 1.0, 1.0, true, false)

  /** Slot A follows p, AUTOPLAY is launched, and a run begins. */
  function Opening(): seq<Op> { [Follow("p"), OpLaunchAutoplay(true, true), OpBeginRun] }

  /** p reaches its first note with a tap; the tick at its release presents both. */
  function FirstShow(): seq<Op> {
    [OpAnchor("p", 0.0, 0.0), OpSample("p", P_NOTE), OpTap("p", P_TAP)] + [OpTick(500_000)]
  }

  /** The featured slot moves to q, which reaches its first note with a tap; one tick ahead of the release. */
  function Handover(): seq<Op> {
    [Follow("q"), OpAnchor("q", 1.0, 0.0), OpSample("q", Q_EARLY)] + [OpSample("q", Q_NOTE), OpTap("q", Q_TAP)]
      + [OpTick(1_150_000)]
  }

  /** Moving slot A to another participant drops its cursors and the epoch and touches nothing else. */
  lemma FollowResult(s: State, slot: Slot, who: string)
    requires s.slots == Slots("")[0 := slot] && slot.participant != Some(who) && who != ""
    requires slot == SlotA("").(participant := slot.participant, active := slot.active) && "A" in s.screens
    ensures var t := Step(s, Follow(who));
            && t.slots == Slots(who) && t.epoch == None
            && t == s.(slots := t.slots, epoch := None, screens := t.screens)
            && t.screens.Keys == s.screens.Keys && At(t.screens["A"], None, None)
            && forall id :: id in s.screens && id != "A" ==> t.screens[id] == s.screens[id]
  {
    assert IndexOf(s.slots, "A") == Some(0);
    assert Step(s, Follow(who)).slots == s.slots[0 := SlotA(who)] == Slots(who);
  }

  lemma FeaturedIsFound(slots: seq<Slot>, slot: Slot)
    requires slot in slots && slot.featured
    ensures FindFeatured(slots).Some?
  {
  }

  lemma AutoplayLaunches(s: State, who: string)
    requires s.slots == Slots(who) && AUTOPLAY_SLOT in s.screens
    ensures var t := Step(s, OpLaunchAutoplay(true, true));
            && t == s.(autoplay := true, awaiting := t.awaiting, screens := t.screens)
            && t.screens == s.screens[AUTOPLAY_SLOT := s.screens[AUTOPLAY_SLOT].(page := Some(ZeroInput))]
  {
    assert SlotA(who) in ActiveSlots(s.slots);
    FeaturedIsFound(ActiveSlots(s.slots), SlotA(who));
  }

  lemma OpeningScene()
    ensures var s := Run(InitState(), Opening());
            && Scene(s, "p", None, None, None, None)
            && s.samples == map[] && s.anchors == map[] && s.taps == map[] && s.epoch == None
  {
    hide Run, Configure, LaunchAutoplay;
    RunThree(InitState(), Follow("p"), OpLaunchAutoplay(true, true), OpBeginRun);
    assert InitState().slots == Slots("")[0 := DefaultSlot("A", true)];
    FollowResult(InitState(), DefaultSlot("A", true), "p");
    AutoplayLaunches(Step(InitState(), Follow("p")), "p");
  }

  /** A tick changes anchors, epoch and screens, and keeps the set of screens. */
  lemma TickFrame(s: State, nowUs: nat)
    ensures var t := Tick(s, nowUs);
            && t == s.(anchors := t.anchors, epoch := t.epoch, screens := t.screens)
            && t.anchors.Keys == s.anchors.Keys && t.screens.Keys == s.screens.Keys
  {
    hide Eligible, Cohort, CommonDelay, NextEpoch, Paint, ResolveAnchors;
    if Eligible(s) != [] {
      var u, t := Aligned(s, nowUs), Tick(s, nowUs);
      assert u == s.(anchors := u.anchors, epoch := u.epoch) && t == u.(screens := t.screens, epoch := t.epoch);
    }
  }

  /** Once the only participant's first note has arrived, the epoch is fixed to its receipt plus the delay. */
  lemma AlignScene(s: State, nowUs: nat, who: string, b: Buffered)
    requires s.slots == Slots(who) && s.autoplay && s.awaiting == {} && s.epoch == None
    requires who in s.anchors && s.anchors[who].origin == None
    requires FirstNote(GetOr(s.samples, who, []), s.anchors[who].firstNoteBeat) == Some(b)
    ensures Eligible(s) != []
    ensures var t := Aligned(s, nowUs); var origin := Some(Origin(b.sample.runTimeUs, b.receivedAtUs));
            && t == s.(anchors := s.anchors[who := s.anchors[who].(origin := origin)], epoch := t.epoch)
            && t.epoch == Some(Epoch({who}, b.receivedAtUs + 500_000, false))
  {
    hide Eligible, FirstNote, CommonDelay, LatestReceipt, FindSlot;
    SceneSlots(s, who);
    var anchors := ResolveAnchors(s, {who});
    assert anchors == s.anchors[who := ResolveAnchor(s.anchors[who], GetOr(s.samples, who, []))];
    assert LatestReceipt(anchors, {who}) == b.receivedAtUs;
  }

  /** The same for an epoch that is already fixed. */
  lemma KeptScene(s: State, nowUs: nat, who: string)
    requires s.slots == Slots(who) && s.autoplay && s.awaiting == {}
    requires s.epoch.Some? && s.epoch.value.participants == {who} && Resolved(s.anchors, who)
    ensures Eligible(s) != [] && Aligned(s, nowUs) == s
  {
    hide Eligible, FirstNote, CommonDelay, LatestReceipt, FindSlot;
    SceneSlots(s, who);
    assert ResolveAnchors(s, {who}) == s.anchors;
  }

  /** What both screens show at a release in this scene. */
  lemma ScenePresents(s: State, nowUs: nat, who: string, x: Sample, sourceA: Option<string>, cursorA: Option<nat>,
                      source: Option<string>, cursor: Option<nat>)
    requires Scene(s, who, sourceA, cursorA, source, cursor) && Releases(s, nowUs) && Shown(s, nowUs, who) == Some(x)
    ensures Presents(s, nowUs, "A", who, x) && Presents(s, nowUs, AUTOPLAY_SLOT, who, x)
  {
    hide Eligible, FindSlot, Releases, Shown;
    SceneSlots(s, who);
  }

  /** What both screens stand on after a warm-up in this scene. */
  lemma SceneWarms(s: State, nowUs: nat, who: string, x: Sample, sourceA: Option<string>, cursorA: Option<nat>,
                   source: Option<string>, cursor: Option<nat>)
    requires Scene(s, who, sourceA, cursorA, source, cursor) && !Releases(s, nowUs) && nowUs >= 500_000
    requires LastReceived(GetOr(s.samples, who, []), nowUs - 500_000) == Some(x)
    ensures Scene(Tick(s, nowUs), who, Some(who), cursorA, Some(who), cursor)
  {
    hide Eligible, FindSlot, CommonDelay, Cohort, NextEpoch, ResolveAnchors, LastReceived;
    SceneSlots(s, who);
    TickFrame(s, nowUs);
  }

  lemma SamplePushed(s: State, p: string, b: Buffered)
    requires |GetOr(s.samples, p, [])| < 10
    requires var buffer := GetOr(s.samples, p, []);
             buffer == [] || buffer[|buffer| - 1].sample.sequence < b.sample.sequence
    ensures Step(s, OpSample(p, b)) == s.(samples := s.samples[p := GetOr(s.samples, p, []) + [b]])
  {
  }

  lemma TapPushed(s: State, p: string, tap: Tap)
    requires p !in s.taps && tap.pressed
    ensures Step(s, OpTap(p, tap)) == s.(taps := s.taps[p := [tap]])
  {
  }

  // ---- The first participant ----

  lemma FirstPushes(s: State)
    requires s.samples == map[] && s.anchors == map[] && s.taps == map[] && s.epoch == None
    ensures var t := Run(s, [OpAnchor("p", 0.0, 0.0), OpSample("p", P_NOTE), OpTap("p", P_TAP)]);
            t == s.(anchors := map["p" := Anchor(0.0, 0.0, None)], samples := map["p" := [P_NOTE]],
                    taps := map["p" := [P_TAP]])
  {
    hide Run, PushSample, PushTap;
    RunThree(s, OpAnchor("p", 0.0, 0.0), OpSample("p", P_NOTE), OpTap("p", P_TAP));
    var s1 := Step(s, OpAnchor("p", 0.0, 0.0));
    SamplePushed(s1, "p", P_NOTE);
    assert GetOr(s1.samples, "p", []) + [P_NOTE] == [P_NOTE];
    TapPushed(Step(s1, OpSample("p", P_NOTE)), "p", P_TAP);
  }

  lemma FirstRelease(s: State)
    requires Scene(s, "p", None, None, None, None) && s.epoch == None
    requires s.anchors == map["p" := Anchor(0.0, 0.0, None)] && s.samples == map["p" := [P_NOTE]]
      && s.taps == map["p" := [P_TAP]]
    ensures var t := Tick(s, 500_000);
            && Scene(t, "p", Some("p"), Some(5), Some("p"), Some(5))
            && t.samples.Keys == t.anchors.Keys == t.taps.Keys == {"p"}
  {
    hide Tick, Aligned, Eligible, FindSlot, Source, LastReached, Baseline, ScanTaps;
    AlignScene(s, 500_000, "p", P_NOTE);
    FirstIsReached(Aligned(s, 500_000));
    ScenePresents(s, 500_000, "p", P_NOTE.sample, None, None, None, None);
    PresentedScreen(s, 500_000, "A", "p", P_NOTE.sample);
    PresentedScreen(s, 500_000, AUTOPLAY_SLOT, "p", P_NOTE.sample);
    FirstTapIsDue();
    TickFrame(s, 500_000);
  }

  lemma FirstIsReached(s: State)
    requires s.samples == map["p" := [P_NOTE]] && Resolved(s.anchors, "p")
    requires s.anchors["p"].origin.value.sourceUs == 0
    ensures Playhead(s, "p", 0) == Some(P_NOTE.sample)
  {
    assert LastReached([P_NOTE], 0) == Some(0);
  }

  lemma FirstShowScene(s: State)
    requires Scene(s, "p", None, None, None, None)
    requires s.samples == map[] && s.anchors == map[] && s.taps == map[] && s.epoch == None
    ensures var t := Run(s, FirstShow());
            && Scene(t, "p", Some("p"), Some(5), Some("p"), Some(5))
            && t.samples.Keys == t.anchors.Keys == t.taps.Keys == {"p"}
  {
    hide Run, Tick, At;
    var pushes := [OpAnchor("p", 0.0, 0.0), OpSample("p", P_NOTE), OpTap("p", P_TAP)];
    RunSplits(s, pushes, [OpTick(500_000)]);
    FirstPushes(s);
    RunOne(Run(s, pushes), OpTick(500_000));
    FirstRelease(Run(s, pushes));
  }

  lemma FirstTapIsDue()
    ensures Baseline([P_TAP], 0.0) == 0 && ScanTaps([P_TAP], 0, 0.0) == (5, Some(P_TAP))
  {
    assert [P_TAP][..0] == [];
  }

  // ---- The second participant ----

  lemma SecondPushes(s: State)
    requires Scene(s, "p", Some("p"), Some(5), Some("p"), Some(5))
    requires s.samples.Keys == s.anchors.Keys == s.taps.Keys == {"p"}
    ensures var t := Run(s, [Follow("q"), OpAnchor("q", 1.0, 0.0), OpSample("q", Q_EARLY)]);
            && Scene(t, "q", None, None, Some("p"), Some(5)) && t.epoch == None
            && t.samples.Keys == {"p", "q"} && t.samples["q"] == [Q_EARLY]
            && t.anchors.Keys == {"p", "q"} && t.anchors["q"] == Anchor(1.0, 0.0, None) && t.taps.Keys == {"p"}
  {
    hide Run, Configure, PushSample;
    RunThree(s, Follow("q"), OpAnchor("q", 1.0, 0.0), OpSample("q", Q_EARLY));
    assert s.slots == Slots("")[0 := SlotA("p")];
    FollowResult(s, SlotA("p"), "q");
    SamplePushed(Step(Step(s, Follow("q")), OpAnchor("q", 1.0, 0.0)), "q", Q_EARLY);
  }

  lemma ThirdPushes(s: State)
    requires Scene(s, "q", None, None, Some("p"), Some(5)) && s.epoch == None
    requires s.samples.Keys == {"p", "q"} && s.samples["q"] == [Q_EARLY] && s.taps.Keys == {"p"}
    ensures var t := Run(s, [OpSample("q", Q_NOTE), OpTap("q", Q_TAP)]);
            && t == s.(samples := s.samples["q" := [Q_EARLY, Q_NOTE]], taps := s.taps["q" := [Q_TAP]])
  {
    hide Run, PushSample, PushTap, Scene;
    RunTwo(s, OpSample("q", Q_NOTE), OpTap("q", Q_TAP));
    SamplePushed(s, "q", Q_NOTE);
    TapPushed(Step(s, OpSample("q", Q_NOTE)), "q", Q_TAP);
    assert [Q_EARLY] + [Q_NOTE] == [Q_EARLY, Q_NOTE];
  }

  /** AUTOPLAY stands on q with p's cursor, ahead of q's release. */
  predicate Handed(s: State) {
    && Scene(s, "q", Some("q"), None, Some("q"), Some(5))
    && "q" in s.samples && s.samples["q"] == [Q_EARLY, Q_NOTE] && "q" in s.taps && s.taps["q"] == [Q_TAP]
    && "q" in s.anchors && s.anchors["q"] == Anchor(1.0, 0.0, Some(Origin(100_000, 700_000)))
    && s.epoch == Some(Epoch({"q"}, 1_200_000, false))
  }

  lemma NotesOfSecond()
    ensures FirstNote([Q_EARLY, Q_NOTE], 1.0) == Some(Q_NOTE)
    ensures LastReceived([Q_EARLY, Q_NOTE], 650_000) == Some(Q_EARLY.sample)
    ensures LastReached([Q_EARLY, Q_NOTE], 100_000) == Some(1)
    ensures ScanTaps([Q_TAP], 5, 1.0) == (5, None) && ScanTaps([Q_TAP], 0, 1.0) == (1, Some(Q_TAP))
  {
    assert [Q_EARLY, Q_NOTE][1..] == [Q_NOTE] && [Q_EARLY, Q_NOTE][..1] == [Q_EARLY];
    assert [Q_TAP][1..] == [];
  }

  lemma HandoverScene(s: State)
    requires Scene(s, "p", Some("p"), Some(5), Some("p"), Some(5))
    requires s.samples.Keys == s.anchors.Keys == s.taps.Keys == {"p"}
    ensures Handed(Run(s, Handover()))
  {
    hide Run, Tick, At, FirstNote, LastReceived, LastReached, ScanTaps;
    var one := [Follow("q"), OpAnchor("q", 1.0, 0.0), OpSample("q", Q_EARLY)];
    var two := [OpSample("q", Q_NOTE), OpTap("q", Q_TAP)];
    RunSplits(s, one + two, [OpTick(1_150_000)]);
    RunSplits(s, one, two);
    SecondPushes(s);
    ThirdPushes(Run(s, one));
    var u := Run(Run(s, one), two);
    RunOne(u, OpTick(1_150_000));
    WarmsOver(u);
  }

  lemma WarmsOver(s: State)
    requires Scene(s, "q", None, None, Some("p"), Some(5)) && s.epoch == None
    requires "q" in s.samples && s.samples["q"] == [Q_EARLY, Q_NOTE] && "q" in s.taps && s.taps["q"] == [Q_TAP]
    requires "q" in s.anchors && s.anchors["q"] == Anchor(1.0, 0.0, None)
    ensures Handed(Tick(s, 1_150_000))
  {
    hide Aligned, Eligible, FindSlot, Paint, CommonDelay, FirstNote, LastReceived;
    NotesOfSecond();
    AlignScene(s, 1_150_000, "q", Q_NOTE);
    SceneWarms(s, 1_150_000, "q", Q_EARLY.sample, None, None, Some("p"), Some(5));
    TickFrame(s, 1_150_000);
  }

  /** From the initial state: AUTOPLAY has shown p's tap 5, the featured slot moves to q, and a warm-up hands
      AUTOPLAY over. At q's release, q's tap 1 is due and slot A emits it, while AUTOPLAY takes it for
      consumed; as long as its cursor is kept, AUTOPLAY never emits it. */
  lemma HandoverLosesTap()
    ensures var s := Run(InitState(), Opening() + FirstShow() + Handover());
            && Presents(s, 1_200_000, AUTOPLAY_SLOT, "q", Q_NOTE.sample)
            && Skips(s, 1_200_000, AUTOPLAY_SLOT, "q", Q_NOTE.sample, Q_TAP)
            && EmitsTap(s, 1_200_000, "A", "q", Q_NOTE.sample, Q_TAP)
            && forall tap :: !EmitsTap(s, 1_200_000, AUTOPLAY_SLOT, "q", Q_NOTE.sample, tap)
  {
    hide Run, Tick, Eligible, FindSlot, Source, InitState, Aligned, LastReached;
    RunSplits(InitState(), Opening() + FirstShow(), Handover());
    RunSplits(InitState(), Opening(), FirstShow());
    OpeningScene();
    FirstShowScene(Run(InitState(), Opening()));
    HandoverScene(Run(Run(InitState(), Opening()), FirstShow()));
    HandedLosesTap(Run(InitState(), Opening() + FirstShow() + Handover()));
  }

  lemma HandedLosesTap(s: State)
    requires Handed(s)
    ensures Presents(s, 1_200_000, AUTOPLAY_SLOT, "q", Q_NOTE.sample)
    ensures Skips(s, 1_200_000, AUTOPLAY_SLOT, "q", Q_NOTE.sample, Q_TAP)
    ensures EmitsTap(s, 1_200_000, "A", "q", Q_NOTE.sample, Q_TAP)
    ensures forall tap :: !EmitsTap(s, 1_200_000, AUTOPLAY_SLOT, "q", Q_NOTE.sample, tap)
  {
    hide Tick, Eligible, FindSlot, Source, Aligned, LastReached, ScanTaps, Baseline;
    KeptScene(s, 1_200_000, "q");
    NotesOfSecond();
    assert Playhead(s, "q", 0) == Some(Q_NOTE.sample);
    ScenePresents(s, 1_200_000, "q", Q_NOTE.sample, Some("q"), None, Some("q"), Some(5));
  }
}
