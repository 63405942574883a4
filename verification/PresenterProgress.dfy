/** That the presenter does what it waits for: which slots a tick writes, when anchors resolve, when the epoch is
    released and what configuring, launching and stopping leave behind. */
module PresenterProgress {
  import opened Wrappers
  import opened Presenter
  import opened PresenterInvariant
  import opened PresenterTheorems
  import opened PresenterCursors
  import PresenterRecords

  // ---- Which slots a tick writes ----

  /** Slot `i` is the one featured slot. */
  predicate FeaturedAt(slots: seq<Slot>, i: nat) {
    i < |slots| && forall k :: 0 <= k < |slots| ==> (slots[k].featured <==> k == i)
  }

  ghost predicate OneFeatured(slots: seq<Slot>) {
    exists i: nat :: FeaturedAt(slots, i)
  }

  /** Slots that keep their flag, in place and in order. */
  predicate SameFlags(slots: seq<Slot>, slots': seq<Slot>) {
    |slots'| == |slots| && forall k :: 0 <= k < |slots| ==> slots'[k].featured == slots[k].featured
  }

  lemma SameFlagsOneFeatured(slots: seq<Slot>, slots': seq<Slot>)
    requires OneFeatured(slots) && SameFlags(slots, slots')
    ensures OneFeatured(slots')
  {
    var i: nat :| FeaturedAt(slots, i);
    assert FeaturedAt(slots', i);
  }

  lemma {:induction false} StopSlotsKeepFlags(s: State, ids: seq<string>)
    ensures SameFlags(s.slots, StopSlots(s, ids).slots)
    decreases |ids|
  {
    hide IndexOf;
    if ids != [] { StopSlotsKeepFlags(StopSlot(s, ids[0]), ids[1..]); }
  }

  lemma ConfigureFeatures(s: State, id: string, r: Request, frameMissing: bool, io: Io)
    requires OneFeatured(s.slots)
    ensures OneFeatured(Configure(s, id, r, frameMissing, io).slots)
  {
    hide RenderChanged, ConfiguredScreen, IndexOf, ValidRequest, Clamp;
    var t := Configure(s, id, r, frameMissing, io);
    var index := IndexOf(s.slots, id);
    if index.Some? && r.featured == Some(true) && t.slots != s.slots {
      assert FeaturedAt(t.slots, index.value);
    } else {
      SameFlagsOneFeatured(s.slots, t.slots);
    }
  }

  lemma TickKeepsFlags(s: State, nowUs: nat)
    ensures Tick(s, nowUs).slots == s.slots && Tick(s, nowUs).awaiting == s.awaiting
      && Tick(s, nowUs).autoplay == s.autoplay
  {
    hide Eligible, Cohort, CommonDelay, NextEpoch, ResolveAnchors, Paint;
  }

  lemma StepKeepsOneFeatured(s: State, op: Op)
    requires OneFeatured(s.slots)
    ensures OneFeatured(Step(s, op).slots)
  {
    hide OneFeatured, SameFlags, Configure, Tick, IndexOf, HasTap, Newest, ResetPages, ResetInput, FindFeatured,
        ActiveSlots, StopSlots, IdsShowing, FreshScreen;
    match op
    case OpConfigure(id, r, frameMissing, io) => ConfigureFeatures(s, id, r, frameMissing, io);
    case OpStopParticipant(p) =>
      StopSlotsKeepFlags(s, IdsShowing(s.slots, p));
      SameFlagsOneFeatured(s.slots, StopSlots(s, IdsShowing(s.slots, p)).slots);
    case OpStopSlot(id) => StopSlotFeatures(s, id);
    case OpStopAll => StoppedFeatures(s.slots);
    case OpTick(nowUs) => TickKeepsFlags(s, nowUs);
    case _ =>
  }

  lemma StopSlotFeatures(s: State, id: string)
    requires OneFeatured(s.slots)
    ensures OneFeatured(StopSlot(s, id).slots)
  {
    hide OneFeatured, IndexOf;
    SameFlagsOneFeatured(s.slots, StopSlot(s, id).slots);
  }

  lemma StoppedFeatures(slots: seq<Slot>)
    requires OneFeatured(slots)
    ensures OneFeatured(Stopped(slots))
  {
    hide OneFeatured;
    SameFlagsOneFeatured(slots, Stopped(slots));
  }

  lemma {:induction false} RunKeepsOneFeatured(ops: seq<Op>)
    ensures OneFeatured(Run(InitState(), ops).slots)
    decreases |ops|
  {
    hide OneFeatured, Step;
    if ops == [] {
      assert FeaturedAt(InitState().slots, 0);
      assert OneFeatured(InitState().slots) by { FeaturedIsOne(InitState().slots, 0); }
    } else {
      RunKeepsOneFeatured(ops[..|ops| - 1]);
      StepKeepsOneFeatured(Run(InitState(), ops[..|ops| - 1]), ops[|ops| - 1]);
      RunLast(InitState(), ops);
    }
  }

  lemma FeaturedIsOne(slots: seq<Slot>, i: nat)
    requires FeaturedAt(slots, i)
    ensures OneFeatured(slots)
  {
  }

  lemma {:induction false} FindsTheFeatured(slots: seq<Slot>)
    ensures FindFeatured(slots).None? <==> forall slot :: slot in slots ==> !slot.featured
  {
    if slots != [] {
      FindsTheFeatured(slots[1..]);
      assert forall slot :: slot in slots <==> slot == slots[0] || slot in slots[1..];
    }
  }

  /** In every run a tick writes exactly the active slots that are not behind the barrier and, while AUTOPLAY is on
      and not behind it, AUTOPLAY as a copy of the featured one of them. */
  lemma EligibleIff(ops: seq<Op>, slot: Slot)
    ensures var s := Run(InitState(), ops);
            slot in Eligible(s) <==>
              || (slot in s.slots && slot.active && slot.id !in s.awaiting)
              || (s.autoplay && "AUTOPLAY" !in s.awaiting
                  && exists f :: f in s.slots && f.active && f.id !in s.awaiting && f.featured
                       && slot == f.(id := "AUTOPLAY", featured := false))
  {
    hide Step;
    var s := Run(InitState(), ops);
    RunKeepsOneFeatured(ops);
    hide Run, InitState;
    var live := LiveSlots(s.slots, s.awaiting);
    FindsTheFeatured(live);
    var i: nat :| FeaturedAt(s.slots, i);
    if FindFeatured(live).Some? {
      var f := FindFeatured(live).value;
      assert f in s.slots;
      assert forall g :: g in s.slots && g.featured ==> g == f by {
        OnlyFeatured(s.slots, i);
      }
    }
  }

  lemma OnlyFeatured(slots: seq<Slot>, i: nat)
    requires FeaturedAt(slots, i)
    ensures forall g :: g in slots && g.featured ==> g == slots[i]
  {
  }

  lemma LaunchedOrOn(s: State, op: Op)
    requires Step(s, op).autoplay
    ensures s.autoplay || op == OpLaunchAutoplay(true, true)
  {
    hide Configure, Tick, StopSlots, IdsShowing, IndexOf, HasTap, Newest, ResetPages, ResetInput, FindFeatured,
        ActiveSlots, FreshScreen;
    match op
    case OpConfigure(id, r, frameMissing, io) => ConfigureKeepsAutoplay(s, id, r, frameMissing, io);
    case OpStopParticipant(p) => StopSlotsKeepAutoplay(s, IdsShowing(s.slots, p));
    case OpTick(nowUs) => TickKeepsFlags(s, nowUs);
    case _ =>
  }

  lemma ConfigureKeepsAutoplay(s: State, id: string, r: Request, frameMissing: bool, io: Io)
    ensures Configure(s, id, r, frameMissing, io).autoplay == s.autoplay
  {
    hide IndexOf, Candidate, RenderChanged, ValidRequest, ConfiguredSlots, ConfiguredScreen;
  }

  lemma {:induction false} StopSlotsKeepAutoplay(s: State, ids: seq<string>)
    ensures StopSlots(s, ids).autoplay == s.autoplay
    decreases |ids|
  {
    hide IndexOf;
    if ids != [] { StopSlotsKeepAutoplay(StopSlot(s, ids[0]), ids[1..]); }
  }

  /** In every run AUTOPLAY is on only if it was launched with a page and a process. */
  lemma {:induction false} AutoplayWasLaunched(ops: seq<Op>)
    requires Run(InitState(), ops).autoplay
    ensures OpLaunchAutoplay(true, true) in ops
    decreases |ops|
  {
    hide Step;
    if ops != [] {
      var n := |ops| - 1;
      RunLast(InitState(), ops);
      LaunchedOrOn(Run(InitState(), ops[..n]), ops[n]);
      if Run(InitState(), ops[..n]).autoplay { AutoplayWasLaunched(ops[..n]); }
    }
  }

  // ---- When anchors resolve ----

  /** `b` is the first of a buffer that plays at or past the note, to within a ten-thousandth of a beat. */
  predicate FirstReaching(buffer: seq<Buffered>, b: Buffered, noteBeat: real) {
    exists k :: 0 <= k < |buffer| && buffer[k] == b && b.sample.flags.playing && b.sample.beat + 0.0001 >= noteBeat
      && forall j :: 0 <= j < k ==> !(buffer[j].sample.flags.playing && buffer[j].sample.beat + 0.0001 >= noteBeat)
  }

  lemma FirstInLonger(a: Buffered, rest: seq<Buffered>, b: Buffered, noteBeat: real)
    requires FirstReaching(rest, b, noteBeat) && !ReachesNote(a, noteBeat)
    ensures FirstReaching([a] + rest, b, noteBeat)
  {
    var k :| 0 <= k < |rest| && rest[k] == b && ReachesNote(b, noteBeat)
             && forall j :: 0 <= j < k ==> !ReachesNote(rest[j], noteBeat);
    var all := [a] + rest;
    assert all[k + 1] == b;
    assert forall j :: 1 <= j < |all| ==> all[j] == rest[j - 1];
  }

  lemma {:induction false} FirstNoteIsFirst(buffer: seq<Buffered>, beat: real)
    ensures FirstNote(buffer, beat).Some? ==> FirstReaching(buffer, FirstNote(buffer, beat).value, beat)
  {
    if buffer != [] && FirstNote(buffer, beat).Some? {
      if ReachesNote(buffer[0], beat) {
        assert FirstReaching(buffer, buffer[0], beat);
      } else {
        hide FirstReaching;
        FirstNoteIsFirst(buffer[1..], beat);
        FirstInLonger(buffer[0], buffer[1..], FirstNote(buffer, beat).value, beat);
        assert [buffer[0]] + buffer[1..] == buffer;
      }
    }
  }

  /** A tick resolves an open anchor exactly when it writes a slot showing that participant and a buffered sample
      plays at or past the note; the anchor then has the two times of the first such sample. */
  lemma ResolvesIff(s: State, nowUs: nat, p: string)
    requires p in s.anchors && s.anchors[p].origin.None?
    ensures var t := Tick(s, nowUs); var beat := s.anchors[p].firstNoteBeat;
            && p in t.anchors
            && (t.anchors[p].origin.Some? <==>
                  (exists slot :: slot in Eligible(s) && slot.participant == Some(p))
                  && exists b :: b in GetOr(s.samples, p, []) && b.sample.flags.playing
                       && b.sample.beat + 0.0001 >= beat)
            && (t.anchors[p].origin.Some? ==>
                  exists b :: FirstReaching(GetOr(s.samples, p, []), b, beat)
                    && t.anchors[p].origin == Some(Origin(b.sample.runTimeUs, b.receivedAtUs)))
  {
    TickKeepsSamples(s, nowUs);
    var buffer, beat := GetOr(s.samples, p, []), s.anchors[p].firstNoteBeat;
    FirstNoteIsFirst(buffer, beat);
    hide Tick, Eligible, FirstReaching, FirstNote;
    assert forall b :: ReachesNote(b, beat) <==> b.sample.flags.playing && b.sample.beat + 0.0001 >= beat;
    assert Eligible(s) == [] ==> forall slot :: slot !in Eligible(s);
    assert p in Cohort(Eligible(s)) <==> exists slot :: slot in Eligible(s) && slot.participant == Some(p);
  }

  // ---- When the epoch is released ----

  /** A participant some written slot shows. */
  predicate Written(s: State, p: string) {
    exists slot :: slot in Eligible(s) && slot.participant == Some(p)
  }

  /** While an epoch stands for the participants being written, a tick releases from its release time on. */
  lemma StandingReleasesIff(s: State, nowUs: nat)
    requires Eligible(s) != [] && s.epoch.Some?
    requires forall p :: p in s.epoch.value.participants <==> Written(s, p)
    ensures Releases(s, nowUs) <==> s.epoch.value.releaseAtUs <= nowUs
    ensures Aligned(s, nowUs).epoch == s.epoch
  {
    CohortIsWritten(s);
    hide Eligible, Written, Cohort, CommonDelay, ResolveAnchors, Ready, LatestReceipt;
    assert s.epoch.value.participants == Cohort(Eligible(s));
  }

  lemma CohortIsWritten(s: State)
    ensures forall p :: p in Cohort(Eligible(s)) <==> Written(s, p)
  {
    hide Eligible;
  }

  /** No epoch, or one for other participants than those being written. */
  ghost predicate Stale(s: State) {
    s.epoch.Some? ==> exists p :: !(p in s.epoch.value.participants <==> Written(s, p))
  }

  /** Without an epoch for the participants being written, a tick starts one exactly when each of them has a
      resolved note; its release is the latest receipt among them plus the largest delay of a written slot. */
  lemma EpochStartsIff(s: State, nowUs: nat)
    requires Inv(s) && Eligible(s) != [] && Stale(s)
    ensures var t := Tick(s, nowUs);
            && (t.epoch.Some? <==> forall p :: Written(s, p) ==> Resolved(t.anchors, p))
            && (t.epoch.Some? ==> forall p :: p in t.epoch.value.participants <==> Written(s, p))
            && (t.epoch.Some? ==>
                  exists p, slot :: Written(s, p) && Resolved(t.anchors, p) && slot in Eligible(s)
                    && t.epoch.value.releaseAtUs == Receipt(t.anchors, p) + slot.delayMs * 1_000)
  {
    hide Inv, Tick, Eligible, Written, Cohort, CommonDelay, ResolveAnchors, NextEpoch, LatestReceipt, Releases, Stale;
    var slots := Eligible(s);
    var cohort, anchors := Cohort(slots), ResolveAnchors(s, Cohort(slots));
    CohortIsWritten(s);
    TickKeepsSamples(s, nowUs);
    EpochStarts(s, nowUs);
    if Ready(anchors, cohort) {
      ReleaseTime(anchors, cohort, slots, nowUs);
      var p, slot :| p in cohort && slot in slots
                     && LatestReceipt(anchors, cohort) + CommonDelay(slots) ==
                        Receipt(anchors, p) + slot.delayMs * 1_000;
      assert Written(s, p);
    }
  }

  /** Such a tick releases at once exactly when each receipt plus each delay lies at or before `now`. */
  lemma FreshReleasesIff(s: State, nowUs: nat)
    requires Inv(s) && Eligible(s) != [] && Stale(s)
    ensures var t := Tick(s, nowUs);
            Releases(s, nowUs) <==>
            forall p, slot :: Written(s, p) && slot in Eligible(s) ==>
              Resolved(t.anchors, p) && Receipt(t.anchors, p) + slot.delayMs * 1_000 <= nowUs
  {
    hide Inv, Tick, Eligible, Written, Cohort, CommonDelay, ResolveAnchors, NextEpoch, LatestReceipt, Releases, Stale;
    var slots := Eligible(s);
    var cohort, anchors := Cohort(slots), ResolveAnchors(s, Cohort(slots));
    CohortIsWritten(s);
    TickKeepsSamples(s, nowUs);
    EpochStarts(s, nowUs);
    if Ready(anchors, cohort) {
      hide Receipt, Resolved;
      ReleaseTime(anchors, cohort, slots, nowUs);
    } else {
      var q :| q in cohort && !Resolved(anchors, q);
      assert Written(s, q) && slots[0] in slots;
    }
  }

  lemma ReleaseTime(anchors: map<string, Anchor>, cohort: set<string>, slots: seq<Slot>, nowUs: nat)
    requires Ready(anchors, cohort) && cohort != {} && slots != []
    ensures var release := LatestReceipt(anchors, cohort) + CommonDelay(slots);
            && (exists p, slot :: p in cohort && slot in slots
                  && release == Receipt(anchors, p) + slot.delayMs * 1_000)
            && (release <= nowUs <==> forall p, slot :: p in cohort && slot in slots ==>
                  Receipt(anchors, p) + slot.delayMs * 1_000 <= nowUs)
  {
    var latest, delay := LatestReceipt(anchors, cohort), CommonDelay(slots);
    var last :| last in cohort && Receipt(anchors, last) == latest;
    var slowest :| slowest in slots && DelayUs(slowest) == delay;
    assert forall slot :: slot in slots ==> slot.delayMs * 1_000 <= delay by {
      assert forall slot :: slot in slots ==> DelayUs(slot) <= delay;
    }
    hide LatestReceipt, CommonDelay, Receipt;
  }

  lemma NonemptyCohort(s: State)
    requires Inv(s) && Eligible(s) != []
    ensures Cohort(Eligible(s)) != {}
  {
    hide Eligible, Cohort, SamplesOk, TapsOk, ScoresOk, EpochOk;
    EligibleAreSlots(s);
    assert Eligible(s)[0] in Eligible(s);
  }

  /** The epoch a tick ends with when it cannot keep the one before. */
  lemma EpochStarts(s: State, nowUs: nat)
    requires Inv(s) && Eligible(s) != [] && Stale(s)
    ensures var cohort := Cohort(Eligible(s)); var anchors := ResolveAnchors(s, cohort); var t := Tick(s, nowUs);
            && (t.epoch.Some? <==> Ready(anchors, cohort))
            && (t.epoch.Some? ==>
                  cohort != {} && t.epoch.value.participants == cohort
                  && t.epoch.value.releaseAtUs == LatestReceipt(anchors, cohort) + CommonDelay(Eligible(s)))
            && (Releases(s, nowUs) <==> t.epoch.Some? && t.epoch.value.releaseAtUs <= nowUs)
  {
    CohortIsWritten(s);
    NonemptyCohort(s);
    assert s.epoch.Some? ==> s.epoch.value.participants != Cohort(Eligible(s));
    hide Eligible, Written, Cohort, CommonDelay, ResolveAnchors, Ready, LatestReceipt, Inv, Tick, Aligned, Releases;
    StartedEpoch(s, nowUs);
    PresenterRecords.TickEpoch(s, nowUs);
    ReleasesAligned(s, nowUs);
  }

  lemma StartedEpoch(s: State, nowUs: nat)
    requires Eligible(s) != [] && Cohort(Eligible(s)) != {}
    requires s.epoch.Some? ==> s.epoch.value.participants != Cohort(Eligible(s))
    ensures var cohort := Cohort(Eligible(s)); var anchors := ResolveAnchors(s, cohort);
            Aligned(s, nowUs).epoch ==
            if Ready(anchors, cohort)
            then Some(Epoch(cohort, LatestReceipt(anchors, cohort) + CommonDelay(Eligible(s)), false))
            else None
  {
    hide Eligible, Cohort, CommonDelay, ResolveAnchors, Ready, LatestReceipt;
  }

  lemma ReleasesAligned(s: State, nowUs: nat)
    requires Eligible(s) != []
    ensures var e := Aligned(s, nowUs).epoch; Releases(s, nowUs) <==> e.Some? && e.value.releaseAtUs <= nowUs
  {
    hide Eligible, Aligned;
  }

  // ---- What a releasing tick shows ----

  /** A releasing tick shows something of a participant whose note is resolved exactly when one of its samples has
      been reached by the common clock. */
  lemma ShownIff(s: State, nowUs: nat, p: string)
    requires Releases(s, nowUs)
    ensures var t := Tick(s, nowUs);
            && t.epoch.Some? && t.epoch.value.releaseAtUs <= nowUs
            && (Shown(s, nowUs, p).Some? <==>
                Resolved(t.anchors, p)
                && exists b :: b in GetOr(s.samples, p, [])
                     && b.sample.runTimeUs <= t.anchors[p].origin.value.sourceUs + (nowUs - t.epoch.value.releaseAtUs))
  {
    hide Eligible, Paint, NextEpoch, CommonDelay, Cohort, ResolveAnchors;
  }

  // ---- What configuring, launching and stopping leave behind ----

  /** The request is within the limits the manager sets. */
  predicate WithinLimits(r: Request) {
    && (r.width.None? || 320 <= r.width.value <= 1920) && (r.height.None? || 180 <= r.height.value <= 1080)
    && (r.fps.None? || r.fps.value == 30 || r.fps.value == 60)
  }

  /** A slot after a request: what was asked for is set, the rest stays, an empty participant clears the slot and
      the delay is brought within 250 and 1,500 milliseconds. */
  predicate Granted(before: Slot, r: Request, after: Slot) {
    && after.id == before.id && after.featured == (before.featured || r.featured == Some(true))
    && (r.participant.None? ==> after.participant == before.participant)
    && (r.participant == Some("") ==> after.participant == None)
    && (r.participant.Some? && r.participant.value != "" ==> after.participant == r.participant)
    && (after.active <==> after.participant.Some?)
    && (after.mode == if r.mode.Some? then r.mode.value else before.mode)
    && (after.width == if r.width.Some? then r.width.value else before.width)
    && (after.height == if r.height.Some? then r.height.value else before.height)
    && (after.fps == if r.fps.Some? then r.fps.value else before.fps)
    && (r.delayMs.None? ==> after.delayMs == before.delayMs)
    && (r.delayMs.Some? ==>
          && (r.delayMs.value < 250 ==> after.delayMs == 250) && (r.delayMs.value > 1_500 ==> after.delayMs == 1_500)
          && (250 <= r.delayMs.value <= 1_500 ==> after.delayMs == r.delayMs.value))
  }

  /** What the renderer shows or how it shows it differs. */
  predicate Rerenders(before: Slot, after: Slot) {
    || before.participant != after.participant || before.mode != after.mode || before.width != after.width
    || before.height != after.height || before.fps != after.fps || before.delayMs != after.delayMs
  }

  lemma IndexIs(slots: seq<Slot>, i: nat, ids: set<string>)
    requires SlotsOk(slots, ids) && i < |slots|
    ensures IndexOf(slots, slots[i].id) == Some(i)
  {
  }

  /** A request outside the limits, or for an unknown slot, changes nothing. */
  lemma RejectedRequest(s: State, id: string, r: Request, frameMissing: bool, io: Io)
    requires !WithinLimits(r) || forall slot :: slot in s.slots ==> slot.id != id
    ensures Configure(s, id, r, frameMissing, io) == s
  {
    hide Candidate, RenderChanged, ConfiguredScreen, ConfiguredSlots;
    if IndexOf(s.slots, id).Some? { assert s.slots[IndexOf(s.slots, id).value] in s.slots; }
  }

  lemma GrantedSlots(s: State, r: Request, i: nat)
    requires i < |s.slots|
    ensures var slots := ConfiguredSlots(s.slots, i, Candidate(s.slots[i], r), r.featured == Some(true));
            && |slots| == |s.slots| && Granted(s.slots[i], r, slots[i])
            && (forall k :: 0 <= k < |slots| && k != i ==>
                  slots[k] == s.slots[k].(featured := s.slots[k].featured && r.featured != Some(true)))
            && (RenderChanged(s.slots[i], Candidate(s.slots[i], r)) <==> Rerenders(s.slots[i], slots[i]))
  {
  }

  /** A request within the limits whose page files can be written sets the slot as asked, moves the featured flag
      and nothing else in the table. When what is rendered changes, the slot's cursors go and the epoch ends; then,
      and when its frame file is missing, both pages are zeroed. */
  lemma GrantedRequest(s: State, i: nat, r: Request, frameMissing: bool)
    requires Inv(s) && i < |s.slots| && WithinLimits(r)
    ensures var id := s.slots[i].id; var t := Configure(s, id, r, frameMissing, IoOk);
            && |t.slots| == |s.slots| && Granted(s.slots[i], r, t.slots[i])
            && (forall k :: 0 <= k < |t.slots| && k != i ==>
                  t.slots[k] == s.slots[k].(featured := s.slots[k].featured && r.featured != Some(true)))
            && t.epoch == (if Rerenders(s.slots[i], t.slots[i]) then None else s.epoch)
            && id in s.screens && id in t.screens && t == s.(slots := t.slots, epoch := t.epoch,
                                                             screens := s.screens[id := t.screens[id]])
            && var kept := if Rerenders(s.slots[i], t.slots[i])
                           then s.screens[id].(source := None, tapCursor := None, sampleCursor := None,
                                               scoreCursor := None)
                           else s.screens[id];
               t.screens[id] == if Rerenders(s.slots[i], t.slots[i]) || frameMissing
                                then kept.(page := Some(ZeroInput), scorePage := Some(ZeroScore))
                                else kept
  {
    KnownIdHasScreenAt(s, i);
    hide Candidate, ConfiguredSlots, RenderChanged, Rerenders, Granted;
    GrantedSlots(s, r, i);
    hide Inv, IndexOf;
  }

  lemma KnownIdHasScreenAt(s: State, i: nat)
    requires Inv(s) && i < |s.slots|
    ensures s.slots[i].id in s.screens && IndexOf(s.slots, s.slots[i].id) == Some(i)
  {
    hide SamplesOk, TapsOk, ScoresOk, EpochOk;
    IndexIs(s.slots, i, s.screens.Keys);
  }

  /** When a page file cannot be written the slot table stays; what was reset before the failure is reset. */
  lemma FailedRequest(s: State, i: nat, r: Request, frameMissing: bool, io: Io)
    requires Inv(s) && i < |s.slots| && WithinLimits(r) && io != IoOk
    requires frameMissing || RenderChanged(s.slots[i], Candidate(s.slots[i], r))
    ensures var id := s.slots[i].id; var t := Configure(s, id, r, frameMissing, io);
            && t.slots == s.slots && id in s.screens && id in t.screens
            && t == s.(epoch := t.epoch, screens := s.screens[id := t.screens[id]])
            && (io == FrameFails ==> t.screens[id].page == s.screens[id].page)
            && (io == InputFails ==>
                  t.screens[id].page == if s.screens[id].page.Some? then Some(ZeroInput) else None)
            && (io == ScoreFails ==> t.screens[id].page == Some(ZeroInput))
            && t.screens[id].scorePage ==
               if io == ScoreFails && s.screens[id].scorePage.Some? then Some(ZeroScore) else s.screens[id].scorePage
  {
    hide Candidate, ConfiguredSlots, RenderChanged, Inv, IndexOf;
    KnownIdHasScreenAt(s, i);
  }

  /** Launching puts an active slot behind the barrier, whatever its files do, and leaves everything else alone. */
  lemma LaunchOutcome(s: State, i: nat, io: Io)
    requires Inv(s) && i < |s.slots|
    ensures var id := s.slots[i].id; var t := Launch(s, id, io);
            if !s.slots[i].active then t == s
            else id in s.screens && id in t.screens
                 && t == s.(awaiting := s.awaiting + {id}, screens := s.screens[id := t.screens[id]])
                 && DropPages(t.screens[id]) == DropPages(s.screens[id])
  {
    hide Inv, IndexOf, ResetPages, DropPages;
    KnownIdHasScreenAt(s, i);
    ResetsKeepCursors();
  }

  /** AUTOPLAY goes behind the barrier exactly when some active slot is featured, and is on from then on if its page
      could be made and its process started. */
  lemma LaunchAutoplayOutcome(s: State, inputOk: bool, spawnOk: bool)
    requires Inv(s)
    ensures var t := LaunchAutoplay(s, inputOk, spawnOk);
            if forall slot :: slot in s.slots && slot.active ==> !slot.featured then t == s
            else "AUTOPLAY" in s.screens && "AUTOPLAY" in t.screens
                 && t == s.(awaiting := s.awaiting + {"AUTOPLAY"}, autoplay := s.autoplay || (inputOk && spawnOk),
                            screens := s.screens["AUTOPLAY" := t.screens["AUTOPLAY"]])
                 && t.screens["AUTOPLAY"] == if inputOk then s.screens["AUTOPLAY"].(page := Some(ZeroInput))
                                             else t.screens["AUTOPLAY"]
  {
    hide SamplesOk, TapsOk, ScoresOk, EpochOk;
    FindsTheFeatured(ActiveSlots(s.slots));
  }

  lemma StopAutoplayOutcome(s: State)
    requires Inv(s)
    ensures var t := StopAutoplay(s);
            && !t.autoplay && "AUTOPLAY" !in t.awaiting && t.epoch == None
            && t == s.(autoplay := false, epoch := None, awaiting := t.awaiting, screens := t.screens)
            && t.screens.Keys == s.screens.Keys
            && forall id :: id in s.screens ==>
                 (id != "AUTOPLAY" ==> t.screens[id] == s.screens[id] && (id in t.awaiting <==> id in s.awaiting))
                 && (id == "AUTOPLAY" ==> t.screens[id] == s.screens[id].(page := None, source := None,
                                            tapCursor := None, sampleCursor := None))
  {
    hide SamplesOk, TapsOk, ScoresOk, EpochOk;
  }

  /** A stopped slot has no participant, no cursors and no barrier; the others are as before. */
  predicate StoppedAt(s: State, t: State, i: nat)
    requires |t.slots| == |s.slots| && i < |s.slots|
  {
    var id := s.slots[i].id;
    && t.slots[i] == s.slots[i].(participant := None, active := false)
    && id in s.screens && id in t.screens && id !in t.awaiting
    && t.screens[id] == s.screens[id].(source := None, tapCursor := None, sampleCursor := None, scoreCursor := None)
  }

  predicate SpareAt(s: State, t: State, i: nat)
    requires |t.slots| == |s.slots| && i < |s.slots|
  {
    var id := s.slots[i].id;
    && t.slots[i] == s.slots[i] && (id in t.awaiting <==> id in s.awaiting)
    && id in s.screens && id in t.screens && t.screens[id] == s.screens[id]
  }

  lemma StopSlotOutcome(s: State, i: nat)
    requires Inv(s) && i < |s.slots|
    ensures var t := StopSlot(s, s.slots[i].id);
            && |t.slots| == |s.slots| && StoppedAt(s, t, i) && t.epoch == None
            && forall k: nat :: k < |s.slots| && k != i ==> SpareAt(s, t, k)
  {
    hide SamplesOk, TapsOk, ScoresOk, EpochOk, IndexOf;
    KnownIdHasScreenAt(s, i);
  }

  /** Stopping a list of slots stops exactly those. */
  predicate StoppedIds(s: State, t: State, ids: seq<string>) {
    && |t.slots| == |s.slots|
    && (forall k: nat :: k < |s.slots| && s.slots[k].id in ids ==> StoppedAt(s, t, k))
    && (forall k: nat :: k < |s.slots| && s.slots[k].id !in ids ==> SpareAt(s, t, k))
    && t.epoch == if exists k :: 0 <= k < |s.slots| && s.slots[k].id in ids then None else s.epoch
  }

  lemma NothingStopped(s: State, ids: seq<string>)
    requires Inv(s) && forall k :: 0 <= k < |s.slots| ==> s.slots[k].id !in ids
    ensures StoppedIds(s, s, ids)
  {
  }

  lemma StopOneMore(s: State, u: State, t: State, i: nat, ids: seq<string>)
    requires Inv(s) && i < |s.slots| && |u.slots| == |s.slots| && StoppedAt(s, u, i) && u.epoch == None
    requires forall k: nat :: k < |s.slots| && k != i ==> SpareAt(s, u, k)
    requires StoppedIds(u, t, ids)
    ensures StoppedIds(s, t, [s.slots[i].id] + ids)
  {
    hide SamplesOk, TapsOk, ScoresOk, EpochOk;
    forall k: nat | k < |s.slots|
      ensures if s.slots[k].id in [s.slots[i].id] + ids then StoppedAt(s, t, k) else SpareAt(s, t, k)
    {
      assert if k == i then StoppedAt(s, u, k) else SpareAt(s, u, k);
      assert u.slots[k].id == s.slots[k].id;
      assert if s.slots[k].id in ids then StoppedAt(u, t, k) else SpareAt(u, t, k);
    }
    assert s.slots[i].id in [s.slots[i].id] + ids;
  }

  lemma {:induction false} StopSlotsOutcome(s: State, ids: seq<string>)
    requires Inv(s)
    ensures StoppedIds(s, StopSlots(s, ids), ids)
    decreases |ids|
  {
    hide Inv, StoppedIds, StopSlot, IndexOf;
    if ids == [] {
      NothingStopped(s, ids);
    } else {
      var u := StopSlot(s, ids[0]);
      StopSlotKeepsInv(s, ids[0]);
      StopSlotsOutcome(u, ids[1..]);
      assert ids == [ids[0]] + ids[1..];
      if IndexOf(s.slots, ids[0]).Some? {
        var i := IndexOf(s.slots, ids[0]).value;
        StopSlotOutcome(s, i);
        StopOneMore(s, u, StopSlots(u, ids[1..]), i, ids[1..]);
      } else {
        UnknownStopsNothing(s, ids, StopSlots(u, ids[1..]));
      }
    }
  }

  lemma UnknownStopsNothing(s: State, ids: seq<string>, t: State)
    requires ids != [] && IndexOf(s.slots, ids[0]).None? && StoppedIds(StopSlot(s, ids[0]), t, ids[1..])
    ensures StoppedIds(s, t, ids)
  {
    assert forall k :: 0 <= k < |s.slots| ==> (s.slots[k].id in ids <==> s.slots[k].id in ids[1..]);
  }

  lemma {:induction false} ShownIds(slots: seq<Slot>, p: string, id: string)
    requires id in IdsShowing(slots, p)
    ensures exists i :: 0 <= i < |slots| && slots[i].participant == Some(p) && slots[i].id == id
  {
    if !(slots[0].participant == Some(p) && slots[0].id == id) {
      ShownIds(slots[1..], p, id);
      var i :| 0 <= i < |slots[1..]| && slots[1..][i].participant == Some(p) && slots[1..][i].id == id;
      assert slots[i + 1] == slots[1..][i];
    }
  }

  lemma ShowingIff(s: State, p: string, k: nat)
    requires Inv(s) && k < |s.slots|
    ensures s.slots[k].id in IdsShowing(s.slots, p) <==> s.slots[k].participant == Some(p)
  {
    hide SamplesOk, TapsOk, ScoresOk, EpochOk;
    if s.slots[k].id in IdsShowing(s.slots, p) { ShownIds(s.slots, p, s.slots[k].id); }
  }

  /** Stopping a participant stops exactly the slots that show it. */
  lemma StopParticipantOutcome(s: State, p: string)
    requires Inv(s)
    ensures var t := StopParticipant(s, p);
            && |t.slots| == |s.slots|
            && (forall k: nat :: k < |s.slots| && s.slots[k].participant == Some(p) ==> StoppedAt(s, t, k))
            && (forall k: nat :: k < |s.slots| && s.slots[k].participant != Some(p) ==> SpareAt(s, t, k))
            && t.epoch == if exists k :: 0 <= k < |s.slots| && s.slots[k].participant == Some(p) then None else s.epoch
  {
    hide Inv, IdsShowing, StopSlots;
    StopSlotsOutcome(s, IdsShowing(s.slots, p));
    forall k: nat | k < |s.slots|
      ensures s.slots[k].id in IdsShowing(s.slots, p) <==> s.slots[k].participant == Some(p)
    {
      ShowingIff(s, p, k);
    }
  }

  /** A full stop and a new run leave no cursors, no barrier and no epoch; a new run keeps the table and AUTOPLAY
      and zeroes the pages there are, a full stop stops every slot and AUTOPLAY and unmaps every page. */
  lemma FreshStarts(s: State)
    ensures var t := BeginRun(s);
            && t.slots == s.slots && t.autoplay == s.autoplay && t.awaiting == {} && t.epoch == None
            && t.screens.Keys == s.screens.Keys
            && forall id :: id in s.screens ==>
                 && DropPages(t.screens[id]) == BLANK
                 && t.screens[id].page == (if s.screens[id].page.Some? then Some(ZeroInput) else None)
                 && t.screens[id].scorePage == (if s.screens[id].scorePage.Some? then Some(ZeroScore) else None)
    ensures var t := StopAll(s);
            && !t.autoplay && t.awaiting == {} && t.epoch == None && |t.slots| == |s.slots|
            && (forall k :: 0 <= k < |s.slots| ==>
                  t.slots[k] == s.slots[k].(participant := None, active := false))
            && t.screens.Keys == s.screens.Keys
            && forall id :: id in s.screens ==> t.screens[id] == Screen(None, None, 0, 0, None, None, None, None)
  {
  }
}
