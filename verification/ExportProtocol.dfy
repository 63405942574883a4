/** The coalescing export worker as interleaved steps: publishers, a wake flag, a channel, one worker. */
module ExportProtocol {
  import opened Wrappers

  datatype Kind = Gameplay | Room | Featured | Metadata

  datatype Signal = Wake | Flush(id: nat)

  /** Between the store, the flag swap and the send, a publisher is interrupted anywhere. */
  datatype Publisher = Swapping | Sending

  /** The flush requests the worker will answer after this batch travel with its position. */
  datatype Worker =
    | Idle
    | Window
    | Clearing(flushers: seq<nat>)
    | Taking(flushers: seq<nat>)
    | Answering(flushers: seq<nat>)

  /** `published` and `taken` hold the latest version of each kind that was stored and that the worker
      took to write, whether or not the write then succeeded; `marks` holds what was published when
      each flush was sent, and `answered` the flushes answered. */
  datatype State = State(
    pending: map<Kind, nat>, wakeQueued: bool, channel: seq<Signal>,
    publishers: map<nat, Publisher>, worker: Worker,
    published: map<Kind, nat>, taken: map<Kind, nat>, versions: nat,
    marks: seq<map<Kind, nat>>, answered: seq<nat>)

  function Start(): State {
    State(map[], false, [], map[], Idle, map[], map[], 0, [], [])
  }

  datatype Step =
    | Store(publisher: nat, kind: Kind)
    | Swap(publisher: nat)
    | Send(publisher: nat)
    | AskFlush
    | Receive
    | Timeout
    | ClearFlag
    | TakeBatch
    | Answer

  // A step that is not enabled leaves the state as it is.

  function OnStore(s: State, p: nat, kind: Kind): State {
    if p in s.publishers then s
    else s.(pending := s.pending[kind := s.versions], published := s.published[kind := s.versions],
        versions := s.versions + 1,
            publishers := s.publishers[p := Swapping])
  }

  function OnSwap(s: State, p: nat): State {
    if p !in s.publishers || s.publishers[p] != Swapping then s
    else s.(wakeQueued := true, publishers := if s.wakeQueued then s.publishers - {p} else s.publishers[p := Sending])
  }

  function OnSend(s: State, p: nat): State {
    if p !in s.publishers || s.publishers[p] != Sending then s
    else s.(channel := s.channel + [Wake], publishers := s.publishers - {p})
  }

  function OnAskFlush(s: State): State {
    s.(channel := s.channel + [Flush(|s.marks|)], marks := s.marks + [s.published])
  }

  function OnReceive(s: State): State {
    if s.channel == [] || !(s.worker.Idle? || s.worker.Window?) then s
    else s.(channel := s.channel[1..], worker := if s.channel[0].Flush? then Clearing([s.channel[0].id]) else Window)
  }

  function OnTake(s: State): State {
    if s.worker.Taking? then s.(taken := s.taken + s.pending, pending := map[],
        worker := Answering(s.worker.flushers)) else s
  }

  function OnAnswer(s: State): State {
    if s.worker.Answering? then s.(answered := s.answered + s.worker.flushers, worker := Idle) else s
  }

  function Apply(s: State, step: Step): State {
    match step
    case Store(p, kind) => OnStore(s, p, kind)
    case Swap(p) => OnSwap(s, p)
    case Send(p) => OnSend(s, p)
    case AskFlush => OnAskFlush(s)
    case Receive => OnReceive(s)
    case Timeout => if s.worker.Window? then s.(worker := Clearing([])) else s
    case ClearFlag => if s.worker.Clearing? then s.(wakeQueued := false, worker := Taking(s.worker.flushers)) else s
    case TakeBatch => OnTake(s)
    case Answer => OnAnswer(s)
  }

  function Run(s: State, steps: seq<Step>): State
    decreases |steps|
  {
    if steps == [] then s else Run(Apply(s, steps[0]), steps[1..])
  }

  // ---- The invariant ----

  predicate Owes(publishers: map<nat, Publisher>, pc: Publisher) {
    exists p :: p in publishers && publishers[p] == pc
  }

  /** A raised flag means a wake signal is owed, under way, or being acted on. */
  predicate FlagIsCovered(s: State) {
    s.wakeQueued ==> Owes(s.publishers, Sending) || Wake in s.channel || s.worker.Window? || s.worker.Clearing?
  }

  /** Something pending means the flag is up, about to go up, or the worker is about to take it. */
  predicate PendingIsCovered(s: State) {
    s.pending != map[] ==> s.wakeQueued || Owes(s.publishers, Swapping) || s.worker.Taking?
  }

  /** What is not pending has been taken, in its latest version. */
  predicate Ledger(pending: map<Kind, nat>, published: map<Kind, nat>, taken: map<Kind, nat>, versions: nat) {
    && taken.Keys <= published.Keys && pending.Keys <= published.Keys
    && (forall k :: k in pending ==> pending[k] == published[k])
    && (forall k :: k in published && k !in pending ==> k in taken && taken[k] == published[k])
    && (forall k :: k in taken ==> taken[k] <= published[k])
    && (forall k :: k in published ==> published[k] < versions)
  }

  predicate Accounted(s: State) {
    Ledger(s.pending, s.published, s.taken, s.versions)
  }

  /** Every version in `low` has been reached or overtaken in `high`. */
  predicate Covers(high: map<Kind, nat>, low: map<Kind, nat>) {
    forall k :: k in low ==> k in high && low[k] <= high[k]
  }

  function Flushers(w: Worker): seq<nat> {
    if w.Idle? || w.Window? then [] else w.flushers
  }

  predicate Answered(taken: map<Kind, nat>, marks: seq<map<Kind, nat>>, ids: seq<nat>) {
    forall id :: id in ids ==> id < |marks| && Covers(taken, marks[id])
  }

  predicate Asking(marks: seq<map<Kind, nat>>, channel: seq<Signal>, flushers: seq<nat>) {
    && (forall sig :: sig in channel && sig.Flush? ==> sig.id < |marks|)
    && (forall id :: id in flushers ==> id < |marks|)
  }

  predicate Marked(published: map<Kind, nat>, marks: seq<map<Kind, nat>>) {
    forall i :: 0 <= i < |marks| ==> Covers(published, marks[i])
  }

  predicate FlushesOk(s: State) {
    && Marked(s.published, s.marks)
    && Asking(s.marks, s.channel, Flushers(s.worker))
    && Answered(s.taken, s.marks, s.answered)
    && (s.worker.Answering? ==> Answered(s.taken, s.marks, s.worker.flushers))
  }

  predicate Inv(s: State) {
    FlagIsCovered(s) && PendingIsCovered(s) && Accounted(s) && FlushesOk(s)
  }

  /** A publisher changing its own position hides no other publisher. */
  lemma OthersStillOwe(before: map<nat, Publisher>, after: map<nat, Publisher>, p: nat, pc: Publisher)
    requires forall q :: q != p && q in before ==> q in after && after[q] == before[q]
    requires p in before ==> before[p] != pc
    ensures Owes(before, pc) ==> Owes(after, pc)
  {
    if Owes(before, pc) {
      var q :| q in before && before[q] == pc;
      assert after[q] == pc;
    }
  }

  lemma PublisherKeepsCovered(s: State, p: nat, kind: Kind)
    requires FlagIsCovered(s) && PendingIsCovered(s)
    ensures FlagIsCovered(OnStore(s, p, kind)) && PendingIsCovered(OnStore(s, p, kind))
    ensures FlagIsCovered(OnSwap(s, p)) && PendingIsCovered(OnSwap(s, p))
    ensures FlagIsCovered(OnSend(s, p)) && PendingIsCovered(OnSend(s, p))
  {
    hide Owes;
    if p !in s.publishers {
      var after := s.publishers[p := Swapping];
      OthersStillOwe(s.publishers, after, p, Sending);
      assert Owes(after, Swapping) by { NowOwes(after, p); }
    } else if s.publishers[p] == Swapping {
      OthersStillOwe(s.publishers, OnSwap(s, p).publishers, p, Sending);
      if !s.wakeQueued { NowOwes(OnSwap(s, p).publishers, p); }
    } else {
      OthersStillOwe(s.publishers, OnSend(s, p).publishers, p, Swapping);
      assert OnSend(s, p).channel[|s.channel|] == Wake;
    }
  }

  lemma NowOwes(publishers: map<nat, Publisher>, p: nat)
    requires p in publishers
    ensures Owes(publishers, publishers[p])
  {
  }

  lemma TailKeeps<T>(xs: seq<T>, x: T)
    requires xs != [] && x in xs
    ensures xs[0] == x || x in xs[1..]
  {
  }

  lemma CoveredStep(s: State, step: Step)
    requires FlagIsCovered(s) && PendingIsCovered(s)
    ensures FlagIsCovered(Apply(s, step)) && PendingIsCovered(Apply(s, step))
  {
    hide Owes, OnStore, OnSwap, OnSend;
    match step
    case Store(p, kind) => PublisherKeepsCovered(s, p, kind);
    case Swap(p) => PublisherKeepsCovered(s, p, Gameplay);
    case Send(p) => PublisherKeepsCovered(s, p, Gameplay);
    case Receive => if s.channel != [] && Wake in s.channel { TailKeeps(s.channel, Wake); }
    case _ =>
  }

  lemma CoversTrans(a: map<Kind, nat>, b: map<Kind, nat>, c: map<Kind, nat>)
    requires Covers(a, b) && Covers(b, c)
    ensures Covers(a, c)
  {
  }

  lemma StoreKeepsLedger(pending: map<Kind, nat>, published: map<Kind, nat>, taken: map<Kind, nat>, versions: nat,
                         kind: Kind)
    requires Ledger(pending, published, taken, versions)
    ensures Ledger(pending[kind := versions], published[kind := versions], taken, versions + 1)
    ensures Covers(published[kind := versions], published)
  {
  }

  lemma TakeKeepsLedger(pending: map<Kind, nat>, published: map<Kind, nat>, taken: map<Kind, nat>, versions: nat)
    requires Ledger(pending, published, taken, versions)
    ensures Ledger(map[], published, taken + pending, versions) && Covers(taken + pending, taken)
      && taken + pending == published
  {
  }

  lemma CoversSelf(a: map<Kind, nat>)
    ensures Covers(a, a)
  {
  }

  lemma AccountedStep(s: State, step: Step)
    requires Accounted(s)
    ensures Accounted(Apply(s, step)) && Covers(Apply(s, step).published, s.published)
      && Covers(Apply(s, step).taken, s.taken)
  {
    hide Ledger, Covers;
    StoreKeepsLedger(s.pending, s.published, s.taken, s.versions, if step.Store? then step.kind else Gameplay);
    TakeKeepsLedger(s.pending, s.published, s.taken, s.versions);
    CoversSelf(s.published);
    CoversSelf(s.taken);
  }

  /** Taking the batch brings every kind to its latest published version. */
  lemma TakeCatchesUp(s: State)
    requires Accounted(s)
    ensures s.taken + s.pending == s.published
  {
  }

  lemma MarkedGrows(high: map<Kind, nat>, higher: map<Kind, nat>, marks: seq<map<Kind, nat>>)
    requires Covers(higher, high) && Marked(high, marks)
    ensures Marked(higher, marks)
  {
    hide Covers;
    forall i | 0 <= i < |marks| ensures Covers(higher, marks[i]) { CoversTrans(higher, high, marks[i]); }
  }

  lemma MarkedByAsking(published: map<Kind, nat>, marks: seq<map<Kind, nat>>)
    requires Marked(published, marks)
    ensures Marked(published, marks + [published])
  {
    hide Covers;
    CoversSelf(published);
  }

  lemma AnsweredGrows(taken: map<Kind, nat>, more: map<Kind, nat>, marks: seq<map<Kind, nat>>, mark: map<Kind, nat>,
                      ids: seq<nat>)
    requires Covers(more, taken) && Answered(taken, marks, ids)
    ensures Answered(more, marks, ids) && Answered(taken, marks + [mark], ids)
  {
    hide Covers;
    forall id | id in ids ensures Covers(more, marks[id]) { CoversTrans(more, taken, marks[id]); }
    forall id | id in ids ensures Covers(taken, (marks + [mark])[id]) { assert (marks + [mark])[id] == marks[id]; }
  }

  lemma AnsweredByTaking(published: map<Kind, nat>, marks: seq<map<Kind, nat>>, channel: seq<Signal>, ids: seq<nat>)
    requires Marked(published, marks) && Asking(marks, channel, ids)
    ensures Answered(published, marks, ids)
  {
    hide Covers;
  }

  lemma AskingAfter(marks: seq<map<Kind, nat>>, mark: map<Kind, nat>, channel: seq<Signal>, ids: seq<nat>)
    requires Asking(marks, channel, ids)
    ensures Asking(marks, channel, []) && Asking(marks, channel + [Wake], ids)
    ensures Asking(marks + [mark], channel + [Flush(|marks|)], ids)
    ensures channel != []
      ==> Asking(marks, channel[1..], ids) && (channel[0].Flush? ==> Asking(marks, channel[1..], [channel[0].id]))
  {
  }

  lemma FlushesStep(s: State, step: Step)
    requires Accounted(s) && FlushesOk(s)
    ensures FlushesOk(Apply(s, step))
  {
    hide Ledger, Covers, Marked, Asking, Answered, OnSwap, OnSend;
    AskingAfter(s.marks, s.published, s.channel, Flushers(s.worker));
    AskingAfter(s.marks, s.published, s.channel, []);
    match step
    case Store(p, kind) =>
      StoreKeepsLedger(s.pending, s.published, s.taken, s.versions, kind);
      MarkedGrows(s.published, s.published[kind := s.versions], s.marks);
    case Swap(p) => SwapAndSendTouchNoFlush(s, p);
    case Send(p) => SwapAndSendTouchNoFlush(s, p);
    case AskFlush =>
      MarkedByAsking(s.published, s.marks);
      CoversSelf(s.taken);
      AnsweredGrows(s.taken, s.taken, s.marks, s.published, s.answered);
      if s.worker.Answering? { AnsweredGrows(s.taken, s.taken, s.marks, s.published, s.worker.flushers); }
    case Receive =>
    case Timeout =>
    case ClearFlag =>
    case TakeBatch =>
      TakeKeepsLedger(s.pending, s.published, s.taken, s.versions);
      AnsweredGrows(s.taken, s.taken + s.pending, s.marks, s.published, s.answered);
      AnsweredByTaking(s.published, s.marks, s.channel, Flushers(s.worker));
    case Answer =>
      if s.worker.Answering? { AnsweredJoin(s.taken, s.marks, s.answered, s.worker.flushers); }
  }

  lemma AnsweredJoin(taken: map<Kind, nat>, marks: seq<map<Kind, nat>>, a: seq<nat>, b: seq<nat>)
    requires Answered(taken, marks, a) && Answered(taken, marks, b)
    ensures Answered(taken, marks, a + b)
  {
    hide Covers;
  }

  lemma SwapAndSendTouchNoFlush(s: State, p: nat)
    ensures OnSwap(s, p) == s.(wakeQueued := OnSwap(s, p).wakeQueued, publishers := OnSwap(s, p).publishers)
    ensures OnSend(s, p) == s.(channel := OnSend(s, p).channel, publishers := OnSend(s, p).publishers)
    ensures OnSend(s, p).channel == s.channel || OnSend(s, p).channel == s.channel + [Wake]
  {
  }

  lemma ApplyKeepsInv(s: State, step: Step)
    requires Inv(s)
    ensures Inv(Apply(s, step))
  {
    hide FlagIsCovered, PendingIsCovered, Accounted, FlushesOk, Apply;
    CoveredStep(s, step);
    AccountedStep(s, step);
    FlushesStep(s, step);
  }

  lemma {:induction false} RunKeepsInv(s: State, steps: seq<Step>)
    requires Inv(s)
    ensures Inv(Run(s, steps))
    decreases |steps|
  {
    hide Inv, Apply;
    if steps != [] {
      ApplyKeepsInv(s, steps[0]);
      RunKeepsInv(Apply(s, steps[0]), steps[1..]);
    }
  }

  // ---- What it guarantees ----

  /** No lost wake-up: in every interleaving, once no publisher is between its store and its send,
      anything pending has a wake signal on its way or a worker that has yet to take it. */
  lemma NoLostWakeup(steps: seq<Step>)
    ensures var s := Run(Start(), steps);
            s.pending != map[] ==>
              || Owes(s.publishers, Swapping) || Owes(s.publishers, Sending)
              || Wake in s.channel || s.worker.Window? || s.worker.Clearing? || s.worker.Taking?
  {
    hide Run, Owes;
    RunKeepsInv(Start(), steps);
    assert Inv(Run(Start(), steps));
  }

  /** When everything has come to rest nothing is pending and every kind was taken in its latest version. */
  lemma RestMeansTaken(steps: seq<Step>)
    requires var s := Run(Start(), steps); s.publishers == map[] && s.channel == [] && s.worker.Idle?
    ensures var s := Run(Start(), steps); s.pending == map[] && s.taken == s.published
  {
    hide Run;
    var s := Run(Start(), steps);
    RunKeepsInv(Start(), steps);
    assert Inv(s);
    TakeCatchesUp(s);
  }

  /** An answered flush means: whatever had been stored when it was sent has been taken, in that
      version or a later one. */
  lemma AnsweredFlushSawEverything(steps: seq<Step>, id: nat, kind: Kind)
    requires id in Run(Start(), steps).answered && id < |Run(Start(), steps).marks|
      && kind in Run(Start(), steps).marks[id]
    ensures var s := Run(Start(), steps); kind in s.taken && kind in s.published
                                          && s.marks[id][kind] <= s.taken[kind] <= s.published[kind]
  {
    hide Run;
    var s := Run(Start(), steps);
    RunKeepsInv(Start(), steps);
    assert Inv(s);
    assert Covers(s.taken, s.marks[id]);
  }

  /** A mark is never rewritten: it stays what was published when the flush was sent. */
  lemma {:induction false} MarksOnlyGrow(s: State, steps: seq<Step>)
    ensures s.marks <= Run(s, steps).marks
    decreases |steps|
  {
    if steps != [] { MarksOnlyGrow(Apply(s, steps[0]), steps[1..]); }
  }

  // ---- The worker left alone ----

  /** One step of the worker when nobody publishes: it always has one until it rests. */
  function WorkerStep(s: State): Step {
    match s.worker
    case Idle => Receive
    case Window => if s.channel == [] then Timeout else Receive
    case Clearing(_) => ClearFlag
    case Taking(_) => TakeBatch
    case Answering(_) => Answer
  }

  function Rank(w: Worker): nat {
    match w case Idle => 0 case Window => 4 case Clearing(_) => 3 case Taking(_) => 2 case Answering(_) => 1
  }

  predicate Resting(s: State) {
    s.worker.Idle? && s.channel == []
  }

  /** The worker's own step, which always brings it closer to rest. */
  function WorkerApply(s: State): (t: State)
    requires !Resting(s)
    ensures 5 * |t.channel| + Rank(t.worker) < 5 * |s.channel| + Rank(s.worker)
  {
    Apply(s, WorkerStep(s))
  }

  function Drain(s: State): State
    decreases 5 * |s.channel| + Rank(s.worker)
  {
    if Resting(s) then s else Drain(WorkerApply(s))
  }

  lemma WorkerPublishesNothing(s: State)
    requires !Resting(s)
    ensures WorkerApply(s).publishers == s.publishers && WorkerApply(s).published == s.published
  {
    hide OnStore, OnSwap, OnSend, OnAskFlush;
  }

  predicate Asked(s: State, id: nat) {
    Flush(id) in s.channel || id in Flushers(s.worker) || id in s.answered
  }

  lemma {:induction false} DrainKeepsInv(s: State)
    requires Inv(s)
    ensures Inv(Drain(s)) && Resting(Drain(s)) && Drain(s).publishers == s.publishers
      && Drain(s).published == s.published
    decreases 5 * |s.channel| + Rank(s.worker)
  {
    hide Inv, Apply, Rank;
    if !Resting(s) {
      ApplyKeepsInv(s, WorkerStep(s));
      WorkerPublishesNothing(s);
      DrainKeepsInv(WorkerApply(s));
    }
  }

  lemma StepKeepsAsked(s: State, id: nat)
    requires Asked(s, id)
    ensures Asked(Apply(s, WorkerStep(s)), id)
  {
    hide OnStore, OnSwap, OnSend, OnAskFlush;
    if s.channel != [] && Flush(id) in s.channel { TailKeeps(s.channel, Flush(id)); }
  }

  lemma {:induction false} DrainAnswers(s: State, id: nat)
    requires Asked(s, id)
    ensures id in Drain(s).answered
    decreases 5 * |s.channel| + Rank(s.worker)
  {
    hide Asked, Apply, Rank;
    if !Resting(s) {
      StepKeepsAsked(s, id);
      DrainAnswers(WorkerApply(s), id);
    } else {
      RestingAsked(s, id);
    }
  }

  lemma RestingAsked(s: State, id: nat)
    requires Asked(s, id) && Resting(s)
    ensures id in s.answered
  {
  }

  /** With no publisher under way the worker alone takes everything and answers every flush. */
  lemma WorkerDrainsEverything(steps: seq<Step>, id: nat)
    requires Run(Start(), steps).publishers == map[] && Asked(Run(Start(), steps), id)
    ensures var s := Drain(Run(Start(), steps));
            s.pending == map[] && s.taken == Run(Start(), steps).published && id in s.answered
  {
    hide Run, Drain, Asked;
    var s := Run(Start(), steps);
    RunKeepsInv(Start(), steps);
    DrainKeepsInv(s);
    DrainAnswers(s, id);
    TakeCatchesUp(Drain(s));
  }

  /** The gap in the promise: a publish that finished leaves its value pending with no signal in the
      channel and an idle worker, because another publisher has swapped the flag and not sent yet. */
  lemma FinishedPublishMayWaitOnAnother()
    ensures var s := Run(Start(), [Store(0, Gameplay), Swap(0), Store(1, Room), Swap(1)]);
            1 !in s.publishers && Room in s.pending && s.channel == [] && s.worker.Idle?
              && s.publishers == map[0 := Sending]
  {
    var s1 := Apply(Start(), Store(0, Gameplay));
    var s2 := Apply(s1, Swap(0));
    var s3 := Apply(s2, Store(1, Room));
    var s4 := Apply(s3, Swap(1));
    assert s4.publishers == map[0 := Sending];
    var steps := [Store(0, Gameplay), Swap(0), Store(1, Room), Swap(1)];
    assert steps[1..] == [Swap(0), Store(1, Room), Swap(1)];
    assert steps[1..][1..] == [Store(1, Room), Swap(1)];
    assert steps[1..][1..][1..] == [Swap(1)];
    assert Run(s3, [Swap(1)]) == s4 by { assert [Swap(1)][1..] == []; }
    assert Run(s2, [Store(1, Room), Swap(1)]) == s4;
    assert Run(s1, [Swap(0), Store(1, Room), Swap(1)]) == s4;
  }

  /** In every run, a publish finishes on its swap and leaves a pending value at rest exactly when it finds the
      flag up, the channel empty and the worker idle; another publisher then still owes the wake. */
  lemma FinishingSwapRestsIff(steps: seq<Step>, p: nat, kind: Kind)
    requires var s := Run(Start(), steps); p in s.publishers && s.publishers[p] == Swapping && kind in s.pending
    ensures var s := Run(Start(), steps); var t := Apply(s, Swap(p));
            && (p !in t.publishers && kind in t.pending && Resting(t)
                <==> s.wakeQueued && s.channel == [] && s.worker.Idle?)
            && (p !in t.publishers && Resting(t) ==> Owes(t.publishers, Sending))
  {
    hide Run, Owes, Accounted, FlushesOk;
    var s := Run(Start(), steps);
    StartIsInv();
    RunKeepsInv(Start(), steps);
    var t := Apply(s, Swap(p));
    ApplyKeepsInv(s, Swap(p));
    assert FlagIsCovered(t);
  }

  lemma StartIsInv()
    ensures Inv(Start())
  {
  }

  /** When that happens: with nothing in the channel and the worker idle, a pending value waits for a publisher
      that has stored and not swapped, or swapped and not sent. With none ahead of its swap, the flag is up,
      another publisher owes the wake, and until one of those sends, a flush is asked or something new is
      stored, every step leaves it waiting. */
  lemma WaitsForSender(steps: seq<Step>, next: Step)
    requires Resting(Run(Start(), steps)) && Run(Start(), steps).pending != map[]
    ensures var s := Run(Start(), steps);
            && (Owes(s.publishers, Sending) || Owes(s.publishers, Swapping))
            && (!Owes(s.publishers, Swapping) ==>
                  && s.wakeQueued && Owes(s.publishers, Sending)
                  && (Resting(Apply(s, next)) <==>
                        !(next.AskFlush? || (next.Send? && next.publisher in s.publishers)))
                  && (!next.Store? ==> Apply(s, next).pending == s.pending))
  {
    hide Run;
    RunKeepsInv(Start(), steps);
    RestingWaits(Run(Start(), steps), next);
  }

  lemma RestingWaits(s: State, next: Step)
    requires Inv(s) && Resting(s) && s.pending != map[]
    ensures Owes(s.publishers, Sending) || Owes(s.publishers, Swapping)
    ensures !Owes(s.publishers, Swapping) ==>
      && s.wakeQueued && Owes(s.publishers, Sending)
      && (Resting(Apply(s, next)) <==> !(next.AskFlush? || (next.Send? && next.publisher in s.publishers)))
      && (!next.Store? ==> Apply(s, next).pending == s.pending)
  {
    hide Owes, Accounted, FlushesOk;
    if (next.Swap? || next.Send?) && next.publisher in s.publishers { NowOwes(s.publishers, next.publisher); }
  }

  /** The converse fails: a publisher may owe its wake for a value that a flush has taken meanwhile. */
  lemma SenderMayOweNothing()
    ensures var steps := [Store(0, Gameplay), AskFlush, Receive, ClearFlag, TakeBatch, Answer, Swap(0)];
            var s := Run(Start(), steps);
            Resting(s) && s.wakeQueued && s.publishers == map[0 := Sending] && s.pending == map[]
  {
    hide Run;
    var s3 := AskedWithPending();
    AskedWithPendingIsReached();
    var s6 := Apply(Apply(Apply(s3, ClearFlag), TakeBatch), Answer);
    assert s6.publishers == map[0 := Swapping] && s6.pending == map[] && s6.worker == Idle && s6.channel == [];
    assert Apply(s6, Swap(0)).publishers == map[0 := Sending];
    var steps := [Store(0, Gameplay), AskFlush, Receive, ClearFlag, TakeBatch, Answer, Swap(0)];
    RunSteps(Start(), Store(0, Gameplay), AskFlush, Receive, [ClearFlag, TakeBatch, Answer, Swap(0)]);
    RunSteps(s3, ClearFlag, TakeBatch, Answer, [Swap(0)]);
    assert [Store(0, Gameplay), AskFlush, Receive] + [ClearFlag, TakeBatch, Answer, Swap(0)] == steps;
    assert [ClearFlag, TakeBatch, Answer] + [Swap(0)] == [ClearFlag, TakeBatch, Answer, Swap(0)];
    assert Run(s6, [Swap(0)]) == Apply(s6, Swap(0)) by { RunOne(s6, Swap(0)); }
  }

  /** A value stored by a publisher that has not swapped yet, and a flush the worker has just received. */
  function AskedWithPending(): State {
    State(map[Gameplay := 0], false, [], map[0 := Swapping], Clearing([0]), map[Gameplay := 0], map[], 1,
        [map[Gameplay := 0]], [])
  }

  lemma AskedWithPendingIsReached()
    ensures Apply(Apply(Apply(Start(), Store(0, Gameplay)), AskFlush), Receive) == AskedWithPending()
  {
    var s2 := Apply(Apply(Start(), Store(0, Gameplay)), AskFlush);
    assert s2.channel == [Flush(0)];
    assert s2.marks == [map[Gameplay := 0]];
  }

  lemma RunOne(s: State, step: Step)
    ensures Run(s, [step]) == Apply(s, step)
  {
    hide Apply;
    assert [step][1..] == [];
  }

  lemma RunSteps(s: State, a: Step, b: Step, c: Step, rest: seq<Step>)
    ensures Run(s, [a, b, c] + rest) == Run(Apply(Apply(Apply(s, a), b), c), rest)
  {
    hide Apply, Run;
    RunFront(s, a, [b, c] + rest);
    RunFront(Apply(s, a), b, [c] + rest);
    RunFront(Apply(Apply(s, a), b), c, rest);
    assert [a] + ([b, c] + rest) == [a, b, c] + rest && [b] + ([c] + rest) == [b, c] + rest;
  }

  lemma RunFront(s: State, a: Step, rest: seq<Step>)
    ensures Run(s, [a] + rest) == Run(Apply(s, a), rest)
  {
    hide Apply;
    assert ([a] + rest)[1..] == rest;
  }

  lemma DrainStep(s: State)
    requires !Resting(s)
    ensures Drain(s) == Drain(WorkerApply(s))
  {
  }

  // ---- The queue changed in place ----

  /** A publisher that is not interrupted. */
  function PublishCall(s: State, kind: Kind): State {
    OnSend(OnSwap(OnStore(s, 0, kind), 0), 0)
  }

  lemma PublishCallResult(s: State, kind: Kind)
    requires s.publishers == map[]
    ensures PublishCall(s, kind) == s.(pending := s.pending[kind := s.versions],
        published := s.published[kind := s.versions], versions := s.versions + 1,
                                      wakeQueued := true, channel := if s.wakeQueued then s.channel
                                        else s.channel + [Wake])
  {
    assert map[0 := Swapping] - {0} == map[] && map[0 := Sending] - {0} == map[];
  }

  lemma PublishCallKeepsInv(s: State, kind: Kind)
    requires Inv(s)
    ensures Inv(PublishCall(s, kind))
  {
    hide Inv, OnStore, OnSwap, OnSend;
    ApplyKeepsInv(s, Store(0, kind));
    ApplyKeepsInv(OnStore(s, 0, kind), Swap(0));
    ApplyKeepsInv(OnSwap(OnStore(s, 0, kind), 0), Send(0));
  }

  class ExportQueue {
    var pending: map<Kind, nat>
    var wakeQueued: bool
    var channel: seq<Signal>
    var versions: nat
    var flushes: nat
    ghost var state: State

    constructor ()
      ensures Valid() && state == Start()
    {
      pending, wakeQueued, channel, versions, flushes := map[], false, [], 0, 0;
      state := Start();
    }

    ghost predicate Stands(s: State)
      reads this
    {
      && pending == s.pending && wakeQueued == s.wakeQueued && channel == s.channel
      && versions == s.versions && flushes == |s.marks|
    }

    /** Between calls no publisher is interrupted and the worker is idle. */
    ghost predicate Valid()
      reads this
    {
      Inv(state) && state.publishers == map[] && state.worker.Idle? && Stands(state)
    }

    method Publish(kind: Kind)
      requires Valid()
      modifies this
      ensures Valid() && state == PublishCall(old(state), kind)
      ensures Wake in channel
    {
      hide PublishCall;
      PublishCallKeepsInv(state, kind);
      PublishCallResult(state, kind);
      pending := pending[kind := versions];
      versions := versions + 1;
      var was := wakeQueued;
      wakeQueued := true;
      if !was { channel := channel + [Wake]; assert channel[|channel| - 1] == Wake; }
      state := PublishCall(state, kind);
      assert FlagIsCovered(state);
    }

    method AskFlush() returns (id: nat)
      requires Valid()
      modifies this
      ensures Valid() && id == |old(state.marks)| && state == OnAskFlush(old(state)) && Flush(id) in channel
    {
      hide Inv;
      ApplyKeepsInv(state, Step.AskFlush);
      id := flushes;
      channel := channel + [Flush(id)];
      assert channel[|channel| - 1] == Flush(id);
      flushes := flushes + 1;
      state := OnAskFlush(state);
    }

    /** The worker's loop, run until the channel is empty. */
    method Serve() returns (answered: seq<nat>)
      requires Valid()
      modifies this
      ensures Valid() && state == Drain(old(state))
      ensures pending == map[] && channel == [] && state.taken == old(state.published)
      ensures old(state.answered) + answered == state.answered
    {
      hide Inv, Drain, Apply;
      ghost var s := state;
      answered := [];
      ghost var before := state.answered;
      while channel != []
        invariant Valid() && Drain(state) == Drain(s) && state.published == s.published
          && state.answered == before + answered
        decreases |channel|
      {
        answered := ServeOne(answered, before);
      }
      DrainKeepsInv(s);
      assert Drain(state) == state by { DrainOfResting(state); }
      RestingCaughtUp(state);
    }

    /** One signal, the coalescing window after a wake, and one batch. */
    method ServeOne(done: seq<nat>, ghost before: seq<nat>) returns (answered: seq<nat>)
      requires Valid() && channel != [] && state.answered == before + done
      modifies this
      ensures Valid() && Drain(state) == Drain(old(state)) && state.published == old(state.published)
      ensures |channel| < |old(channel)| && state.answered == before + answered
    {
      hide Inv, Drain, Apply;
      var signal := channel[0];
      Advance();
      channel := channel[1..];
      var flushers: seq<nat> := [];
      if signal.Flush? {
        flushers := [signal.id];
      } else {
        flushers := HoldWindow();
      }
      FinishBatch(flushers);
      answered := done + flushers;
    }

    /** Lower the flag, take the batch, answer the flushes, in this order. */
    method FinishBatch(flushers: seq<nat>)
      requires Inv(state) && state.publishers == map[] && state.worker == Clearing(flushers) && Stands(state)
      modifies this`wakeQueued, this`pending, this`state
      ensures Valid() && Drain(state) == Drain(old(state)) && state.published == old(state.published)
      ensures state.answered == old(state.answered) + flushers
    {
      hide Inv, Drain, Apply, WorkerApply, WorkerStep;
      Advance();
      wakeQueued := false;
      Advance();
      pending := map[];
      Advance();
    }

    /** Further wakes are absorbed; a flush ends the window at once, an empty channel by its deadline. */
    method HoldWindow() returns (flushers: seq<nat>)
      requires Inv(state) && state.publishers == map[] && state.worker.Window? && Stands(state)
      modifies this
      ensures Inv(state) && state.publishers == map[] && state.worker == Clearing(flushers) && Stands(state)
      ensures Drain(state) == Drain(old(state)) && state.published == old(state.published)
        && state.answered == old(state.answered)
      ensures |channel| <= |old(channel)|
    {
      hide Inv, Drain, Apply;
      while true
        invariant Inv(state) && state.publishers == map[] && state.worker.Window? && Stands(state)
        invariant Drain(state) == Drain(old(state)) && state.published == old(state.published)
          && state.answered == old(state.answered)
        invariant |channel| <= |old(channel)|
        decreases |channel|
      {
        if channel == [] {
          Advance();
          return [];
        }
        var signal := channel[0];
        Advance();
        channel := channel[1..];
        if signal.Flush? { return [signal.id]; }
      }
    }

    /** The worker's next step on the specification side. */
    ghost method Advance()
      requires Inv(state) && !Resting(state)
      modifies this`state
      ensures state == WorkerApply(old(state)) && Inv(state)
      ensures Drain(state) == Drain(old(state)) && state.published == old(state.published)
        && state.publishers == old(state.publishers)
      ensures match old(state.worker)
              case Idle => state == OnReceive(old(state))
              case Window => state == if old(state.channel) == [] then old(state).(worker := Clearing([]))
                else OnReceive(old(state))
              case Clearing(fs) => state == old(state).(wakeQueued := false, worker := Taking(fs))
              case Taking(_) => state == OnTake(old(state))
              case Answering(_) => state == OnAnswer(old(state))
    {
      hide Inv, OnReceive, OnTake, OnAnswer, OnStore, OnSwap, OnSend, OnAskFlush;
      ApplyKeepsInv(state, WorkerStep(state));
      DrainStep(state);
      WorkerPublishesNothing(state);
      state := WorkerApply(state);
    }
  }

  lemma DrainOfResting(s: State)
    requires Resting(s)
    ensures Drain(s) == s
  {
  }

  lemma RestingCaughtUp(s: State)
    requires Inv(s) && Resting(s) && s.publishers == map[]
    ensures s.pending == map[] && s.taken == s.published
  {
    TakeCatchesUp(s);
  }
}
