/** Muting a renderer's audio sessions and giving every session its own mute state back. */
module AudioIsolation {
  import opened Wrappers

  const RESTORE_RETRIES: nat := 20
  const DISCOVERY_TIMEOUT: nat := 5_000
  const DISCOVERY_RETRY: nat := 50
  const DISCOVERY_STEADY_RETRY: nat := 1_000

  /** A session is named by a number; its process never changes. */
  datatype Session = Session(id: nat, process: nat)

  /** What is remembered of a session: the mute state it is to get back. */
  datatype Held = Held(session: Session, original: bool)

  /** `muted` is the set of sessions that are muted right now, ours or not. */
  datatype Engine = Engine(muted: set<Session>, held: map<string, seq<Held>>)

  function SetMuted(muted: set<Session>, s: Session, on: bool): set<Session> {
    if on then muted + {s} else muted - {s}
  }

  // ---- Isolate ----

  /** The sessions of one process in a listing, each with its current state; a listing may name a
      session more than once. */
  function Matches(muted: set<Session>, process: nat, listing: seq<Session>): seq<Held> {
    if listing == [] then []
    else
      var before, s := Matches(muted, process, listing[..|listing| - 1]), listing[|listing| - 1];
      if s.process == process then before + [Held(s, s in muted)] else before
  }

  function Sessions(hs: seq<Held>): set<Session> {
    set h | h in hs :: h.session
  }

  datatype Outcome = Isolated | NotFound | Failed

  /** Some index below `n` fails. */
  predicate AnyFails(failing: set<nat>, n: nat) {
    exists i: nat :: i < n && i in failing
  }

  /** A failed write or read leaves everything as it was: what had been muted is rolled back. */
  function Isolate(e: Engine, key: string, process: nat, listing: seq<Session>, unreadable: set<nat>,
                   failing: set<nat>): (Engine, Outcome) {
    var matches := Matches(e.muted, process, listing);
    if key in e.held then (e, Isolated)
    else if AnyFails(unreadable, |matches|) then (e, Failed)
    else if matches == [] then (e, NotFound)
    else if AnyFails(failing, |matches|) then (e, Failed)
    else (Engine(e.muted + Sessions(matches), e.held[key := matches]), Isolated)
  }

  // ---- Restore ----

  /** Every session is tried; a failed write leaves its session as it is. */
  function Restored(muted: set<Session>, hs: seq<Held>, failing: set<nat>): set<Session> {
    if hs == [] then muted
    else
      var n := |hs| - 1;
      var before := Restored(muted, hs[..n], failing);
      if n in failing then before else SetMuted(before, hs[n].session, hs[n].original)
  }

  /** The key stays held until all of its sessions were restored in one attempt. */
  function Restore(e: Engine, key: string, failing: set<nat>): (Engine, bool) {
    if key !in e.held then (e, true)
    else
      var muted := Restored(e.muted, e.held[key], failing);
      if AnyFails(failing, |e.held[key]|) then (e.(muted := muted), false) else (Engine(muted, e.held - {key}), true)
  }

  /** Attempts follow one another until one succeeds. */
  function RestoreTries(e: Engine, key: string, attempts: seq<set<nat>>): (Engine, bool)
    decreases |attempts|
  {
    if attempts == [] then (e, false)
    else
      var (next, ok) := Restore(e, key, attempts[0]);
      if ok then (next, true) else RestoreTries(next, key, attempts[1..])
  }

  // ---- The worker ----

  datatype Pending = Pending(process: nat, started: nat, next: nat)

  datatype Worker = Worker(engine: Engine, pending: map<string, Pending>)

  datatype Step =
    | AskIsolate(key: string, process: nat, now: nat)
    | Poll(key: string, now: nat, listing: Option<seq<Session>>, unreadable: set<nat>, failing: set<nat>)
    | AskRestore(key: string, attempts: seq<set<nat>>)
    | Disable

  /** Discovery is quick at first and settles to a steady pace. */
  function Rescheduled(p: Pending, now: nat): Pending {
    p.(next := now + if now >= p.started + DISCOVERY_TIMEOUT then DISCOVERY_STEADY_RETRY else DISCOVERY_RETRY)
  }

  function PollKey(w: Worker, key: string, now: nat, listing: Option<seq<Session>>, unreadable: set<nat>,
                   failing: set<nat>): Worker {
    if key !in w.pending || now < w.pending[key].next then w
    else
      var p := w.pending[key];
      var (engine, outcome) := if listing.None? then (w.engine, Failed)
        else Isolate(w.engine, key, p.process, listing.value, unreadable, failing);
      if outcome == Isolated then Worker(engine, w.pending - {key})
        else Worker(engine, w.pending[key := Rescheduled(p, now)])
  }

  function Apply(w: Worker, step: Step): Worker {
    match step
    case AskIsolate(key, process, now) => w.(pending := w.pending[key := Pending(process, now, now)])
    case Poll(key, now, listing, unreadable, failing) => PollKey(w, key, now, listing, unreadable, failing)
    case AskRestore(key, attempts) => Worker(RestoreTries(w.engine, key, attempts).0, w.pending - {key})
    case Disable => w.(pending := map[])
  }

  function Run(w: Worker, steps: seq<Step>): Worker
    decreases |steps|
  {
    if steps == [] then w else Run(Apply(w, steps[0]), steps[1..])
  }

  // ---- The invariant ----

  predicate Holds(held: map<string, seq<Held>>, s: Session) {
    exists k :: k in held && s in Sessions(held[k])
  }

  predicate Remembers(hs: seq<Held>, base: set<Session>) {
    forall h :: h in hs ==> (h.original <==> h.session in base)
  }

  /** Sessions muted from the start stay muted, any other muted session is held, and what is
      remembered of a held session is its state from the start. */
  predicate Inv(e: Engine, base: set<Session>) {
    && base <= e.muted
    && (forall s :: s in e.muted && s !in base ==> Holds(e.held, s))
    && (forall k :: k in e.held ==> Remembers(e.held[k], base))
  }

  lemma {:induction false} MatchesMeaning(muted: set<Session>, process: nat, listing: seq<Session>)
    ensures forall h :: h in Matches(muted, process, listing)
             <==> h.session in listing && h.session.process == process && h.original == (h.session in muted)
  {
    if listing != [] { MatchesMeaning(muted, process, listing[..|listing| - 1]); }
  }

  /** A newly isolated process keeps the books right exactly when none of its sessions is one that
      some held key has muted. */
  lemma IsolateSoundIff(e: Engine, base: set<Session>, key: string, process: nat, listing: seq<Session>,
                        unreadable: set<nat>, failing: set<nat>)
    requires Inv(e, base) && key !in e.held
    requires Isolate(e, key, process, listing, unreadable, failing).1 == Isolated
    ensures Inv(Isolate(e, key, process, listing, unreadable, failing).0, base)
      <==> forall s :: s in listing && s.process == process && s in e.muted ==> s in base
  {
    var matches := Matches(e.muted, process, listing);
    var f := Isolate(e, key, process, listing, unreadable, failing).0;
    MatchesMeaning(e.muted, process, listing);
    forall s | s in f.muted && s !in base ensures Holds(f.held, s) {
      if s in Sessions(matches) { assert s in Sessions(f.held[key]); } else { HoldsMore(e.held, key, matches, s); }
    }
    if forall s :: s in listing && s.process == process && s in e.muted ==> s in base {
      assert Remembers(matches, base);
    } else {
      var s :| s in listing && s.process == process && s in e.muted && s !in base;
      assert Held(s, true) in matches;
      assert !Remembers(f.held[key], base);
    }
  }

  lemma HoldsMore(held: map<string, seq<Held>>, key: string, hs: seq<Held>, s: Session)
    requires key !in held && Holds(held, s)
    ensures Holds(held[key := hs], s)
  {
    var k :| k in held && s in Sessions(held[k]);
    assert s in Sessions(held[key := hs][k]);
  }

  /** No held key has a session of this process. */
  predicate Free(held: map<string, seq<Held>>, process: nat) {
    forall k :: k in held ==> forall s :: s in Sessions(held[k]) ==> s.process != process
  }

  lemma FreeIsSound(e: Engine, base: set<Session>, process: nat)
    requires Inv(e, base) && Free(e.held, process)
    ensures forall s: Session :: s.process == process && s in e.muted ==> s in base
  {
  }

  /** The state of each session after a restore attempt: its own from the start where it worked. */
  lemma {:induction false} RestoredMeaning(muted: set<Session>, hs: seq<Held>, failing: set<nat>, base: set<Session>)
    requires Remembers(hs, base) && base <= muted
    ensures var after := Restored(muted, hs, failing);
            && base <= after <= muted
            && (forall s :: s in muted && s !in after ==> s in Sessions(hs))
            && (!AnyFails(failing, |hs|) ==> forall s :: s in Sessions(hs) && s in after ==> s in base)
  {
    if hs != [] {
      var n := |hs| - 1;
      assert Remembers(hs[..n], base) by { assert forall h :: h in hs[..n] ==> h in hs; }
      RestoredMeaning(muted, hs[..n], failing, base);
      assert hs[n] in hs;
      assert forall s :: s in Sessions(hs) ==> s in Sessions(hs[..n]) || s == hs[n].session by {
        forall s | s in Sessions(hs) ensures s in Sessions(hs[..n]) || s == hs[n].session {
          var i :| 0 <= i < |hs| && hs[i].session == s;
          if i < n { assert hs[..n][i] == hs[i]; }
        }
      }
      assert forall s :: s in Sessions(hs[..n]) ==> s in Sessions(hs);
      if !AnyFails(failing, |hs|) {
        assert !AnyFails(failing, n) && n !in failing;
      }
    }
  }

  lemma RestoreKeepsInv(e: Engine, base: set<Session>, key: string, failing: set<nat>)
    requires Inv(e, base)
    ensures Inv(Restore(e, key, failing).0, base)
    ensures Restore(e, key, failing).1 ==> key !in Restore(e, key, failing).0.held
  {
    hide Restored, AnyFails, Remembers, Sessions;
    if key in e.held {
      RestoredMeaning(e.muted, e.held[key], failing, base);
      var f := Restore(e, key, failing).0;
      forall s | s in f.muted && s !in base ensures Holds(f.held, s) {
        assert Holds(e.held, s);
        var k :| k in e.held && s in Sessions(e.held[k]);
        if AnyFails(failing, |e.held[key]|) { assert s in Sessions(f.held[k]); }
        else { assert k != key && s in Sessions(f.held[k]); }
      }
    }
  }

  lemma {:induction false} TriesKeepInv(e: Engine, base: set<Session>, key: string, attempts: seq<set<nat>>)
    requires Inv(e, base)
    ensures Inv(RestoreTries(e, key, attempts).0, base)
    ensures RestoreTries(e, key, attempts).1 ==> key !in RestoreTries(e, key, attempts).0.held
    decreases |attempts|
  {
    hide Inv, Restore;
    if attempts != [] {
      RestoreKeepsInv(e, base, key, attempts[0]);
      if !Restore(e, key, attempts[0]).1 { TriesKeepInv(Restore(e, key, attempts[0]).0, base, key, attempts[1..]); }
    }
  }

  /** A poll may isolate a process only while no held key has one of its sessions. */
  predicate Disjoint(w: Worker, step: Step) {
    step.Poll? && step.key in w.pending && step.key !in w.engine.held
    ==> Free(w.engine.held, w.pending[step.key].process)
  }

  predicate DisjointRun(w: Worker, steps: seq<Step>)
    decreases |steps|
  {
    steps != [] ==> Disjoint(w, steps[0]) && DisjointRun(Apply(w, steps[0]), steps[1..])
  }

  lemma ApplyKeepsInv(w: Worker, step: Step, base: set<Session>)
    requires Inv(w.engine, base) && Disjoint(w, step)
    ensures Inv(Apply(w, step).engine, base)
  {
    hide Inv, Isolate, Free;
    match step
    case Poll(key, now, listing, unreadable, failing) =>
      if key in w.pending && now >= w.pending[key].next && listing.Some? {
        var p := w.pending[key];
        IsolateUnchanged(w.engine, key, p.process, listing.value, unreadable, failing);
        if key !in w.engine.held
          && Isolate(w.engine, key, p.process, listing.value, unreadable, failing).1 == Isolated {
          FreeIsSound(w.engine, base, p.process);
          IsolateSoundIff(w.engine, base, key, p.process, listing.value, unreadable, failing);
        }
      }
    case AskRestore(key, attempts) => TriesKeepInv(w.engine, base, key, attempts);
    case _ =>
  }

  lemma IsolateUnchanged(e: Engine, key: string, process: nat, listing: seq<Session>, unreadable: set<nat>,
                         failing: set<nat>)
    ensures key in e.held || Isolate(e, key, process, listing, unreadable, failing).1 != Isolated
      ==> Isolate(e, key, process, listing, unreadable, failing).0 == e
  {
    hide Matches, AnyFails;
  }

  lemma {:induction false} RunKeepsInv(w: Worker, steps: seq<Step>, base: set<Session>)
    requires Inv(w.engine, base) && DisjointRun(w, steps)
    ensures Inv(Run(w, steps).engine, base)
    decreases |steps|
  {
    hide Inv, Apply, Disjoint;
    if steps != [] {
      ApplyKeepsInv(w, steps[0], base);
      RunKeepsInv(Apply(w, steps[0]), steps[1..], base);
    }
  }

  // ---- What it guarantees ----

  /** After any run with disjoint processes: a session no key holds has its initial state, and a
      held one is muted or has its initial state. */
  lemma EverySessionAccountedFor(base: set<Session>, steps: seq<Step>, s: Session)
    requires DisjointRun(Worker(Engine(base, map[]), map[]), steps)
    ensures var e := Run(Worker(Engine(base, map[]), map[]), steps).engine;
            && (!Holds(e.held, s) ==> (s in e.muted <==> s in base))
            && (Holds(e.held, s) ==> s in e.muted || s !in base)
            && (e.held == map[] ==> e.muted == base)
  {
    hide Run, DisjointRun;
    RunKeepsInv(Worker(Engine(base, map[]), map[]), steps, base);
  }

  /** Isolating touches the sessions of that process only. */
  lemma IsolateSparesOthers(e: Engine, key: string, process: nat, listing: seq<Session>, unreadable: set<nat>,
                            failing: set<nat>, s: Session)
    requires s.process != process
    ensures s in Isolate(e, key, process, listing, unreadable, failing).0.muted <==> s in e.muted
  {
    MatchesMeaning(e.muted, process, listing);
  }

  /** Restoring touches the sessions of that key only. */
  lemma RestoreSparesOthers(e: Engine, key: string, failing: set<nat>, s: Session)
    requires key in e.held ==> s !in Sessions(e.held[key])
    ensures s in Restore(e, key, failing).0.muted <==> s in e.muted
  {
    if key in e.held { RestoredSpares(e.muted, e.held[key], failing, s); }
  }

  lemma {:induction false} RestoredSpares(muted: set<Session>, hs: seq<Held>, failing: set<nat>, s: Session)
    requires s !in Sessions(hs)
    ensures s in Restored(muted, hs, failing) <==> s in muted
  {
    if hs != [] {
      assert hs[|hs| - 1] in hs;
      assert forall h :: h in hs[..|hs| - 1] ==> h in hs;
      RestoredSpares(muted, hs[..|hs| - 1], failing, s);
    }
  }

  /** A successful isolation has muted every listed session of the process, once however often listed;
      a successful restore undoes it exactly. */
  lemma RestoreUndoesIsolate(e: Engine, base: set<Session>, key: string, process: nat, listing: seq<Session>,
                             attempt: set<nat>)
    requires Inv(e, base) && key !in e.held && Free(e.held, process)
    requires Isolate(e, key, process, listing, {}, {}).1 == Isolated
      && Restore(Isolate(e, key, process, listing, {}, {}).0, key, attempt).1
    ensures var f := Isolate(e, key, process, listing, {}, {}).0;
            && (forall s :: s in listing && s.process == process ==> s in f.muted)
            && Restore(f, key, attempt).0 == e
  {
    hide Restored, AnyFails, Matches;
    var f := Isolate(e, key, process, listing, {}, {}).0;
    MatchesMeaning(e.muted, process, listing);
    FreeIsSound(e, base, process);
    IsolateSoundIff(e, base, key, process, listing, {}, {});
    RestoredMeaning(f.muted, f.held[key], attempt, base);
    forall s | s in listing && s.process == process ensures s in f.muted {
      assert Held(s, s in e.muted) in Matches(e.muted, process, listing);
    }
    var g := Restore(f, key, attempt).0;
    assert g.held == e.held;
    forall s ensures s in g.muted <==> s in e.muted {
      if s !in Sessions(f.held[key]) { RestoreSparesOthers(f, key, attempt, s); }
    }
  }

  /** The step really tries to isolate the key: its request is pending and due. */
  predicate Attempts(w: Worker, step: Step, key: string) {
    step.Poll? && step.key == key && key in w.pending && step.now >= w.pending[key].next
  }

  /** The step neither makes the request anew nor withdraws it. */
  predicate LeavesRequest(step: Step, key: string) {
    !step.Disable? && (step.AskIsolate? || step.AskRestore? ==> step.key != key)
  }

  predicate NotBefore(w: Worker, key: string, bound: nat) {
    key in w.pending ==> w.pending[key].next >= bound
  }

  lemma {:induction false} NeverEarlier(w: Worker, key: string, steps: seq<Step>, bound: nat)
    requires NotBefore(w, key, bound) && forall step :: step in steps ==> LeavesRequest(step, key)
    ensures NotBefore(Run(w, steps), key, bound)
    decreases |steps|
  {
    hide Isolate, RestoreTries;
    if steps != [] {
      assert steps[0] in steps && forall step :: step in steps[1..] ==> step in steps;
      assert LeavesRequest(steps[0], key);
      NeverEarlier(Apply(w, steps[0]), key, steps[1..], bound);
    }
  }

  /** However often and in whatever order the worker polls: after an attempt that did not isolate a key, which
      changes no session, no attempt on it comes sooner than 50 ms later, or a second later once five seconds
      have passed since it was asked; after one that did, none comes at all. */
  lemma RetriesArePaced(w: Worker, key: string, first: Step, steps: seq<Step>, later: Step)
    requires Attempts(w, first, key) && forall step :: step in steps ==> LeavesRequest(step, key)
    requires Attempts(Run(Apply(w, first), steps), later, key)
    ensures key in Apply(w, first).pending && Apply(w, first).engine == w.engine
    ensures later.now >= first.now + (if first.now >= w.pending[key].started + 5_000 then 1_000 else 50)
  {
    hide Run, Isolate;
    var next := Apply(w, first);
    if first.listing.Some? {
      IsolateUnchanged(w.engine, key, w.pending[key].process, first.listing.value, first.unreadable, first.failing);
    }
    if key !in next.pending { NeverAskedAgain(next, key, steps); }
    NeverEarlier(next, key, steps, if key in next.pending then next.pending[key].next else 0);
  }

  lemma {:induction false} NeverAskedAgain(w: Worker, key: string, steps: seq<Step>)
    requires key !in w.pending && forall step :: step in steps ==> LeavesRequest(step, key)
    ensures key !in Run(w, steps).pending
    decreases |steps|
  {
    hide Isolate, RestoreTries;
    if steps != [] {
      assert steps[0] in steps && forall step :: step in steps[1..] ==> step in steps;
      assert LeavesRequest(steps[0], key);
      NeverAskedAgain(Apply(w, steps[0]), key, steps[1..]);
    }
  }

  // ---- What does get isolated and restored ----

  /** How many entries of a listing are sessions of a process. */
  function Listed(process: nat, listing: seq<Session>): nat {
    if listing == [] then 0
    else Listed(process, listing[1..]) + (if listing[0].process == process then 1 else 0)
  }

  lemma {:induction false} ListedSnoc(process: nat, listing: seq<Session>, s: Session)
    ensures Listed(process, listing + [s]) == Listed(process, listing) + (if s.process == process then 1 else 0)
    decreases |listing|
  {
    if listing == [] {
      assert [s][1..] == [];
    } else {
      assert (listing + [s])[1..] == listing[1..] + [s];
      ListedSnoc(process, listing[1..], s);
    }
  }

  lemma {:induction false} MatchesCount(muted: set<Session>, process: nat, listing: seq<Session>)
    ensures |Matches(muted, process, listing)| == Listed(process, listing)
  {
    if listing != [] {
      MatchesCount(muted, process, listing[..|listing| - 1]);
      ListedSnoc(process, listing[..|listing| - 1], listing[|listing| - 1]);
      assert listing == listing[..|listing| - 1] + [listing[|listing| - 1]];
    }
  }

  /** The enumeration worked, names a session of the process, and each one named can be read and written. */
  predicate Isolable(process: nat, listing: Option<seq<Session>>, unreadable: set<nat>, failing: set<nat>) {
    && listing.Some? && Listed(process, listing.value) > 0
    && forall i :: 0 <= i < Listed(process, listing.value) ==> i !in unreadable && i !in failing
  }

  /** A due request is met, and dropped, exactly when its key is held already or its sessions can be isolated: then
      each listed session of the process is muted, no other one changes, and each is remembered with the state it
      had. Otherwise no session changes, and it is tried again 50 ms later, or a second later once five seconds
      have passed. */
  lemma PollOutcome(w: Worker, key: string, now: nat, listing: Option<seq<Session>>, unreadable: set<nat>,
                    failing: set<nat>)
    requires key in w.pending && now >= w.pending[key].next
    ensures var p := w.pending[key]; var after := PollKey(w, key, now, listing, unreadable, failing);
            && (listing.Some? && key in w.engine.held ==> after == Worker(w.engine, w.pending - {key}))
            && (key !in w.engine.held && Isolable(p.process, listing, unreadable, failing) ==>
                  && after.pending == w.pending - {key} && after.engine.held.Keys == w.engine.held.Keys + {key}
                  && (forall s :: s in after.engine.muted <==>
                        s in w.engine.muted || (s in listing.value && s.process == p.process))
                  && (forall h :: h in after.engine.held[key] <==>
                        h.session in listing.value && h.session.process == p.process
                        && h.original == (h.session in w.engine.muted)))
            && (listing.None? || (key !in w.engine.held && !Isolable(p.process, listing, unreadable, failing)) ==>
                  && after.engine == w.engine && after.pending.Keys == w.pending.Keys
                  && after.pending[key] == p.(next := now + if now >= p.started + 5_000 then 1_000 else 50))
  {
    hide Matches, Listed;
    var p := w.pending[key];
    if listing.Some? && key !in w.engine.held {
      var matches := Matches(w.engine.muted, p.process, listing.value);
      MatchesMeaning(w.engine.muted, p.process, listing.value);
      MatchesCount(w.engine.muted, p.process, listing.value);
      forall s ensures s in Sessions(matches) <==> s in listing.value && s.process == p.process {
        if s in listing.value && s.process == p.process { assert Held(s, s in w.engine.muted) in matches; }
      }
      assert matches == [] <==> Listed(p.process, listing.value) == 0;
    }
  }

  /** Asking makes a request that is due at once; asking to restore and disabling withdraw it. */
  lemma RequestsMade(w: Worker, key: string, process: nat, now: nat, attempts: seq<set<nat>>)
    ensures Apply(w, AskIsolate(key, process, now)) == w.(pending := w.pending[key := Pending(process, now, now)])
    ensures key !in Apply(w, AskRestore(key, attempts)).pending && Apply(w, Disable).pending == map[]
    ensures forall other :: other != key && other in w.pending ==>
              other in Apply(w, AskRestore(key, attempts)).pending
  {
    hide RestoreTries;
  }

  /** No index below `n` fails. */
  predicate AllWork(n: nat, failing: set<nat>) {
    forall i :: 0 <= i < n ==> i !in failing
  }

  /** Asking to restore releases a held key exactly when, in one of the attempts, every session of it can be
      written; until then the key stays held with what is remembered. */
  lemma {:induction false} RestoredIff(e: Engine, key: string, attempts: seq<set<nat>>)
    requires key in e.held
    ensures var (f, ok) := RestoreTries(e, key, attempts);
            && (ok <==> exists a :: a in attempts && AllWork(|e.held[key]|, a))
            && f.held == if ok then e.held - {key} else e.held
    decreases |attempts|
  {
    hide Restored;
    if attempts != [] {
      var (next, ok) := Restore(e, key, attempts[0]);
      assert ok <==> AllWork(|e.held[key]|, attempts[0]);
      assert forall a :: a in attempts <==> a == attempts[0] || a in attempts[1..];
      if !ok { RestoredIff(next, key, attempts[1..]); }
    }
  }

  // ---- The failing inputs ----

  /** Two keys on one process: the second remembers the first one's mute, and the session stays muted
      after both are restored. */
  lemma SharedProcessStaysMuted(s: Session)
    ensures var e0 := Engine({}, map[]);
            var e2 := Isolate(Isolate(e0, "A", s.process, [s], {}, {}).0, "B", s.process, [s], {}, {}).0;
            var e4 := Restore(Restore(e2, "A", {}).0, "B", {}).0;
            e4.held == map[] && e4.muted == {s}
  {
    var e0 := Engine({}, map[]);
    assert [s][..0] == [];
    assert Matches({}, s.process, [s]) == [Held(s, false)];
    var e1 := Isolate(e0, "A", s.process, [s], {}, {}).0;
    assert e1.held == map["A" := [Held(s, false)]] && e1.muted == {s};
    assert Matches({s}, s.process, [s]) == [Held(s, true)];
    var e2 := Isolate(e1, "B", s.process, [s], {}, {}).0;
    assert e2.held == map["A" := [Held(s, false)], "B" := [Held(s, true)]] && e2.muted == {s};
    RestoredOne({s}, Held(s, false));
    var e3 := Restore(e2, "A", {}).0;
    assert e3.held == map["B" := [Held(s, true)]] && e3.muted == {};
    RestoredOne({}, Held(s, true));
  }

  lemma RestoredOne(muted: set<Session>, h: Held)
    ensures Restored(muted, [h], {}) == SetMuted(muted, h.session, h.original)
  {
    assert [h][..0] == [];
  }

  // ---- Rolling back ----

  /** The sessions muted so far are given their state back, newest first; some writes may fail. */
  function RolledBack(muted: set<Session>, hs: seq<Held>, failing: set<nat>): set<Session>
    decreases |hs|
  {
    if hs == [] then muted
    else
      var n := |hs| - 1;
      RolledBack(if n in failing then muted else SetMuted(muted, hs[n].session, hs[n].original), hs[..n], failing)
  }

  /** Some rollback write of this session got through. */
  predicate Reached(hs: seq<Held>, failing: set<nat>, s: Session) {
    exists i: nat :: i < |hs| && i !in failing && hs[i].session == s
  }

  lemma {:induction false} RolledBackMeaning(muted: set<Session>, hs: seq<Held>, failing: set<nat>,
                                             before: set<Session>)
    requires forall h :: h in hs ==> h.original == (h.session in before)
    requires before <= muted
    ensures forall s :: s in RolledBack(muted, hs, failing) <==> s in muted && (Reached(hs, failing, s) ==> s in before)
    decreases |hs|
  {
    if hs != [] {
      var n := |hs| - 1;
      var next := if n in failing then muted else SetMuted(muted, hs[n].session, hs[n].original);
      assert hs[n] in hs && forall h :: h in hs[..n] ==> h in hs;
      RolledBackMeaning(next, hs[..n], failing, before);
      forall s ensures Reached(hs, failing, s)
        <==> Reached(hs[..n], failing, s) || (n !in failing && hs[n].session == s) {
        if Reached(hs[..n], failing, s) {
          var i: nat :| i < n && i !in failing && hs[..n][i].session == s;
          assert hs[i].session == s;
        }
        if Reached(hs, failing, s) {
          var i: nat :| i < |hs| && i !in failing && hs[i].session == s;
          if i < n { assert hs[..n][i].session == s; }
        }
      }
    }
  }

  /** A rollback gives everything back exactly when, of every session it had to unmute, one write got through. */
  lemma RollbackExactIff(muted: set<Session>, hs: seq<Held>, failing: set<nat>)
    requires forall h :: h in hs ==> h.original == (h.session in muted)
    ensures RolledBack(muted + Sessions(hs), hs, failing) == muted
      <==> forall s :: s in Sessions(hs) && s !in muted ==> Reached(hs, failing, s)
  {
    hide RolledBack, Reached;
    RolledBackMeaning(muted + Sessions(hs), hs, failing, muted);
    var after := RolledBack(muted + Sessions(hs), hs, failing);
    if forall s :: s in Sessions(hs) && s !in muted ==> Reached(hs, failing, s) {
      assert after == muted;
    } else {
      var s :| s in Sessions(hs) && s !in muted && !Reached(hs, failing, s);
      assert s in after;
    }
  }

  // ---- Polling ----

  /** What one poll finds when it enumerates the sessions for a key, and which accesses fail. */
  datatype Found = Found(listing: Option<seq<Session>>, unreadable: set<nat>, failing: set<nat>)

  function PollAll(w: Worker, keys: seq<string>, now: nat, found: string -> Found): Worker
    decreases |keys|
  {
    if keys == [] then w
    else
      var key := keys[|keys| - 1];
      PollKey(PollAll(w, keys[..|keys| - 1], now, found), key, now, found(key).listing, found(key).unreadable,
          found(key).failing)
  }

  /** Polling other keys neither isolates this one nor moves its next attempt. */
  lemma {:induction false} PollSparesOtherRequests(w: Worker, keys: seq<string>, now: nat, found: string -> Found,
                                                   key: string)
    requires key !in keys
    ensures var after := PollAll(w, keys, now, found);
            && (key in after.pending <==> key in w.pending)
              && (key in w.pending ==> after.pending[key] == w.pending[key])
            && (key in after.engine.held <==> key in w.engine.held)
              && (key in w.engine.held ==> after.engine.held[key] == w.engine.held[key])
    decreases |keys|
  {
    hide Matches, AnyFails;
    if keys != [] { PollSparesOtherRequests(w, keys[..|keys| - 1], now, found, key); }
  }

  /** One round of polling meets each due request exactly when its key is held already or its own sessions can be
      isolated, whatever the other requests find and in whatever order they come. */
  lemma {:induction false} RoundMeetsIff(w: Worker, keys: seq<string>, now: nat, found: string -> Found, key: string)
    requires key in keys && forall i, j :: 0 <= i < j < |keys| ==> keys[i] != keys[j]
    requires key in w.pending && now >= w.pending[key].next && key !in w.engine.held
    ensures var f := found(key); var after := PollAll(w, keys, now, found);
            && (key in after.engine.held <==> Isolable(w.pending[key].process, f.listing, f.unreadable, f.failing))
            && (key in after.engine.held <==> key !in after.pending)
    decreases |keys|
  {
    hide PollKey, Isolable;
    var n := |keys| - 1;
    var before := PollAll(w, keys[..n], now, found);
    if keys[n] == key {
      PollSparesOtherRequests(w, keys[..n], now, found, key);
      PollOutcome(before, key, now, found(key).listing, found(key).unreadable, found(key).failing);
      MetIff(before, key, now, found(key));
    } else {
      RoundMeetsIff(w, keys[..n], now, found, key);
      PollLeaves(before, keys[n], now, found(keys[n]), key);
    }
  }

  lemma MetIff(w: Worker, key: string, now: nat, f: Found)
    requires key in w.pending && now >= w.pending[key].next && key !in w.engine.held
    ensures var after := PollKey(w, key, now, f.listing, f.unreadable, f.failing);
            && (key in after.engine.held <==> Isolable(w.pending[key].process, f.listing, f.unreadable, f.failing))
            && (key in after.engine.held <==> key !in after.pending)
  {
    hide PollKey;
    PollOutcome(w, key, now, f.listing, f.unreadable, f.failing);
  }

  lemma PollLeaves(w: Worker, other: string, now: nat, f: Found, key: string)
    requires other != key
    ensures var after := PollKey(w, other, now, f.listing, f.unreadable, f.failing);
            && (key in after.pending <==> key in w.pending) && (key in after.engine.held <==> key in w.engine.held)
  {
    hide Matches, AnyFails;
  }

  // ---- The engine changed in place ----

  class IsolationEngine {
    var muted: set<Session>
    var held: map<string, seq<Held>>
    var pending: map<string, Pending>

    constructor (initiallyMuted: set<Session>)
      ensures View() == Engine(initiallyMuted, map[]) && pending == map[]
    {
      muted, held, pending := initiallyMuted, map[], map[];
    }

    ghost function View(): Engine
      reads this
    {
      Engine(muted, held)
    }

    method Collect(process: nat, listing: seq<Session>, unreadable: set<nat>) returns (matches: seq<Held>, ok: bool)
      ensures ok <==> !AnyFails(unreadable, |Matches(muted, process, listing)|)
      ensures ok ==> matches == Matches(muted, process, listing)
    {
      matches := [];
      var i := 0;
      while i < |listing|
        invariant i <= |listing| && matches == Matches(muted, process, listing[..i]) && !AnyFails(unreadable, |matches|)
      {
        assert listing[..i + 1][..i] == listing[..i];
        if listing[i].process == process {
          if |matches| in unreadable {
            MatchesGrow(muted, process, listing, i + 1);
            return matches, false;
          }
          matches := matches + [Held(listing[i], listing[i] in muted)];
        }
        i := i + 1;
      }
      assert listing[..i] == listing;
      ok := true;
    }

    /** Mutes one process's sessions, all of them or none. */
    method IsolateExact(key: string, process: nat, listing: seq<Session>, unreadable: set<nat>, failing: set<nat>,
                        rollbackFailing: set<nat>) returns (outcome: Outcome)
      modifies this`muted, this`held
      ensures outcome == Isolate(old(View()), key, process, listing, unreadable, failing).1
      ensures rollbackFailing == {} || outcome != Failed
        ==> View() == Isolate(old(View()), key, process, listing, unreadable, failing).0
      ensures held == Isolate(old(View()), key, process, listing, unreadable, failing).0.held
    {
      hide Matches, RolledBack;
      if key in held { return Isolated; }
      var matches, ok := Collect(process, listing, unreadable);
      if !ok { return Failed; }
      if matches == [] { return NotFound; }
      ghost var before := muted;
      MatchesMeaning(before, process, listing);
      var i := 0;
      while i < |matches|
        invariant i <= |matches| && !AnyFails(failing, i)
        invariant muted == before + Sessions(matches[..i]) && held == old(held)
      {
        if i in failing {
          Rollback(matches[..i], rollbackFailing);
          assert forall h :: h in matches[..i] ==> h in matches;
          RollbackExactIff(before, matches[..i], rollbackFailing);
          if rollbackFailing == {} { AllReached(matches[..i]); }
          return Failed;
        }
        assert matches[..i + 1] == matches[..i] + [matches[i]];
        muted := SetMuted(muted, matches[i].session, true);
        i := i + 1;
      }
      assert matches[..i] == matches;
      held := held[key := matches];
      return Isolated;
    }

    method Rollback(hs: seq<Held>, failing: set<nat>)
      modifies this`muted
      ensures muted == RolledBack(old(muted), hs, failing)
    {
      var i := |hs|;
      assert hs[..i] == hs;
      while i > 0
        invariant 0 <= i <= |hs| && RolledBack(muted, hs[..i], failing) == RolledBack(old(muted), hs, failing)
        decreases i
      {
        i := i - 1;
        assert hs[..i + 1][..i] == hs[..i];
        if i !in failing { muted := SetMuted(muted, hs[i].session, hs[i].original); }
      }
    }

    method RestoreKey(key: string, failing: set<nat>) returns (ok: bool)
      modifies this`muted, this`held
      ensures (View(), ok) == Restore(old(View()), key, failing)
    {
      if key !in held { return true; }
      var hs := held[key];
      ok := true;
      var i := 0;
      while i < |hs|
        invariant i <= |hs| && muted == Restored(old(muted), hs[..i], failing) && held == old(held)
        invariant ok <==> !AnyFails(failing, i)
      {
        assert hs[..i + 1][..i] == hs[..i];
        if i in failing { ok := false; } else { muted := SetMuted(muted, hs[i].session, hs[i].original); }
        i := i + 1;
      }
      assert hs[..i] == hs;
      if ok { held := held - {key}; }
    }

    /** Up to twenty attempts, each with failures of its own. */
    method RestoreWithRetries(key: string, attempts: seq<set<nat>>) returns (ok: bool)
      requires |attempts| == 20
      modifies this`muted, this`held
      ensures (View(), ok) == RestoreTries(old(View()), key, attempts)
    {
      hide Restore;
      var attempt := 0;
      while attempt < RESTORE_RETRIES
        invariant attempt <= RESTORE_RETRIES
        invariant RestoreTries(View(), key, attempts[attempt..]) == RestoreTries(old(View()), key, attempts)
      {
        assert attempts[attempt..][1..] == attempts[attempt + 1..];
        ok := RestoreKey(key, attempts[attempt]);
        if ok { return true; }
        attempt := attempt + 1;
      }
      return false;
    }

    /** Every request whose time has come is tried once, in whatever order the map yields them. */
    method PollPending(now: nat, found: string -> Found) returns (ghost order: seq<string>)
      modifies this
      ensures Worker(View(), pending) == PollAll(old(Worker(View(), pending)), order, now, found)
      ensures forall key :: key in order <==> key in old(pending)
      ensures forall i, j :: 0 <= i < j < |order| ==> order[i] != order[j]
    {
      hide Isolate;
      order := [];
      var keys := pending.Keys;
      while keys != {}
        invariant Worker(View(), pending) == PollAll(old(Worker(View(), pending)), order, now, found)
        invariant keys <= old(pending).Keys && forall key :: key in order <==> key in old(pending) && key !in keys
        invariant forall i, j :: 0 <= i < j < |order| ==> order[i] != order[j]
        decreases |keys|
      {
        var key :| key in keys;
        PollSparesOtherRequests(old(Worker(View(), pending)), order, now, found, key);
        var request := pending[key];
        if now >= request.next {
          var outcome := Failed;
          if found(key).listing.Some? {
            IsolateUnchanged(View(), key, request.process, found(key).listing.value, found(key).unreadable,
                found(key).failing);
            outcome := IsolateExact(key, request.process, found(key).listing.value, found(key).unreadable,
                found(key).failing, {});
          }
          if outcome == Isolated {
            pending := pending - {key};
          } else {
            pending := pending[key := Rescheduled(request, now)];
          }
        }
        assert (order + [key])[..|order|] == order;
        order := order + [key];
        keys := keys - {key};
      }
    }
  }

  lemma AllReached(hs: seq<Held>)
    ensures forall s :: s in Sessions(hs) ==> Reached(hs, {}, s)
  {
    forall s | s in Sessions(hs) ensures Reached(hs, {}, s) {
      var i: nat :| i < |hs| && hs[i].session == s;
      assert i !in {};
    }
  }

  lemma {:induction false} MatchesGrow(muted: set<Session>, process: nat, listing: seq<Session>, n: nat)
    requires n <= |listing|
    ensures |Matches(muted, process, listing[..n])| <= |Matches(muted, process, listing)|
    decreases |listing|
  {
    if n < |listing| {
      assert listing[..|listing| - 1][..n] == listing[..n];
      MatchesGrow(muted, process, listing[..|listing| - 1], n);
    } else {
      assert listing[..n] == listing;
    }
  }
}
