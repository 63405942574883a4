/** The undo guards of the installer over a file map.

    A directory is one entry of the map, holding its whole tree; renaming moves the entry.
    Dropping an uncommitted guard undoes its operation; undo writes are taken to succeed. */
module Rollback {
  import opened Wrappers

  type Bytes = string

  /** Every path the installer touches. Game folders have one spelling; `tag` is the
      fresh suffix of one attempt's stage and rollback folders. */
  datatype Path =
    | Runtime | LegacyRuntime | Maintenance
    | ModDir | LegacyModDir
    | Stage(tag: nat) | ModRollback(tag: nat) | LegacyRollback(tag: nat)
    | VersionDll(game: string) | AppId(game: string)
    | DllBackup(game: string) | AppIdBackup(game: string)
    | ObsPlugin | ObsLocale | ObsMarker | ObsLegacyDll | ObsLegacyLocale

  type Files = map<Path, Bytes>

  function Lookup(fs: Files, p: Path): Option<Bytes> {
    if p in fs then Some(fs[p]) else None
  }

  function Put(fs: Files, p: Path, content: Option<Bytes>): Files {
    if content.Some? then fs[p := content.value] else fs - {p}
  }

  /** Two file maps differ at most on the paths `w`. */
  ghost predicate Agree(a: Files, b: Files, w: set<Path>) {
    forall p :: p !in w ==> Lookup(a, p) == Lookup(b, p)
  }

  // ---- Guards ----

  datatype Guard =
    | FileGuard(path: Path, previous: Option<Bytes>)
    | DirGuard(target: Path, backup: Path)
    | RemovalGuard(target: Path, backup: Path)

  function Rename(fs: Files, source: Path, target: Path): Files
    requires source in fs
  {
    (fs - {source})[target := fs[source]]
  }

  /** What dropping an uncommitted guard does. */
  function Undo(fs: Files, g: Guard): Files {
    match g
    case FileGuard(path, previous) => Put(fs, path, previous)
    case DirGuard(target, backup) =>
      var cleared := fs - {target};
      if backup in cleared then Rename(cleared, backup, target) else cleared
    case RemovalGuard(target, backup) =>
      if backup in fs && target !in fs then Rename(fs, backup, target) else fs
  }

  /** Locals are dropped in reverse order of declaration. */
  function UndoAll(fs: Files, guards: seq<Guard>): Files
    decreases |guards|
  {
    if guards == [] then fs else UndoAll(Undo(fs, guards[|guards| - 1]), guards[..|guards| - 1])
  }

  /** The elements of a vector, and the fields of a struct, are dropped front to back. */
  function UndoVec(fs: Files, guards: seq<Guard>): Files
    decreases |guards|
  {
    if guards == [] then fs else UndoVec(Undo(fs, guards[0]), guards[1..])
  }

  // ---- Operations ----

  datatype Op =
    | Replace(path: Path, bytes: Bytes)
    | Remove(path: Path)
    | Activate(stage: Path, target: Path, backup: Path)
    | Quarantine(target: Path, backup: Path)
    | Scratch(path: Path, content: Option<Bytes>)

  /** The files after an operation that succeeds. `Scratch` is a write no guard protects. */
  function Effect(fs: Files, op: Op): Files {
    match op
    case Replace(path, bytes) => fs[path := bytes]
    case Remove(path) => fs - {path}
    case Activate(stage, target, backup) =>
      var moved := if target in fs then Rename(fs, target, backup) else fs;
      if stage in moved then Rename(moved, stage, target) else moved
    case Quarantine(target, backup) => if target in fs then Rename(fs, target, backup) else fs
    case Scratch(path, content) => Put(fs, path, content)
  }

  /** The paths an operation changes. */
  function Changes(op: Op): set<Path> {
    match op
    case Replace(path, _) => {path}
    case Remove(path) => {path}
    case Activate(stage, target, backup) => {stage, target, backup}
    case Quarantine(target, backup) => {target, backup}
    case Scratch(path, _) => {path}
  }

  /** A replaced file holds the new bytes and a removed one is gone; an activated folder has taken the target's place
      and the former one, if any, the backup's; a quarantined one has moved to its backup. Nothing else changes. */
  lemma EffectIs(fs: Files, op: Op)
    requires op.Activate? ==> op.stage in fs && op.stage != op.target && op.stage != op.backup && op.target != op.backup
    requires op.Quarantine? ==> op.target in fs && op.target != op.backup
    ensures var after := Effect(fs, op);
            && Agree(after, fs, Changes(op))
            && match op
               case Replace(path, bytes) => Lookup(after, path) == Some(bytes)
               case Remove(path) => Lookup(after, path) == None
               case Activate(stage, target, backup) =>
                 && Lookup(after, target) == Lookup(fs, stage) && Lookup(after, stage) == None
                 && Lookup(after, backup) == Lookup(fs, if target in fs then target else backup)
               case Quarantine(target, backup) =>
                 Lookup(after, backup) == Lookup(fs, target) && Lookup(after, target) == None
               case Scratch(path, content) => Lookup(after, path) == content
  {
    match op
    case Activate(stage, target, backup) =>
    case _ =>
  }

  function GuardOf(fs: Files, op: Op): seq<Guard> {
    match op
    case Replace(path, _) => [FileGuard(path, Lookup(fs, path))]
    case Remove(path) => [FileGuard(path, Lookup(fs, path))]
    case Activate(_, target, backup) => [DirGuard(target, backup)]
    case Quarantine(target, backup) => [RemovalGuard(target, backup)]
    case Scratch(_, _) => []
  }

  /** The path whose value an undo depends on, and the path it puts back whatever it holds. */
  function Sensitive(g: Guard): set<Path> {
    match g
    case FileGuard(_, _) => {}
    case DirGuard(_, backup) => {backup}
    case RemovalGuard(target, backup) => {target, backup}
  }

  function Restores(g: Guard): set<Path> {
    match g
    case FileGuard(path, _) => {path}
    case DirGuard(target, _) => {target}
    case RemovalGuard(_, _) => {}
  }

  predicate Insensitive(guards: seq<Guard>, p: Path) {
    forall g :: g in guards ==> p !in Sensitive(g)
  }

  predicate Covered(guards: seq<Guard>, p: Path) {
    exists g :: g in guards && p in Restores(g)
  }

  /** What each operation relies on: rollback folders have fresh names, a stage exists and is
      scratch, and an unguarded write touches only scratch or a folder some guard puts back. */
  predicate Fits(fs: Files, guards: seq<Guard>, op: Op, scratch: set<Path>) {
    match op
    case Replace(_, _) => true
    case Remove(_) => true
    case Activate(stage, target, backup) =>
      && stage in fs && stage in scratch && Insensitive(guards, stage)
      && backup !in fs && stage != target && stage != backup && target != backup
    case Quarantine(target, backup) => target in fs && backup !in fs && target != backup
    case Scratch(path, _) => Insensitive(guards, path) && (path in scratch || Covered(guards, path))
  }

  // ---- Undoing a guard stack ----

  /** Undo forgets a difference on the path it restores and keeps agreement elsewhere. */
  lemma UndoAgrees(a: Files, b: Files, g: Guard, w: set<Path>)
    requires Agree(a, b, w) && w !! Sensitive(g)
    ensures Agree(Undo(a, g), Undo(b, g), w - Restores(g))
  {
    match g
    case FileGuard(_, _) =>
    case DirGuard(target, backup) => assert Lookup(a, backup) == Lookup(b, backup);
    case RemovalGuard(target, backup) =>
      assert Lookup(a, backup) == Lookup(b, backup) && Lookup(a, target) == Lookup(b, target);
  }

  lemma {:induction false} UndoAllAgrees(a: Files, b: Files, guards: seq<Guard>, p: Path, w: set<Path>)
    requires Agree(a, b, w) && w <= {p} && (w != {} ==> Insensitive(guards, p))
    ensures Agree(UndoAll(a, guards), UndoAll(b, guards), w)
    ensures Covered(guards, p) ==> Agree(UndoAll(a, guards), UndoAll(b, guards), {})
    decreases |guards|
  {
    if guards != [] {
      var g := guards[|guards| - 1];
      var rest := guards[..|guards| - 1];
      assert g in guards;
      assert w !! Sensitive(g);
      UndoAgrees(a, b, g, w);
      assert forall h :: h in rest ==> h in guards;
      assert forall h :: h in guards ==> h == g || h in rest;
      UndoAllAgrees(Undo(a, g), Undo(b, g), rest, p, w - Restores(g));
      if p in Restores(g) { assert w - Restores(g) == {}; }
    }
  }

  /** Undoing one operation right away gives back the files before it, up to its stage folder. */
  lemma UndoInvertsEffect(fs: Files, guards: seq<Guard>, op: Op, scratch: set<Path>)
    requires Fits(fs, guards, op, scratch) && !op.Scratch?
    ensures Agree(Undo(Effect(fs, op), GuardOf(fs, op)[0]), fs, if op.Activate? then {op.stage} else {})
  {
  }

  ghost predicate Recoverable(fs: Files, guards: seq<Guard>, start: Files, scratch: set<Path>) {
    Agree(UndoAll(fs, guards), start, scratch)
  }

  /** One more operation keeps the start state recoverable. */
  lemma OperationKeepsRecoverable(fs: Files, guards: seq<Guard>, op: Op, start: Files, scratch: set<Path>)
    requires Recoverable(fs, guards, start, scratch) && Fits(fs, guards, op, scratch)
    ensures Recoverable(Effect(fs, op), guards + GuardOf(fs, op), start, scratch)
  {
    if op.Scratch? {
      assert guards + GuardOf(fs, op) == guards;
      UndoAllAgrees(Effect(fs, op), fs, guards, op.path, {op.path});
    } else {
      var g := GuardOf(fs, op)[0];
      var all := guards + GuardOf(fs, op);
      assert all[|all| - 1] == g && all[..|all| - 1] == guards;
      UndoInvertsEffect(fs, guards, op, scratch);
      if op.Activate? {
        UndoAllAgrees(Undo(Effect(fs, op), g), fs, guards, op.stage, {op.stage});
      } else {
        UndoAllAgrees(Undo(Effect(fs, op), g), fs, guards, Runtime, {});
      }
    }
  }

  /** Files and guards after running a list of operations. */
  function Perform(fs: Files, guards: seq<Guard>, ops: seq<Op>): (Files, seq<Guard>)
    decreases |ops|
  {
    if ops == [] then (fs, guards)
    else Perform(Effect(fs, ops[0]), guards + GuardOf(fs, ops[0]), ops[1..])
  }

  predicate AllFit(fs: Files, guards: seq<Guard>, ops: seq<Op>, scratch: set<Path>)
    decreases |ops|
  {
    ops != [] ==>
      && Fits(fs, guards, ops[0], scratch)
      && AllFit(Effect(fs, ops[0]), guards + GuardOf(fs, ops[0]), ops[1..], scratch)
  }

  /** Undoing the guard stack of any operation list restores the start state on every protected path. */
  lemma UndoingRestoresStart(fs: Files, ops: seq<Op>, scratch: set<Path>)
    requires AllFit(fs, [], ops, scratch)
    ensures var (after, guards) := Perform(fs, [], ops); Agree(UndoAll(after, guards), fs, scratch)
  {
    PerformKeepsRecoverable(fs, [], ops, fs, scratch);
  }

  lemma {:induction false} PerformKeepsRecoverable(fs: Files, guards: seq<Guard>, ops: seq<Op>, start: Files,
                                                   scratch: set<Path>)
    requires Recoverable(fs, guards, start, scratch) && AllFit(fs, guards, ops, scratch)
    ensures var (after, all) := Perform(fs, guards, ops); Recoverable(after, all, start, scratch)
    decreases |ops|
  {
    if ops != [] {
      OperationKeepsRecoverable(fs, guards, ops[0], start, scratch);
      PerformKeepsRecoverable(Effect(fs, ops[0]), guards + GuardOf(fs, ops[0]), ops[1..], start, scratch);
    }
  }

  /** An activation whose second rename fails puts the previous folder back itself. */
  lemma FailedActivationChangesNothing(fs: Files, target: Path, backup: Path)
    requires target in fs && backup !in fs && target != backup
    ensures Rename(Rename(fs, target, backup), backup, target) == fs
  {
  }

  // ---- Front-to-back drops ----

  predicate DistinctFiles(guards: seq<Guard>) {
    && (forall i :: 0 <= i < |guards| ==> guards[i].FileGuard?)
    && (forall i, j :: 0 <= i < j < |guards| ==> guards[i].path != guards[j].path)
  }

  /** A vector of file guards may be dropped in either order when its paths are distinct. */
  lemma {:induction false} VecDropsLikeStack(fs: Files, guards: seq<Guard>)
    requires DistinctFiles(guards)
    ensures UndoVec(fs, guards) == UndoAll(fs, guards)
    decreases |guards|
  {
    if guards != [] {
      var first, rest := guards[0], guards[1..];
      VecDropsLikeStack(Undo(fs, first), rest);
      FirstUndoCommutes(fs, first, rest);
      assert guards == [first] + rest;
    }
  }

  lemma {:induction false} FirstUndoCommutes(fs: Files, first: Guard, rest: seq<Guard>)
    requires DistinctFiles([first] + rest)
    ensures UndoAll(Undo(fs, first), rest) == UndoAll(fs, [first] + rest)
    decreases |rest|
  {
    var all := [first] + rest;
    if rest == [] {
      assert all == [first] && all[..0] == [];
    } else {
      var last, front := rest[|rest| - 1], rest[..|rest| - 1];
      assert all[|all| - 1] == last && all[..|all| - 1] == [first] + front;
      assert first.path != last.path by { assert all[0].path != all[|all| - 1].path; }
      assert Undo(Undo(fs, first), last) == Undo(Undo(fs, last), first);
      assert DistinctFiles([first] + front) by { assert [first] + front == all[..|all| - 1]; }
      FirstUndoCommutes(Undo(fs, last), first, front);
    }
  }

  /** With one path guarded twice in a vector, the front-to-back drop restores the middle state. */
  lemma RepeatedPathInVecIsNotRestored()
    ensures var guards := [FileGuard(Runtime, Some("old")), FileGuard(Runtime, Some("middle"))];
            && UndoAll(map[Runtime := "new"], guards) == map[Runtime := "old"]
            && UndoVec(map[Runtime := "new"], guards) == map[Runtime := "middle"]
  {
    var guards := [FileGuard(Runtime, Some("old")), FileGuard(Runtime, Some("middle"))];
    assert guards[1..] == [guards[1]] && guards[..1] == [guards[0]];
  }
}
