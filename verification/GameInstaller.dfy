/** The installer itself: files and manifest changed step by step, every step able to fail. */
module Transaction {
  import opened Wrappers
  import opened Rollback
  import opened Installer
  import opened InstallerProofs
  import opened InstallerRuns
  import opened InstallerOutcome

  datatype Outcome =
    | Done
    | RolledBack
    /** The manifest was saved, then deleting the old mod folder failed. */
    | SavedThenRolledBack

  /** Files no folder rename and no unguarded write ever touches. */
  predicate Ordinary(p: Path) {
    !p.Stage? && !p.ModRollback? && !p.LegacyRollback? && !p.DllBackup? && !p.AppIdBackup? && p != ModDir
      && p != LegacyModDir
  }

  predicate TameGuard(g: Guard, tag: nat) {
    match g
    case FileGuard(path, _) => Ordinary(path)
    case DirGuard(target, backup) => target == ModDir && backup == ModRollback(tag)
    case RemovalGuard(target, backup) => target == LegacyModDir && backup == LegacyRollback(tag)
  }

  ghost predicate Tame(guards: seq<Guard>, tag: nat) {
    forall g :: g in guards ==> TameGuard(g, tag)
  }

  /** Every path an undo may write. */
  function Touches(g: Guard): set<Path> {
    Sensitive(g) + Restores(g)
  }

  /** Undoing now would give back the start, up to scratch. */
  ghost predicate Safe(fs: Files, guards: seq<Guard>, start: Files, scratch: set<Path>, tag: nat) {
    Recoverable(fs, guards, start, scratch) && Tame(guards, tag)
  }

  lemma StepIsSafe(fs: Files, guards: seq<Guard>, op: Op, start: Files, scratch: set<Path>, tag: nat)
    requires Safe(fs, guards, start, scratch, tag)
    requires match op
             case Replace(path, _) => Ordinary(path)
             case Remove(path) => Ordinary(path)
             case Activate(stage, target, backup) =>
               stage == Stage(tag) && stage in fs && stage in scratch && target == ModDir
                 && backup == ModRollback(tag) && backup !in fs
             case Quarantine(target, backup) => target == LegacyModDir && backup == LegacyRollback(tag)
               && target in fs && backup !in fs
             case Scratch(path, _) =>
               if path == ModDir then Covered(guards, ModDir)
               else path in scratch && path != ModRollback(tag) && path != LegacyModDir && path != LegacyRollback(tag)
    ensures Safe(Effect(fs, op), guards + GuardOf(fs, op), start, scratch, tag)
  {
    hide Recoverable;
    assert forall g :: g in guards ==> Sensitive(g) <= {ModRollback(tag), LegacyModDir, LegacyRollback(tag)};
    assert Fits(fs, guards, op, scratch);
    OperationKeepsRecoverable(fs, guards, op, start, scratch);
  }

  lemma NothingDone(fs: Files, scratch: set<Path>, tag: nat)
    ensures Safe(fs, [], fs, scratch, tag)
  {
  }

  // ---- Undoing after the manifest is saved ----

  /** A difference confined to one rename stays confined to it. */
  lemma {:induction false} UndoAllConfines(a: Files, b: Files, guards: seq<Guard>, w: set<Path>)
    requires Agree(a, b, w)
    requires forall g :: g in guards ==> w !! Sensitive(g) || Touches(g) <= w
    ensures Agree(UndoAll(a, guards), UndoAll(b, guards), w)
    decreases |guards|
  {
    if guards != [] {
      var g := guards[|guards| - 1];
      if w !! Sensitive(g) { UndoAgrees(a, b, g, w); }
      assert Agree(Undo(a, g), Undo(b, g), w);
      UndoAllConfines(Undo(a, g), Undo(b, g), guards[..|guards| - 1], w);
    }
  }

  lemma {:induction false} UndoAllKeeps(fs: Files, guards: seq<Guard>, p: Path)
    requires forall g :: g in guards ==> p !in Touches(g)
    ensures Lookup(UndoAll(fs, guards), p) == Lookup(fs, p)
    decreases |guards|
  {
    if guards != [] {
      var g, rest := guards[|guards| - 1], guards[..|guards| - 1];
      assert g in guards && p !in Touches(g);
      assert forall h :: h in rest ==> h in guards;
      UndoAllKeeps(Undo(fs, g), rest, p);
    }
  }

  /** Undoing an activation leaves no rollback folder. */
  lemma {:induction false} NoRollbackFolderLeft(fs: Files, guards: seq<Guard>, tag: nat)
    requires Tame(guards, tag) && (DirGuard(ModDir, ModRollback(tag)) in guards || ModRollback(tag) !in fs)
    ensures ModRollback(tag) !in UndoAll(fs, guards)
    decreases |guards|
  {
    if guards != [] {
      var g, rest := guards[|guards| - 1], guards[..|guards| - 1];
      assert g in guards && TameGuard(g, tag);
      assert forall h :: h in guards ==> h == g || h in rest;
      NoRollbackFolderLeft(Undo(fs, g), rest, tag);
    }
  }

  lemma OwnCopyPaths(fs: Files, lovely: Facts, appId: Facts, b: Build, rq: Request)
    requires OwnFacts(lovely, appId, rq.game)
    ensures var copies := CopiesDll(fs, lovely, rq.game, b.lovely);
            Lookup(InstallDll(fs, lovely, rq.game, b.lovely), DllBackup(rq.game)) == Lookup(fs, if copies
                then VersionDll(rq.game) else DllBackup(rq.game))
    ensures Lookup(InstallDll(fs, lovely, rq.game, b.lovely), Stage(rq.tag)) == Lookup(fs, Stage(rq.tag))
    ensures var copies := CopiesAppId(fs, appId, rq.game, rq.steamManaged);
            Lookup(InstallAppId(fs, appId, rq.game, rq.steamManaged), AppIdBackup(rq.game)) == Lookup(fs, if copies
                then AppId(rq.game) else AppIdBackup(rq.game))
    ensures Lookup(InstallAppId(fs, appId, rq.game, rq.steamManaged), Stage(rq.tag)) == Lookup(fs, Stage(rq.tag))
  {
    hide IsLovely;
  }

  lemma NoStageAfterCore(fs: Files, b: Build, rq: Request)
    ensures Stage(rq.tag) !in InstallCore(fs, b, rq)
    ensures Stage(rq.tag) !in fs ==> Stage(rq.tag) !in InstallMaintenance(fs, b, rq)
  {
  }

  lemma LeavingSparesStage(fs: Files, s: State, rq: Request)
    ensures Stage(rq.tag) in LeaveOldGame(fs, s, rq) <==> Stage(rq.tag) in fs
  {
    hide OtherLovely;
  }

  /** The unguarded paths an install ends with: no stage folder, and the copies it took. */
  lemma InstalledScratch(s: State, b: Build, rq: Request)
    requires OwnCopies(s.manifest)
    ensures var fs := InstalledFiles(s, b, rq);
            && Stage(rq.tag) !in fs
            && Lookup(fs, DllBackup(rq.game)) == Lookup(s.files,
                if CopiesDll(s.files, PreviousLovely(s, rq.game), rq.game, b.lovely) then VersionDll(rq.game)
                else DllBackup(rq.game))
            && Lookup(fs, AppIdBackup(rq.game)) == Lookup(s.files,
                if CopiesAppId(s.files, PreviousAppId(s, rq.game), rq.game, rq.steamManaged) then AppId(rq.game)
                else AppIdBackup(rq.game))
  {
    hide InstallCore, InstallDll, InstallAppId, InstallMaintenance, LeaveOldGame, SameGame, IsLovely, PreviousLovely,
        PreviousAppId;
    var game, pl, pa := rq.game, PreviousLovely(s, rq.game), PreviousAppId(s, rq.game);
    var fs1 := InstallCore(s.files, b, rq);
    var fs2 := InstallDll(fs1, pl, game, b.lovely);
    var fs3 := InstallAppId(fs2, pa, game, rq.steamManaged);
    var fs4 := InstallMaintenance(fs3, b, rq);
    PreviousOwnFacts(s, game);
    CoreSparesGames(s.files, b, rq, game);
    SameCopies(s.files, fs1, pl, pa, b, rq);
    NoStageAfterCore(s.files, b, rq);
    OwnCopyPaths(fs1, pl, pa, b, rq);
    GameStepsIndependent(fs1, pl, game, b.lovely, rq.steamManaged);
    AppIdCopiesDependOn(fs1, fs2, pl, pa, b, rq);
    OwnCopyPaths(fs2, pl, pa, b, rq);
    GameStepsIndependent(fs2, pa, game, b.lovely, rq.steamManaged);
    NoStageAfterCore(fs3, b, rq);
    CoreSparesGames(fs3, b, rq, game);
    LeavingSparesStage(fs4, s, rq);
    LeaveOldSpares(fs4, s, rq, game);
    SameGameAt(s.files, fs1, game);
    SameGameAt(fs3, fs4, game);
    SameGameAt(fs4, LeaveOldGame(fs4, s, rq), game);
  }

  lemma SameGameAt(a: Files, b: Files, game: string)
    requires SameGame(a, b, game)
    ensures Lookup(a, VersionDll(game)) == Lookup(b, VersionDll(game))
      && Lookup(a, DllBackup(game)) == Lookup(b, DllBackup(game))
    ensures Lookup(a, AppId(game)) == Lookup(b, AppId(game))
      && Lookup(a, AppIdBackup(game)) == Lookup(b, AppIdBackup(game))
  {
  }

  /** What is copied aside depends on the folder's own paths only. */
  lemma SameCopies(a: Files, b: Files, lovely: Facts, appId: Facts, build: Build, rq: Request)
    requires SameGame(a, b, rq.game) && OwnFacts(lovely, appId, rq.game)
    ensures CopiesDll(a, lovely, rq.game, build.lovely) <==> CopiesDll(b, lovely, rq.game, build.lovely)
    ensures CopiesAppId(a, appId, rq.game, rq.steamManaged) <==> CopiesAppId(b, appId, rq.game, rq.steamManaged)
  {
    SameGameAt(a, b, rq.game);
  }

  lemma AppIdCopiesDependOn(a: Files, b: Files, lovely: Facts, appId: Facts, build: Build, rq: Request)
    requires Lookup(a, AppId(rq.game)) == Lookup(b, AppId(rq.game))
      && Lookup(a, AppIdBackup(rq.game)) == Lookup(b, AppIdBackup(rq.game))
    requires OwnFacts(lovely, appId, rq.game)
    ensures CopiesAppId(a, appId, rq.game, rq.steamManaged) <==> CopiesAppId(b, appId, rq.game, rq.steamManaged)
  {
  }

  /** The copies an install took hold the originals it started from. */
  lemma CopiesAreTaken(s: State, b: Build, rq: Request, withObs: bool)
    requires OwnCopies(s.manifest)
    ensures var fs := InstalledFiles(State(ObsFiles(s.files, b, withObs), s.manifest), b, rq);
            && Stage(rq.tag) !in fs
            && (CopiesDll(s.files, PreviousLovely(s, rq.game), rq.game, b.lovely)
                ==> Lookup(fs, DllBackup(rq.game)) == Lookup(s.files, VersionDll(rq.game)))
            && (CopiesAppId(s.files, PreviousAppId(s, rq.game), rq.game, rq.steamManaged)
                ==> Lookup(fs, AppIdBackup(rq.game)) == Lookup(s.files, AppId(rq.game)))
  {
    hide InstalledFiles, ObsFiles, PreviousLovely, PreviousAppId, SameGame, CopiesDll, CopiesAppId;
    var t := State(ObsFiles(s.files, b, withObs), s.manifest);
    InstalledScratch(t, b, rq);
    ObsSparesGames(s.files, b, withObs, rq.game);
    PreviousOwnFacts(s, rq.game);
    PreviousIgnoresFiles(s, t, rq.game);
    SameCopies(s.files, t.files, PreviousLovely(s, rq.game), PreviousAppId(s, rq.game), b, rq);
    SameGameAt(s.files, t.files, rq.game);
  }

  /** Undoing everything after a save whose clean-up failed gives exactly the late state. */
  lemma LateUnwind(s: State, installed: Files, guards: seq<Guard>, b: Build, rq: Request, withObs: bool,
                   remains: Option<Bytes>)
    requires OwnCopies(s.manifest) && FreshTag(s.files, rq.tag)
    requires Safe(installed, guards, s.files, Leftovers(s, b, rq), rq.tag)
      && DirGuard(ModDir, ModRollback(rq.tag)) in guards
    requires installed == InstalledFiles(State(ObsFiles(s.files, b, withObs), s.manifest), b, rq)
    ensures var after := UndoAll(Put(installed, ModRollback(rq.tag), remains), guards);
            after == LateFiles(s, b, rq, Lookup(after, ModDir))
  {
    hide InstalledFiles, ObsFiles, PreviousLovely, PreviousAppId, UndoAll, CopiesDll, CopiesAppId, LateFiles, Agree,
        Leftovers, OwnCopies;
    var damaged := Put(installed, ModRollback(rq.tag), remains);
    var after := UndoAll(damaged, guards);
    var w := {ModDir, ModRollback(rq.tag)};
    AgreeAfterPut(installed, ModRollback(rq.tag), remains, w);
    UndoAllConfines(damaged, installed, guards, w);
    NoRollbackFolderLeft(damaged, guards, rq.tag);
    CopiesAreTaken(s, b, rq, withObs);
    UndoAllKeeps(damaged, guards, Stage(rq.tag));
    UndoAllKeeps(damaged, guards, DllBackup(rq.game));
    UndoAllKeeps(damaged, guards, AppIdBackup(rq.game));
    forall p | p != ModDir && p != ModRollback(rq.tag) && p !in Leftovers(s, b, rq)
      ensures Lookup(after, p) == Lookup(s.files, p)
    {
      AgreesOn(after, UndoAll(installed, guards), w, p);
      AgreesOn(UndoAll(installed, guards), s.files, Leftovers(s, b, rq), p);
    }
    LatePointwise(s, after, b, rq);
  }

  lemma AgreeAfterPut(fs: Files, p: Path, content: Option<Bytes>, w: set<Path>)
    requires p in w
    ensures Agree(Put(fs, p, content), fs, w)
  {
  }

  lemma LatePointwise(s: State, after: Files, b: Build, rq: Request)
    requires FreshTag(s.files, rq.tag)
    requires forall p :: p != ModDir && p != ModRollback(rq.tag) && p !in Leftovers(s, b, rq)
              ==> Lookup(after, p) == Lookup(s.files, p)
    requires ModRollback(rq.tag) !in after && Stage(rq.tag) !in after
    requires CopiesDll(s.files, PreviousLovely(s, rq.game), rq.game, b.lovely)
      ==> Lookup(after, DllBackup(rq.game)) == Lookup(s.files, VersionDll(rq.game))
    requires CopiesAppId(s.files, PreviousAppId(s, rq.game), rq.game, rq.steamManaged)
      ==> Lookup(after, AppIdBackup(rq.game)) == Lookup(s.files, AppId(rq.game))
    ensures after == LateFiles(s, b, rq, Lookup(after, ModDir))
  {
    hide PreviousLovely, PreviousAppId, HasBackup;
    var late := LateFiles(s, b, rq, Lookup(after, ModDir));
    forall p ensures Lookup(after, p) == Lookup(late, p) {
      if p == ModRollback(rq.tag) || p == Stage(rq.tag) {
        assert p !in s.files;
      }
    }
    SameLookups(after, late);
  }

  lemma PreviousIgnoresFiles(s: State, t: State, game: string)
    requires s.manifest == t.manifest
    ensures PreviousLovely(s, game) == PreviousLovely(t, game) && PreviousAppId(s, game) == PreviousAppId(t, game)
  {
  }

  lemma SameLookups(a: Files, b: Files)
    requires forall p :: Lookup(a, p) == Lookup(b, p)
    ensures a == b
  {
    assert forall p :: p in a ==> Lookup(a, p) == Some(a[p]) && Lookup(b, p) == Some(a[p]);
    assert forall p :: p in b ==> Lookup(b, p) == Some(b[p]) && Lookup(a, p) == Some(b[p]);
  }

  // ---- What the OBS option adds ----

  function ObsFiles(fs: Files, b: Build, withObs: bool): Files {
    if withObs then
      fs[ObsPlugin := b.obsPlugin][ObsLocale := b.obsLocale][ObsMarker := b.obsMarker]
        - {ObsLegacyDll, ObsLegacyLocale}
    else fs
  }

  lemma ObsSparesGames(fs: Files, b: Build, withObs: bool, game: string)
    ensures SameGame(fs, ObsFiles(fs, b, withObs), game)
  {
  }

  /** The OBS plugin with its marker, and nothing of the retired one, when asked for; otherwise no change. */
  ghost predicate ObsInstalled(before: Files, fs: Files, b: Build, withObs: bool) {
    if withObs then
      && Lookup(fs, ObsPlugin) == Some(b.obsPlugin) && Lookup(fs, ObsLocale) == Some(b.obsLocale)
      && Lookup(fs, ObsMarker) == Some(b.obsMarker)
      && Lookup(fs, ObsLegacyDll) == None && Lookup(fs, ObsLegacyLocale) == None
    else
      forall p :: ObsPath(p) ==> Lookup(fs, p) == Lookup(before, p)
  }

  /** Everything a completed install promises, read off the files before and after. */
  ghost predicate Delivered(before: Files, manifest: Option<Manifest>, after: State, b: Build, rq: Request,
                            withObs: bool) {
    && ProductInstalled(before, after.files, b, rq)
    && InjectorInstalled(before, manifest, after.files, b, rq.game)
    && AppIdInstalled(before, manifest, after.files, rq)
    && ObsInstalled(before, after.files, b, withObs)
    && after.manifest.Some? && after.manifest.value.game == rq.game
    && after.manifest.value.distribution == (if rq.detectedPlus then BeatblockPlus else Standalone)
  }

  predicate ObsPath(p: Path) {
    p.ObsPlugin? || p.ObsLocale? || p.ObsMarker? || p.ObsLegacyDll? || p.ObsLegacyLocale?
  }

  lemma ObsStep(fs: Files, b: Build, withObs: bool)
    ensures ObsInstalled(fs, ObsFiles(fs, b, withObs), b, withObs)
    ensures forall p :: !ObsPath(p) ==> Lookup(ObsFiles(fs, b, withObs), p) == Lookup(fs, p)
  {
  }

  /** The three parts do not look at OBS files. */
  lemma ProductIgnoresObs(fs: Files, before: Files, after: Files, b: Build, rq: Request)
    requires forall p :: !ObsPath(p) ==> Lookup(before, p) == Lookup(fs, p)
    ensures ProductInstalled(before, after, b, rq) ==> ProductInstalled(fs, after, b, rq)
  {
    hide Lookup;
  }

  lemma GameIgnoresObs(fs: Files, before: Files, m: Option<Manifest>, after: Files, b: Build, rq: Request)
    requires OwnCopies(m) && forall p :: !ObsPath(p) ==> Lookup(before, p) == Lookup(fs, p)
    ensures InjectorInstalled(before, m, after, b, rq.game) ==> InjectorInstalled(fs, m, after, b, rq.game)
    ensures AppIdInstalled(before, m, after, rq) ==> AppIdInstalled(fs, m, after, rq)
  {
    hide Lookup, Compatible;
  }

  lemma ObsSurvives(fs: Files, before: Files, after: Files, m: Option<Manifest>, b: Build, rq: Request, withObs: bool)
    requires ObsInstalled(fs, before, b, withObs)
    requires forall p :: !InstallPath(p, m, rq) ==> Lookup(after, p) == Lookup(before, p)
    ensures ObsInstalled(fs, after, b, withObs)
  {
    hide Lookup;
    forall p | ObsPath(p) ensures Lookup(after, p) == Lookup(before, p) {
      assert !InstallPath(p, m, rq);
    }
  }

  lemma InstallIsDelivered(s: State, b: Build, rq: Request, withObs: bool)
    requires Accepted(rq) && OwnCopies(s.manifest)
    ensures Delivered(s.files, s.manifest, Installer.Install(State(ObsFiles(s.files, b, withObs), s.manifest), b, rq),
                b, rq, withObs)
  {
    hide Lookup, ObsFiles, Installer.Install, Accepted, OwnCopies, ProductInstalled, InjectorInstalled, AppIdInstalled,
        ObsInstalled, InstallPath;
    var before := ObsFiles(s.files, b, withObs);
    var after := Installer.Install(State(before, s.manifest), b, rq);
    ObsStep(s.files, b, withObs);
    InstallDelivers(State(before, s.manifest), b, rq);
    ProductIgnoresObs(s.files, before, after.files, b, rq);
    GameIgnoresObs(s.files, before, s.manifest, after.files, b, rq);
    ObsSurvives(s.files, before, after.files, s.manifest, b, rq, withObs);
  }

  predicate FreshTag(fs: Files, tag: nat) {
    Stage(tag) !in fs && ModRollback(tag) !in fs && LegacyRollback(tag) !in fs
  }

  /** Facts a phase starts from name only the folder's own copies. */
  predicate OwnFacts(lovely: Facts, appId: Facts, game: string) {
    (lovely.backup.Some? ==> lovely.backup.value == DllBackup(game))
      && (appId.backup.Some? ==> appId.backup.value == AppIdBackup(game))
  }

  lemma PreviousOwnFacts(s: State, game: string)
    requires OwnCopies(s.manifest)
    ensures OwnFacts(PreviousLovely(s, game), PreviousAppId(s, game), game)
  {
  }

  /** No step of this call fails. */
  ghost predicate Healthy(faults: nat -> bool) {
    forall n :: !faults(n)
  }

  lemma NewCopiesAreOwn(s: State, b: Build, rq: Request)
    requires OwnCopies(s.manifest)
    ensures OwnCopies(Some(NewManifest(s, b, rq)))
  {
    hide CopiesDll, CopiesAppId;
  }

  /** What the phases rely on: the copies they may take are the leftovers named at the start. */
  lemma CopiesAreScratch(s: State, fs: Files, b: Build, rq: Request)
    requires OwnCopies(s.manifest) && SameGame(s.files, fs, rq.game)
    ensures CopiesDll(fs, PreviousLovely(s, rq.game), rq.game, b.lovely) ==> DllBackup(rq.game) in Leftovers(s, b, rq)
    ensures CopiesAppId(fs, PreviousAppId(s, rq.game), rq.game, rq.steamManaged)
      ==> AppIdBackup(rq.game) in Leftovers(s, b, rq)
  {
    hide CopiesDll, CopiesAppId, PreviousLovely, PreviousAppId;
    PreviousOwnFacts(s, rq.game);
    SameCopies(s.files, fs, PreviousLovely(s, rq.game), PreviousAppId(s, rq.game), b, rq);
  }

  lemma AppIdCopiesAreScratch(s: State, fs: Files, b: Build, rq: Request)
    requires OwnCopies(s.manifest) && SameGame(s.files, fs, rq.game)
    ensures var after := InstallDll(fs, PreviousLovely(s, rq.game), rq.game, b.lovely);
            CopiesAppId(after, PreviousAppId(s, rq.game), rq.game, rq.steamManaged)
            ==> AppIdBackup(rq.game) in Leftovers(s, b, rq)
  {
    hide CopiesDll, CopiesAppId, PreviousLovely, PreviousAppId, InstallDll, SameGame, Leftovers;
    PreviousOwnFacts(s, rq.game);
    CopiesAreScratch(s, fs, b, rq);
    GameStepsIndependent(fs, PreviousLovely(s, rq.game), rq.game, b.lovely, rq.steamManaged);
    AppIdCopiesDependOn(fs, InstallDll(fs, PreviousLovely(s, rq.game), rq.game, b.lovely), PreviousLovely(s, rq.game),
        PreviousAppId(s, rq.game), b, rq);
  }

  /** The facts the phases compute are those of the new manifest. */
  lemma PhaseFacts(s: State, core: Files, b: Build, rq: Request)
    requires OwnCopies(s.manifest) && SameGame(s.files, core, rq.game)
    ensures LovelyFacts(core, PreviousLovely(s, rq.game), rq.game, b.lovely) == NewManifest(s, b, rq).lovely
    ensures AppIdFacts(InstallDll(core, PreviousLovely(s, rq.game), rq.game, b.lovely), PreviousAppId(s, rq.game),
        rq.game, rq.steamManaged)
      == NewManifest(s, b, rq).appId
  {
    hide PreviousLovely, PreviousAppId, InstallDll, SameGame;
    var pl, pa := PreviousLovely(s, rq.game), PreviousAppId(s, rq.game);
    var dll := InstallDll(core, pl, rq.game, b.lovely);
    PreviousOwnFacts(s, rq.game);
    SameGameAt(s.files, core, rq.game);
    SameCopies(s.files, core, pl, pa, b, rq);
    GameStepsIndependent(core, pl, rq.game, b.lovely, rq.steamManaged);
    AppIdCopiesDependOn(core, dll, pl, pa, b, rq);
  }

  lemma ObsKeepsFacts(s: State, b: Build, rq: Request, withObs: bool)
    requires OwnCopies(s.manifest)
    ensures NewManifest(State(ObsFiles(s.files, b, withObs), s.manifest), b, rq) == NewManifest(s, b, rq)
  {
    hide PreviousLovely, PreviousAppId, SameGame, ObsFiles;
    var t := State(ObsFiles(s.files, b, withObs), s.manifest);
    PreviousIgnoresFiles(s, t, rq.game);
    PreviousOwnFacts(s, rq.game);
    ObsSparesGames(s.files, b, withObs, rq.game);
    SameGameAt(s.files, t.files, rq.game);
    SameCopies(s.files, t.files, PreviousLovely(s, rq.game), PreviousAppId(s, rq.game), b, rq);
  }

  lemma SafeUndo(fs: Files, guards: seq<Guard>, start: Files, scratch: set<Path>, tag: nat)
    requires Safe(fs, guards, start, scratch, tag)
    ensures Agree(UndoAll(fs, guards), start, scratch)
  {
  }

  lemma ObsLeftovers(s: State, b: Build, rq: Request, withObs: bool)
    requires OwnCopies(s.manifest)
    ensures Leftovers(State(ObsFiles(s.files, b, withObs), s.manifest), b, rq) == Leftovers(s, b, rq)
    ensures FreshTag(s.files, rq.tag) ==> FreshTag(ObsFiles(s.files, b, withObs), rq.tag)
  {
    hide CopiesDll, CopiesAppId, PreviousLovely, PreviousAppId, SameGame;
    var t := State(ObsFiles(s.files, b, withObs), s.manifest);
    PreviousIgnoresFiles(s, t, rq.game);
    PreviousOwnFacts(s, rq.game);
    ObsSparesGames(s.files, b, withObs, rq.game);
    SameCopies(s.files, t.files, PreviousLovely(s, rq.game), PreviousAppId(s, rq.game), b, rq);
  }

  lemma PreviousAre(s: State, game: string)
    ensures PreviousLovely(s, game) == if s.manifest.Some? && s.manifest.value.game == game
      then s.manifest.value.lovely else Facts(false, None)
    ensures PreviousAppId(s, game) == if s.manifest.Some? && s.manifest.value.game == game then s.manifest.value.appId
      else Facts(false, None)
  {
  }

  lemma NewManifestIs(s: State, b: Build, rq: Request)
    ensures NewManifest(s, b, rq) == Manifest(rq.game, Chosen(rq), NewManifest(s, b, rq).lovely,
        NewManifest(s, b, rq).appId)
  {
  }

  lemma RuntimeKeepsFresh(fs: Files, b: Build, rq: Request)
    requires FreshTag(fs, rq.tag)
    ensures FreshTag(RuntimeFiles(fs, b), rq.tag) && LegacyRollback(rq.tag) !in ModFiles(RuntimeFiles(fs, b), b, rq)
  {
  }

  class GameInstaller {
    var files: Files
    var manifest: Option<Manifest>
    var guards: seq<Guard>

    constructor (fs: Files, m: Option<Manifest>)
      requires OwnCopies(m)
      ensures Valid() && View() == State(fs, m)
    {
      files, manifest, guards := fs, m, [];
    }

    /** Between calls no guard is live. */
    ghost predicate Valid()
      reads this
    {
      guards == [] && OwnCopies(manifest)
    }

    ghost function View(): State
      reads this
    {
      State(files, manifest)
    }

    // ---- Guarded operations ----

    method ReplaceFile(path: Path, bytes: Bytes, fails: bool) returns (ok: bool)
      modifies this`files, this`guards
      ensures ok == !fails
      ensures ok ==> files == Effect(old(files), Replace(path, bytes))
                     && guards == old(guards) + GuardOf(old(files), Replace(path, bytes))
      ensures !ok ==> files == old(files) && guards == old(guards)
    {
      if fails { return false; }
      var previous := Lookup(files, path);
      files := files[path := bytes];
      guards := guards + [FileGuard(path, previous)];
      return true;
    }

    method RemoveFile(path: Path, fails: bool) returns (ok: bool)
      modifies this`files, this`guards
      ensures ok == !fails
      ensures ok ==> files == Effect(old(files), Remove(path))
                     && guards == old(guards) + GuardOf(old(files), Remove(path))
      ensures !ok ==> files == old(files) && guards == old(guards)
    {
      if fails { return false; }
      var previous := Lookup(files, path);
      if path in files { files := files - {path}; }
      guards := guards + [FileGuard(path, previous)];
      return true;
    }

    /** Two renames; when the second fails the first is taken back on the spot. */
    method ActivateStage(stage: Path, target: Path, backup: Path, firstFails: bool, secondFails: bool)
      returns (ok: bool)
      requires stage in files && backup !in files && stage != target && stage != backup && target != backup
      modifies this`files, this`guards
      ensures ok ==> files == Effect(old(files), Activate(stage, target, backup))
                     && guards == old(guards) + GuardOf(old(files), Activate(stage, target, backup))
      ensures !ok ==> files == old(files) && guards == old(guards)
      ensures !firstFails && !secondFails ==> ok
    {
      if target in files {
        if firstFails { return false; }
        files := Rename(files, target, backup);
      }
      if secondFails {
        if backup in files { files := Rename(files, backup, target); }
        return false;
      }
      files := Rename(files, stage, target);
      guards := guards + [DirGuard(target, backup)];
      return true;
    }

    method QuarantineFolder(target: Path, backup: Path, fails: bool) returns (ok: bool)
      requires target in files
      modifies this`files, this`guards
      ensures ok == !fails
      ensures ok ==> files == Effect(old(files), Quarantine(target, backup))
                     && guards == old(guards) + GuardOf(old(files), Quarantine(target, backup))
      ensures !ok ==> files == old(files) && guards == old(guards)
    {
      if fails { return false; }
      files := Rename(files, target, backup);
      guards := guards + [RemovalGuard(target, backup)];
      return true;
    }

    /** What every early return does: the live guards are dropped, newest first. */
    method Unwind()
      modifies this`files, this`guards
      ensures files == UndoAll(old(files), old(guards)) && guards == []
    {
      while guards != []
        invariant UndoAll(files, guards) == UndoAll(old(files), old(guards))
        decreases |guards|
      {
        var g := guards[|guards| - 1];
        match g {
          case FileGuard(path, previous) =>
            if previous.Some? { files := files[path := previous.value]; } else { files := files - {path}; }
          case DirGuard(target, backup) =>
            files := files - {target};
            if backup in files { files := Rename(files, backup, target); }
          case RemovalGuard(target, backup) =>
            if backup in files && target !in files { files := Rename(files, backup, target); }
        }
        guards := guards[..|guards| - 1];
      }
    }

    /** The same two operations, with the promise that the start stays recoverable. */
    method GuardedReplace(path: Path, bytes: Bytes, fails: bool, ghost start: Files, ghost scratch: set<Path>,
                          ghost tag: nat) returns (ok: bool)
      requires Safe(files, guards, start, scratch, tag) && Ordinary(path)
      modifies this`files, this`guards
      ensures Safe(files, guards, start, scratch, tag) && old(guards) <= guards
      ensures ok == !fails && files == if ok then old(files)[path := bytes] else old(files)
    {
      StepIsSafe(files, guards, Replace(path, bytes), start, scratch, tag);
      ok := ReplaceFile(path, bytes, fails);
    }

    method GuardedRemove(path: Path, fails: bool, ghost start: Files, ghost scratch: set<Path>, ghost tag: nat)
      returns (ok: bool)
      requires Safe(files, guards, start, scratch, tag) && Ordinary(path)
      modifies this`files, this`guards
      ensures Safe(files, guards, start, scratch, tag) && old(guards) <= guards
      ensures ok == !fails && files == if ok then old(files) - {path} else old(files)
    {
      StepIsSafe(files, guards, Remove(path), start, scratch, tag);
      ok := RemoveFile(path, fails);
    }

    // ---- Phases of an install ----

    method StageObs(b: Build, faults: nat -> bool, ghost start: Files, ghost scratch: set<Path>, ghost tag: nat)
      returns (ok: bool)
      requires Safe(files, guards, start, scratch, tag)
      modifies this`files, this`guards
      ensures Safe(files, guards, start, scratch, tag)
      ensures Healthy(faults) ==> ok
      ensures ok ==> files == ObsFiles(old(files), b, true)
    {
      hide Safe;
      ok := GuardedReplace(ObsPlugin, b.obsPlugin, faults(0), start, scratch, tag);
      if !ok { return; }
      ok := GuardedReplace(ObsLocale, b.obsLocale, faults(1), start, scratch, tag);
      if !ok { return; }
      ok := GuardedReplace(ObsMarker, b.obsMarker, faults(2), start, scratch, tag);
      if !ok { return; }
      if ObsLegacyDll in files {
        ok := GuardedRemove(ObsLegacyDll, faults(3), start, scratch, tag);
        if !ok { return; }
      }
      if ObsLegacyLocale in files {
        ok := GuardedRemove(ObsLegacyLocale, faults(4), start, scratch, tag);
        if !ok { return; }
      }
    }

    method StageRuntime(b: Build, faults: nat -> bool, ghost start: Files, ghost scratch: set<Path>, ghost tag: nat)
      returns (ok: bool)
      requires Safe(files, guards, start, scratch, tag)
      modifies this`files, this`guards
      ensures Safe(files, guards, start, scratch, tag)
      ensures Healthy(faults) ==> ok
      ensures ok ==> files == RuntimeFiles(old(files), b)
    {
      hide Safe;
      ok := GuardedReplace(Runtime, b.runtime, faults(10), start, scratch, tag);
      if !ok { return; }
      if LegacyRuntime in files {
        ok := GuardedRemove(LegacyRuntime, faults(11), start, scratch, tag);
      }
    }

    method StageMod(b: Build, rq: Request, faults: nat -> bool, ghost start: Files, ghost scratch: set<Path>)
      returns (ok: bool)
      requires Safe(files, guards, start, scratch, rq.tag) && FreshTag(files, rq.tag) && Stage(rq.tag) in scratch
      modifies this`files, this`guards
      ensures Safe(files, guards, start, scratch, rq.tag)
      ensures Healthy(faults) ==> ok
      ensures ok ==> files == ModFiles(old(files), b, rq) && DirGuard(ModDir, ModRollback(rq.tag)) in guards
    {
      hide Safe;
      var tree := ModTree(b, Chosen(rq));
      StepIsSafe(files, guards, Scratch(Stage(rq.tag), Some(tree)), start, scratch, rq.tag);
      assert guards + [] == guards;
      files := files[Stage(rq.tag) := tree];
      if faults(12) { return false; }
      StepIsSafe(files, guards, Activate(Stage(rq.tag), ModDir, ModRollback(rq.tag)), start, scratch, rq.tag);
      ok := ActivateStage(Stage(rq.tag), ModDir, ModRollback(rq.tag), faults(13), faults(14));
      if ok { assert guards[|guards| - 1] == DirGuard(ModDir, ModRollback(rq.tag)); }
    }

    method RetireLegacyMod(rq: Request, faults: nat -> bool, ghost start: Files, ghost scratch: set<Path>)
      returns (ok: bool)
      requires Safe(files, guards, start, scratch, rq.tag) && LegacyRollback(rq.tag) !in files
        && DirGuard(ModDir, ModRollback(rq.tag)) in guards
      modifies this`files, this`guards
      ensures Safe(files, guards, start, scratch, rq.tag) && DirGuard(ModDir, ModRollback(rq.tag)) in guards
      ensures Healthy(faults) ==> ok
      ensures ok ==> files == RetiredFiles(old(files), rq)
    {
      hide Safe;
      ok := true;
      if rq.legacyManaged && LegacyModDir in files {
        StepIsSafe(files, guards, Quarantine(LegacyModDir, LegacyRollback(rq.tag)), start, scratch, rq.tag);
        ok := QuarantineFolder(LegacyModDir, LegacyRollback(rq.tag), faults(15));
      }
    }

    /** A foreign injector is copied aside before it can be replaced; the copy is not guarded. */
    method StageInjector(b: Build, game: string, facts: Facts, faults: nat -> bool, ghost start: Files,
                         ghost scratch: set<Path>, ghost tag: nat)
      returns (ok: bool, now: Facts)
      requires Safe(files, guards, start, scratch, tag)
      requires CopiesDll(files, facts, game, b.lovely) ==> DllBackup(game) in scratch
      modifies this`files, this`guards
      ensures Safe(files, guards, start, scratch, tag)
      ensures old(guards) <= guards
      ensures Healthy(faults) ==> ok
      ensures ok ==> files == InstallDll(old(files), facts, game, b.lovely)
                     && now == LovelyFacts(old(files), facts, game, b.lovely)
    {
      hide Safe, IsLovely;
      var target := VersionDll(game);
      now := facts;
      var bundled := target in files && files[target] == b.lovely;
      if target in files && !(facts.backup.Some? && facts.backup.value in files) && !bundled {
        StepIsSafe(files, guards, Scratch(DllBackup(game), Some(files[target])), start, scratch, tag);
        assert guards + [] == guards;
        if faults(20) { return false, now; }
        files := files[DllBackup(game) := files[target]];
        now := now.(backup := Some(DllBackup(game)));
      } else if target !in files && facts.backup.None? {
        now := now.(owned := true);
      }
      ok := true;
      var preserve := target in files && !bundled && !now.owned && IsLovely(files[target]);
      if !preserve {
        ok := GuardedReplace(target, b.lovely, faults(21), start, scratch, tag);
      }
    }

    method StageAppId(game: string, steamManaged: bool, facts: Facts, faults: nat -> bool, ghost start: Files,
                      ghost scratch: set<Path>, ghost tag: nat)
      returns (ok: bool, now: Facts)
      requires Safe(files, guards, start, scratch, tag)
      requires CopiesAppId(files, facts, game, steamManaged) ==> AppIdBackup(game) in scratch
      modifies this`files, this`guards
      ensures Safe(files, guards, start, scratch, tag)
      ensures old(guards) <= guards
      ensures Healthy(faults) ==> ok
      ensures ok ==> files == InstallAppId(old(files), facts, game, steamManaged)
                     && now == AppIdFacts(old(files), facts, game, steamManaged)
    {
      hide Safe;
      var target := AppId(game);
      now := facts;
      ok := true;
      if steamManaged {
        if facts.owned { ok := PutOriginal(target, facts, faults(30), start, scratch, tag); }
        now := Facts(false, None);
      } else if !(target in files && files[target] == APP_ID) {
        if target in files && !facts.owned && !(facts.backup.Some? && facts.backup.value in files) {
          StepIsSafe(files, guards, Scratch(AppIdBackup(game), Some(files[target])), start, scratch, tag);
          assert guards + [] == guards;
          if faults(31) { return false, now; }
          files := files[AppIdBackup(game) := files[target]];
          now := now.(backup := Some(AppIdBackup(game)));
        }
        ok := GuardedReplace(target, APP_ID, faults(32), start, scratch, tag);
        now := now.(owned := true);
      }
    }

    /** Guarded: the kept copy put back, or the file removed when there is none. */
    method PutOriginal(target: Path, facts: Facts, fails: bool, ghost start: Files, ghost scratch: set<Path>,
                       ghost tag: nat) returns (ok: bool)
      requires Safe(files, guards, start, scratch, tag) && Ordinary(target)
      modifies this`files, this`guards
      ensures Safe(files, guards, start, scratch, tag)
      ensures old(guards) <= guards
      ensures ok == !fails
      ensures ok ==> files == Put(old(files), target, Original(old(files), facts))
    {
      hide Safe;
      if facts.backup.Some? && facts.backup.value in files {
        ok := GuardedReplace(target, files[facts.backup.value], fails, start, scratch, tag);
      } else {
        ok := GuardedRemove(target, fails, start, scratch, tag);
      }
    }

    /** The note about the maintenance copy goes into the activated mod folder, whose guard covers it. */
    method StageMaintenance(b: Build, rq: Request, faults: nat -> bool, ghost start: Files, ghost scratch: set<Path>)
      returns (ok: bool)
      requires Safe(files, guards, start, scratch, rq.tag) && DirGuard(ModDir, ModRollback(rq.tag)) in guards
      modifies this`files, this`guards
      ensures Safe(files, guards, start, scratch, rq.tag)
      ensures old(guards) <= guards
      ensures Healthy(faults) ==> ok
      ensures ok ==> files == InstallMaintenance(old(files), b, rq)
    {
      hide Safe;
      ok := true;
      if !rq.runsFromMaintenance {
        ok := GuardedReplace(Maintenance, b.self, faults(40), start, scratch, rq.tag);
        if !ok { return; }
      }
      var noted := GetOr(files, ModDir, "") + "installer-path";
      assert DirGuard(ModDir, ModRollback(rq.tag)) in guards;
      assert Covered(guards, ModDir);
      StepIsSafe(files, guards, Scratch(ModDir, Some(noted)), start, scratch, rq.tag);
      assert guards + [] == guards;
      files := files[ModDir := noted];
      if faults(41) { return false; }
    }

    /** The former folder is left only after the new one passed every check. */
    method LeaveFormer(m: Manifest, other: bool, faults: nat -> bool, ghost start: Files, ghost scratch: set<Path>,
                       ghost tag: nat) returns (ok: bool)
      requires Safe(files, guards, start, scratch, tag)
      modifies this`files, this`guards
      ensures Safe(files, guards, start, scratch, tag)
      ensures old(guards) <= guards
      ensures Healthy(faults) ==> ok
      ensures ok ==> files == LeaveAppId(LeaveDll(old(files), m.lovely, m.game, other), m.appId, m.game)
    {
      hide Safe;
      ok := true;
      var dll := VersionDll(m.game);
      if m.lovely.backup.Some? && m.lovely.backup.value in files {
        ok := PutOriginal(dll, m.lovely, faults(50), start, scratch, tag);
      } else if m.lovely.owned && dll in files && !other {
        ok := PutOriginal(dll, m.lovely, faults(51), start, scratch, tag);
      }
      if !ok { return; }
      if m.appId.owned { ok := PutOriginal(AppId(m.game), m.appId, faults(52), start, scratch, tag); }
    }

    /** The guarded part of an install, up to the last check before the manifest is saved. */
    method StageAll(b: Build, rq: Request, faults: nat -> bool, ghost s: State, ghost start: Files,
                    ghost scratch: set<Path>) returns (ok: bool, next: Manifest)
      requires State(files, manifest) == s && OwnCopies(s.manifest)
      requires Safe(files, guards, start, scratch, rq.tag) && FreshTag(files, rq.tag) && Leftovers(s, b, rq) <= scratch
      modifies this`files, this`guards
      ensures Safe(files, guards, start, scratch, rq.tag)
      ensures ok ==> files == InstalledFiles(s, b, rq) && next == NewManifest(s, b, rq)
                     && DirGuard(ModDir, ModRollback(rq.tag)) in guards
      ensures Healthy(faults) ==> ok
    {
      hide Safe, InstallDll, InstallAppId, InstallMaintenance, LeaveDll, LeaveAppId, RuntimeFiles, ModFiles,
          RetiredFiles, SameGame,
           LovelyFacts, AppIdFacts, CopiesDll, CopiesAppId, OtherLovely, PreviousLovely, PreviousAppId, NewManifest;
      ghost var pl, pa := PreviousLovely(s, rq.game), PreviousAppId(s, rq.game);
      var previous := if manifest.Some? && manifest.value.game == rq.game then manifest else None;
      var lovely := if previous.Some? then previous.value.lovely else Facts(false, None);
      var appId := if previous.Some? then previous.value.appId else Facts(false, None);
      PreviousAre(s, rq.game);
      next := Manifest(rq.game, Chosen(rq), lovely, appId);
      ok := StageRuntime(b, faults, start, scratch, rq.tag);
      if !ok { return; }
      RuntimeKeepsFresh(s.files, b, rq);
      ok := StageMod(b, rq, faults, start, scratch);
      if !ok { return; }
      ok := RetireLegacyMod(rq, faults, start, scratch);
      if !ok { return; }
      ghost var core := files;
      CoreSparesGames(s.files, b, rq, rq.game);
      CopiesAreScratch(s, core, b, rq);
      AppIdCopiesAreScratch(s, core, b, rq);
      PhaseFacts(s, core, b, rq);
      ok, lovely := StageInjector(b, rq.game, lovely, faults, start, scratch, rq.tag);
      if !ok { return; }
      ok, appId := StageAppId(rq.game, rq.steamManaged, appId, faults, start, scratch, rq.tag);
      if !ok { return; }
      ok := StageMaintenance(b, rq, faults, start, scratch);
      if !ok { return; }
      next := Manifest(rq.game, Chosen(rq), lovely, appId);
      NewManifestIs(s, b, rq);
      if faults(45) { return false, next; }
      if manifest.Some? && manifest.value.game != rq.game && rq.oldGameValid {
        ok := LeaveFormer(manifest.value, OtherLovely(files, rq.otherMods), faults, start, scratch, rq.tag);
      }
    }

    /** An install, repair or move. Undone completely, done completely, or, when deleting the old
        mod folder fails after the save, undone under a manifest that says otherwise. */
    method Install(b: Build, rq: Request, withObs: bool, faults: nat -> bool, remains: Option<Bytes>)
      returns (outcome: Outcome)
      requires Valid() && FreshTag(files, rq.tag)
      modifies this
      ensures Valid()
      ensures outcome.Done?
        ==> Accepted(rq) && View() == Installer.Install(State(ObsFiles(old(files), b, withObs), old(manifest)), b, rq)
      ensures outcome.Done? ==> Delivered(old(files), old(manifest), View(), b, rq, withObs)
      ensures outcome.RolledBack?
        ==> manifest == old(manifest) && Agree(files, old(files), Leftovers(old(View()), b, rq))
      ensures outcome.SavedThenRolledBack?
        ==> Accepted(rq) && View() == LateFailure(old(View()), b, rq, Lookup(files, ModDir))
      ensures Healthy(faults) && Accepted(rq) ==> outcome.Done?
    {
      hide Safe, InstalledFiles, Agree, UndoAll, Leftovers, NewManifest, LateFiles, Delivered;
      ghost var s := View();
      ghost var start := files;
      ghost var scratch := Leftovers(s, b, rq);
      NothingDone(files, scratch, rq.tag);
      var ok := true;
      if withObs { ok := StageObs(b, faults, start, scratch, rq.tag); }
      if !ok || !Accepted(rq) {
        SafeUndo(files, guards, start, scratch, rq.tag);
        Unwind();
        return RolledBack;
      }
      ghost var t := View();
      assert t == State(ObsFiles(s.files, b, withObs), s.manifest);
      ObsLeftovers(s, b, rq, withObs);
      var next;
      ok, next := StageAll(b, rq, faults, t, start, scratch);
      if !ok || faults(60) {
        SafeUndo(files, guards, start, scratch, rq.tag);
        Unwind();
        return RolledBack;
      }
      ObsKeepsFacts(s, b, rq, withObs);
      NewCopiesAreOwn(s, b, rq);
      manifest := Some(next);
      if ModRollback(rq.tag) in files && faults(61) {
        ghost var installed := files;
        LateUnwind(s, installed, guards, b, rq, withObs, remains);
        files := Put(files, ModRollback(rq.tag), remains);
        Unwind();
        return SavedThenRolledBack;
      }
      files := files - {ModRollback(rq.tag), LegacyRollback(rq.tag)};
      guards := [];
      InstallIsDelivered(s, b, rq, withObs);
      return Done;
    }

    /** Restore stops after `steps` of its three removals and copies. */
    method Restore(gameValid: bool, steps: nat) returns (ok: bool)
      requires Valid()
      modifies this`files
      ensures Valid() && View() == Installer.Restore(old(View()), gameValid, steps)
      ensures ok == (manifest.Some? && gameValid && steps >= 3)
      ensures ok ==> Lookup(files, ModDir) == None
    {
      if manifest.None? || !gameValid || steps < 1 { return false; }
      var m := manifest.value;
      files := files - {ModDir};
      if steps < 2 { return false; }
      RestoreDll(m, false);
      if steps < 3 { return false; }
      RestoreAppId(m);
      return true;
    }

    method RestoreDll(m: Manifest, other: bool)
      modifies this`files
      ensures files == BackDll(old(files), m.lovely, m.game, other)
      ensures Lookup(files, ModDir) == Lookup(old(files), ModDir)
    {
      if m.lovely.backup.Some? {
        if m.lovely.backup.value in files { files := files[VersionDll(m.game) := files[m.lovely.backup.value]]; }
      } else if m.lovely.owned && !other {
        files := files - {VersionDll(m.game)};
      }
    }

    method RestoreAppId(m: Manifest)
      modifies this`files
      ensures files == BackAppId(old(files), m.appId, m.game)
      ensures Lookup(files, ModDir) == Lookup(old(files), ModDir)
    {
      if m.appId.backup.Some? {
        if m.appId.backup.value in files { files := files[AppId(m.game) := files[m.appId.backup.value]]; }
      } else if m.appId.owned {
        files := files - {AppId(m.game)};
      }
    }

    /** Uninstall stops after `steps` of its four steps; removing the product afterwards cannot fail it. */
    method Uninstall(gameValid: bool, otherMods: bool, runsFromMaintenance: bool, steps: nat) returns (ok: bool)
      requires Valid()
      modifies this`files, this`manifest
      ensures Valid() && View() == Installer.Uninstall(old(View()), gameValid, otherMods, runsFromMaintenance, steps)
      ensures ok == (old(manifest).None? || steps >= 4)
      ensures ok && old(manifest).Some? ==>
                && manifest == None && Lookup(files, ModDir) == None
                && Lookup(files, Runtime) == None && Lookup(files, LegacyRuntime) == None
    {
      hide OtherLovely, BackDll, BackAppId;
      if manifest.None? { return true; }
      if steps < 1 { return false; }
      var m := manifest.value;
      files := files - {ModDir};
      if steps < 2 { return false; }
      if gameValid { RestoreDll(m, OtherLovely(files, otherMods)); }
      if steps < 3 { return false; }
      if gameValid { RestoreAppId(m); }
      if steps < 4 { return false; }
      manifest := None;
      RemoveProductFiles(runsFromMaintenance);
      return true;
    }

    method RemoveProductFiles(runsFromMaintenance: bool)
      modifies this`files
      ensures files == RemoveProduct(old(files), runsFromMaintenance)
    {
      files := files - {Runtime, LegacyRuntime};
      if ObsMarker in files { files := files - {ObsPlugin, ObsLocale, ObsMarker}; }
      if !runsFromMaintenance { files := files - {Maintenance}; }
    }
  }
}
