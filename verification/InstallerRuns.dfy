/** Whole runs of install, repair, move, restore and uninstall, each of which may stop part way. */
module InstallerRuns {
  import opened Wrappers
  import opened Rollback
  import opened Installer
  import opened InstallerProofs

  // ---- Restore and uninstall ----

  lemma DroppingSparesGames(fs: Files, gone: set<Path>, game: string)
    requires forall p :: p in gone ==> !GamePath(p, game)
    ensures SameGame(fs, fs - gone, game)
  {
  }

  lemma BackSparesOthers(fs: Files, facts: Facts, game: string, other: bool, spared: string)
    requires game != spared
    ensures SameGame(fs, BackDll(fs, facts, game, other), spared)
    ensures SameGame(fs, BackAppId(fs, facts, game), spared)
  {
  }

  /** Putting one original back, whether or not it happens, keeps the managed folder recoverable. */
  lemma BackKeepsManaged(fs: Files, original: Files, m: Manifest, b: Build, other: bool)
    requires Managed(fs, original, m, b)
    ensures Managed(BackDll(fs, m.lovely, m.game, other), original, m, b)
    ensures Managed(BackAppId(fs, m.appId, m.game), original, m, b)
  {
  }

  /** A folder's files after any number of the three steps restore and uninstall share. */
  function PutBack(fs: Files, m: Manifest, gameValid: bool, other: bool, steps: nat): Files {
    var fs1 := if steps >= 1 then fs - {ModDir} else fs;
    var fs2 := if steps >= 2 && gameValid then BackDll(fs1, m.lovely, m.game, other) else fs1;
    if steps >= 3 && gameValid then BackAppId(fs2, m.appId, m.game) else fs2
  }

  lemma PutBackKeepsManaged(fs: Files, original: Files, m: Manifest, b: Build, gameValid: bool, other: bool, steps: nat)
    requires Managed(fs, original, m, b)
    ensures Managed(PutBack(fs, m, gameValid, other, steps), original, m, b)
  {
    hide Managed, BackDll, BackAppId, SameGame;
    var fs1 := if steps >= 1 then fs - {ModDir} else fs;
    DroppingSparesGames(fs, {ModDir}, m.game);
    SameGameRefl(fs, m.game);
    SameGameKeepsManaged(fs, fs1, original, m, b);
    BackKeepsManaged(fs1, original, m, b, other);
    var fs2 := if steps >= 2 && gameValid then BackDll(fs1, m.lovely, m.game, other) else fs1;
    BackKeepsManaged(fs2, original, m, b, other);
  }

  lemma PutBackSparesOthers(fs: Files, m: Manifest, gameValid: bool, other: bool, steps: nat, game: string)
    requires game != m.game
    ensures SameGame(fs, PutBack(fs, m, gameValid, other, steps), game)
  {
    hide BackDll, BackAppId, SameGame;
    SameGameRefl(fs, game);
    DroppingSparesGames(fs, {ModDir}, game);
    var fs1 := if steps >= 1 then fs - {ModDir} else fs;
    BackSparesOthers(fs1, m.lovely, m.game, other, game);
    var fs2 := if steps >= 2 && gameValid then BackDll(fs1, m.lovely, m.game, other) else fs1;
    SameGameTrans(fs, fs1, BackDll(fs1, m.lovely, m.game, other), game);
    BackSparesOthers(fs2, m.appId, m.game, other, game);
    SameGameTrans(fs, fs2, BackAppId(fs2, m.appId, m.game), game);
  }

  /** With the manifest kept, stopping after any step is sound. */
  lemma PutBackKeepsSound(s: State, original: Files, b: Build, gameValid: bool, other: bool, steps: nat)
    requires Sound(s, original, b) && s.manifest.Some?
    ensures Sound(State(PutBack(s.files, s.manifest.value, gameValid, other, steps), s.manifest), original, b)
  {
    hide Managed, PutBack, SameGame, Untouched;
    var m := s.manifest.value;
    var after := PutBack(s.files, m, gameValid, other, steps);
    PutBackKeepsManaged(s.files, original, m, b, gameValid, other, steps);
    forall game | game != m.game ensures Untouched(after, original, game) {
      PutBackSparesOthers(s.files, m, gameValid, other, steps, game);
      SameGameKeepsUntouched(s.files, after, original, game);
    }
  }

  /** A restore stopped anywhere keeps every folder sound. */
  lemma RestoreKeepsSound(s: State, original: Files, b: Build, gameValid: bool, steps: nat)
    requires Sound(s, original, b)
    ensures Sound(Restore(s, gameValid, steps), original, b)
  {
    hide Sound;
    if s.manifest.Some? && gameValid {
      PutBackKeepsSound(s, original, b, true, false, steps);
    }
  }

  /** A restore that ran to its end has put both originals back. */
  lemma RestoreIsComplete(s: State, original: Files, b: Build)
    requires Sound(s, original, b) && s.manifest.Some?
    ensures Untouched(Restore(s, true, 3).files, original, s.manifest.value.game)
  {
    hide BackDll, BackAppId, Managed, SameGame;
    var m := s.manifest.value;
    var fs1 := s.files - {ModDir};
    DroppingSparesGames(s.files, {ModDir}, m.game);
    SameGameKeepsManaged(s.files, fs1, original, m, b);
    BackIff(fs1, original, m, b, false);
  }

  /** Both originals are back exactly when the injector is not stuck. */
  lemma BackIff(fs: Files, original: Files, m: Manifest, b: Build, other: bool)
    requires Managed(fs, original, m, b)
    ensures Untouched(BackAppId(BackDll(fs, m.lovely, m.game, other), m.appId, m.game), original, m.game)
      <==> !DllStuck(fs, m.lovely, m.game, other)
  {
    var left := BackDll(fs, m.lovely, m.game, other);
    LeaveDllIff(fs, original, m.lovely, m.game, other, b.lovely);
    RecoversDependsOn(fs, left, original, m.appId, AppId(m.game), AppIdBackup(m.game), APP_ID);
    LeaveAppIdRestores(left, original, m.appId, m.game);
    assert Lookup(BackAppId(left, m.appId, m.game), VersionDll(m.game)) == Lookup(left, VersionDll(m.game));
  }

  /** The guard of a completed uninstall. */
  predicate UninstallsClean(s: State, gameValid: bool, otherMods: bool) {
    s.manifest.Some? ==>
      var m := s.manifest.value;
      if gameValid then !DllStuck(s.files, m.lovely, m.game, OtherLovely(s.files, otherMods))
      else LooksOriginal(s.files, m.lovely, VersionDll(m.game)) && LooksOriginal(s.files, m.appId, AppId(m.game))
  }

  lemma PutBackIff(fs: Files, original: Files, m: Manifest, b: Build, gameValid: bool, other: bool, steps: nat)
    requires Managed(fs, original, m, b) && steps >= 3
    ensures Untouched(PutBack(fs, m, gameValid, other, steps), original, m.game)
      <==> if gameValid then !DllStuck(fs, m.lovely, m.game, other)
           else LooksOriginal(fs, m.lovely, VersionDll(m.game)) && LooksOriginal(fs, m.appId, AppId(m.game))
  {
    hide Managed, BackDll, BackAppId, SameGame, Untouched, LooksOriginal, DllStuck;
    var fs1 := fs - {ModDir};
    DroppingSparesGames(fs, {ModDir}, m.game);
    SameGameKeepsManaged(fs, fs1, original, m, b);
    if gameValid {
      BackIff(fs1, original, m, b, other);
      SameGameStuck(fs, fs1, m.lovely, m.game, other);
    } else {
      SameGameKeepsUntouched(fs, fs1, original, m.game);
      ManagedLooksOriginal(fs, original, m, b);
    }
  }

  lemma RemoveProductSparesGames(fs: Files, runsFromMaintenance: bool, game: string)
    ensures SameGame(fs, RemoveProduct(fs, runsFromMaintenance), game)
  {
  }

  lemma UninstallIsPutBack(s: State, gameValid: bool, otherMods: bool, runsFromMaintenance: bool, steps: nat)
    requires s.manifest.Some?
    ensures var back := PutBack(s.files, s.manifest.value, gameValid, OtherLovely(s.files, otherMods), steps);
            Uninstall(s, gameValid, otherMods, runsFromMaintenance, steps)
              == if steps >= 4 then State(RemoveProduct(back, runsFromMaintenance), None) else State(back, s.manifest)
  {
    hide BackDll, BackAppId, RemoveProduct;
    if steps >= 1 {
      assert forall p: Path :: p.LegacyRollback? ==> (p in s.files <==> p in s.files - {ModDir});
    }
  }

  /** A completed uninstall is a round trip, every folder as it was, exactly under its guard. */
  lemma UninstallRoundTripIff(s: State, original: Files, b: Build, gameValid: bool, otherMods: bool,
                              runsFromMaintenance: bool, steps: nat)
    requires Sound(s, original, b) && steps >= 4
    ensures var after := Uninstall(s, gameValid, otherMods, runsFromMaintenance, steps).files;
            (forall game :: Untouched(after, original, game)) <==> UninstallsClean(s, gameValid, otherMods)
  {
    hide Uninstall, PutBack, RemoveProduct, SameGame, Untouched, Managed, OtherLovely;
    if s.manifest.Some? {
      var m := s.manifest.value;
      var other := OtherLovely(s.files, otherMods);
      var back := PutBack(s.files, m, gameValid, other, steps);
      var final := RemoveProduct(back, runsFromMaintenance);
      UninstallIsPutBack(s, gameValid, otherMods, runsFromMaintenance, steps);
      PutBackIff(s.files, original, m, b, gameValid, other, steps);
      RemoveProductSparesGames(back, runsFromMaintenance, m.game);
      SameGameKeepsUntouched(back, final, original, m.game);
      forall game | game != m.game ensures Untouched(final, original, game) {
        PutBackSparesOthers(s.files, m, gameValid, other, steps, game);
        RemoveProductSparesGames(back, runsFromMaintenance, game);
        SameGameTrans(s.files, back, final, game);
        SameGameKeepsUntouched(s.files, final, original, game);
      }
    } else {
      UninstallOfNothing(s, gameValid, otherMods, runsFromMaintenance, steps);
    }
  }

  lemma UninstallOfNothing(s: State, gameValid: bool, otherMods: bool, runsFromMaintenance: bool, steps: nat)
    requires s.manifest.None?
    ensures Uninstall(s, gameValid, otherMods, runsFromMaintenance, steps) == s
  {
  }

  lemma UninstallForgets(s: State, gameValid: bool, otherMods: bool, runsFromMaintenance: bool, steps: nat)
    requires steps >= 4
    ensures Uninstall(s, gameValid, otherMods, runsFromMaintenance, steps).manifest.None?
  {
    hide BackDll, BackAppId, RemoveProduct, OtherLovely;
  }

  // ---- Failed installs ----

  /** What a failed install may leave behind: its stage folder and a copy it took aside. */
  function Leftovers(s: State, b: Build, rq: Request): set<Path> {
    {Stage(rq.tag)}
    + (if CopiesDll(s.files, PreviousLovely(s, rq.game), rq.game, b.lovely) then {DllBackup(rq.game)} else {})
    + (if CopiesAppId(s.files, PreviousAppId(s, rq.game), rq.game, rq.steamManaged) then {AppIdBackup(rq.game)} else {})
  }

  /** A copy taken aside by a failed install is never one the manifest already relies on. */
  lemma FailedInstallKeepsSound(s: State, original: Files, b: Build, rq: Request, after: Files)
    requires Sound(s, original, b) && Agree(after, s.files, Leftovers(s, b, rq))
    ensures Sound(State(after, s.manifest), original, b)
  {
    hide Sound, Agree, IsLovely;
    SoundParts(s, original, b);
    forall game | s.manifest.None? || s.manifest.value.game != game ensures Untouched(after, original, game) {
      assert Untouched(s.files, original, game);
      AgreesOn(after, s.files, Leftovers(s, b, rq), VersionDll(game));
      AgreesOn(after, s.files, Leftovers(s, b, rq), AppId(game));
    }
    if s.manifest.Some? {
      var m := s.manifest.value;
      AgreesOn(after, s.files, Leftovers(s, b, rq), VersionDll(m.game));
      AgreesOn(after, s.files, Leftovers(s, b, rq), AppId(m.game));
      AgreesOn(after, s.files, Leftovers(s, b, rq), DllBackup(m.game));
      AgreesOn(after, s.files, Leftovers(s, b, rq), AppIdBackup(m.game));
      assert Managed(after, original, m, b);
    }
    SoundFromParts(State(after, s.manifest), original, b);
  }

  lemma AgreesOn(a: Files, b: Files, w: set<Path>, p: Path)
    requires Agree(a, b, w)
    ensures p !in w ==> Lookup(a, p) == Lookup(b, p)
  {
  }

  lemma SoundParts(s: State, original: Files, b: Build)
    requires Sound(s, original, b)
    ensures s.manifest.Some? ==> Managed(s.files, original, s.manifest.value, b)
    ensures forall game :: (s.manifest.None? || s.manifest.value.game != game) ==> Untouched(s.files, original, game)
  {
  }

  lemma SoundFromParts(s: State, original: Files, b: Build)
    requires s.manifest.Some? ==> Managed(s.files, original, s.manifest.value, b)
    requires forall game :: (s.manifest.None? || s.manifest.value.game != game) ==> Untouched(s.files, original, game)
    ensures Sound(s, original, b)
  {
  }

  // ---- A failure after the manifest is saved ----

  /** The manifest is durable, yet deleting the old mod folder failed: every guard still undoes,
      the copies stay, and the mod folder holds what the deletion left of it. */
  function LateFiles(s: State, b: Build, rq: Request, modDir: Option<Bytes>): Files {
    var dll := CopiesDll(s.files, PreviousLovely(s, rq.game), rq.game, b.lovely);
    var appId := CopiesAppId(s.files, PreviousAppId(s, rq.game), rq.game, rq.steamManaged);
    var fs1 := if dll then s.files[DllBackup(rq.game) := s.files[VersionDll(rq.game)]] else s.files;
    var fs2 := if appId then fs1[AppIdBackup(rq.game) := s.files[AppId(rq.game)]] else fs1;
    Put(fs2, ModDir, modDir)
  }

  function LateFailure(s: State, b: Build, rq: Request, modDir: Option<Bytes>): State {
    State(LateFiles(s, b, rq, modDir), Some(NewManifest(s, b, rq)))
  }

  /** A late failure is harmless when the files already are what the new manifest takes them for. */
  predicate LateFailureClean(s: State, rq: Request) {
    s.manifest.Some? ==>
      var m := s.manifest.value;
      if m.game == rq.game then rq.steamManaged ==> LooksOriginal(s.files, m.appId, AppId(m.game))
      else LooksOriginal(s.files, m.lovely, VersionDll(m.game)) && LooksOriginal(s.files, m.appId, AppId(m.game))
  }

  lemma LateDllRecovers(s: State, original: Files, b: Build, rq: Request, modDir: Option<Bytes>)
    requires Recovers(s.files, original, PreviousLovely(s, rq.game), VersionDll(rq.game), DllBackup(rq.game), b.lovely)
    ensures Recovers(LateFiles(s, b, rq, modDir), original, NewManifest(s, b, rq).lovely, VersionDll(rq.game),
        DllBackup(rq.game), b.lovely)
  {
    hide PreviousLovely, PreviousAppId, CopiesAppId;
  }

  lemma LateAppIdIff(s: State, original: Files, b: Build, rq: Request, modDir: Option<Bytes>)
    requires var pa := PreviousAppId(s, rq.game);
             Recovers(s.files, original, pa, AppId(rq.game), AppIdBackup(rq.game), APP_ID)
               && (pa.backup.Some? ==> pa.owned)
    ensures var now := NewManifest(s, b, rq).appId;
            (Recovers(LateFiles(s, b, rq, modDir), original, now, AppId(rq.game), AppIdBackup(rq.game), APP_ID)
             <==> (rq.steamManaged ==> LooksOriginal(s.files, PreviousAppId(s, rq.game), AppId(rq.game))))
            && (now.backup.Some? ==> now.owned)
  {
    hide PreviousLovely, PreviousAppId, CopiesDll, LovelyFacts;
  }

  lemma LateSparesOthers(s: State, b: Build, rq: Request, modDir: Option<Bytes>, game: string)
    ensures Lookup(LateFiles(s, b, rq, modDir), VersionDll(game)) == Lookup(s.files, VersionDll(game))
    ensures Lookup(LateFiles(s, b, rq, modDir), AppId(game)) == Lookup(s.files, AppId(game))
  {
    hide PreviousLovely, PreviousAppId, CopiesDll, CopiesAppId;
  }

  /** The one step the saved manifest can outrun the files in, and exactly when that breaks soundness. */
  lemma LateFailureSoundIff(s: State, original: Files, b: Build, rq: Request, modDir: Option<Bytes>)
    requires Sound(s, original, b)
    ensures Sound(LateFailure(s, b, rq, modDir), original, b) <==> LateFailureClean(s, rq)
  {
    hide Recovers, LateFiles, NewManifest, LooksOriginal;
    NewManifestGame(s, b, rq);
    PreviousFactsRecover(s, original, b, rq.game);
    LateDllRecovers(s, original, b, rq, modDir);
    LateAppIdIff(s, original, b, rq, modDir);
    forall game ensures Untouched(LateFiles(s, b, rq, modDir), original, game) <==> Untouched(s.files, original, game) {
      LateSparesOthers(s, b, rq, modDir, game);
    }
    if s.manifest.Some? {
      ManagedLooksOriginal(s.files, original, s.manifest.value, b);
      NothingLooksOriginal(s.files, AppId(rq.game));
    } else {
      NothingLooksOriginal(s.files, AppId(rq.game));
    }
  }

  lemma NothingLooksOriginal(fs: Files, file: Path)
    ensures LooksOriginal(fs, Facts(false, None), file)
  {
  }

  // ---- Runs ----

  datatype Event =
    | InstallCall(rq: Request)
    | InstallFails(rq: Request, after: Files)
    | InstallFailsLate(rq: Request, modDir: Option<Bytes>)
    | RestoreCall(gameValid: bool, steps: nat)
    | UninstallCall(gameValid: bool, otherMods: bool, runsFromMaintenance: bool, steps: nat)

  function Apply(s: State, e: Event, b: Build): State {
    match e
    case InstallCall(rq) => Install(s, b, rq)
    case InstallFails(_, after) => State(after, s.manifest)
    case InstallFailsLate(rq, modDir) => LateFailure(s, b, rq, modDir)
    case RestoreCall(gameValid, steps) => Restore(s, gameValid, steps)
    case UninstallCall(gameValid, otherMods, runsFromMaintenance, steps) => Uninstall(s, gameValid, otherMods,
        runsFromMaintenance, steps)
  }

  /** What a failed call leaves is given; it agrees with the state before up to its leftovers. */
  ghost predicate Possible(s: State, e: Event, b: Build) {
    e.InstallFails? ==> Agree(e.after, s.files, Leftovers(s, b, e.rq))
  }

  predicate Clean(s: State, e: Event) {
    match e
    case InstallCall(rq) => Accepted(rq) ==> LeavesClean(s, rq)
    case InstallFails(_, _) => true
    case InstallFailsLate(rq, _) => LateFailureClean(s, rq)
    case RestoreCall(_, _) => true
    case UninstallCall(gameValid, otherMods, _, steps) => steps >= 4 ==> UninstallsClean(s, gameValid, otherMods)
  }

  /** One call keeps every folder sound exactly when its guard holds. */
  lemma StepSoundIff(s: State, original: Files, b: Build, e: Event)
    requires Sound(s, original, b) && Possible(s, e, b)
    ensures Sound(Apply(s, e, b), original, b) <==> Clean(s, e)
  {
    hide Sound, Install, LateFailure, Restore, Uninstall, LeavesClean, LateFailureClean, UninstallsClean, Agree,
        Accepted, OtherLovely, DllStuck, LooksOriginal;
    match e
    case InstallCall(rq) =>
      if Accepted(rq) { InstallSoundIff(s, original, b, rq); } else { RefusedInstall(s, b, rq); }
    case InstallFails(rq, after) => FailedInstallKeepsSound(s, original, b, rq, after);
    case InstallFailsLate(rq, modDir) => LateFailureSoundIff(s, original, b, rq, modDir);
    case RestoreCall(gameValid, steps) => RestoreKeepsSound(s, original, b, gameValid, steps);
    case UninstallCall(gameValid, otherMods, self, steps) => UninstallStep(s, original, b, gameValid, otherMods, self,
        steps);
  }

  lemma RefusedInstall(s: State, b: Build, rq: Request)
    requires !Accepted(rq)
    ensures Install(s, b, rq) == s
  {
  }

  lemma UninstallStep(s: State, original: Files, b: Build, gameValid: bool, otherMods: bool, self: bool, steps: nat)
    requires Sound(s, original, b)
    ensures Sound(Uninstall(s, gameValid, otherMods, self, steps), original, b)
      <==> (steps >= 4 ==> UninstallsClean(s, gameValid, otherMods))
  {
    hide Uninstall, UninstallsClean, Untouched, Managed, PutBack, OtherLovely;
    var final := Uninstall(s, gameValid, otherMods, self, steps);
    if steps >= 4 {
      UninstallRoundTripIff(s, original, b, gameValid, otherMods, self, steps);
      UninstallForgets(s, gameValid, otherMods, self, steps);
    } else if s.manifest.Some? {
      UninstallIsPutBack(s, gameValid, otherMods, self, steps);
      PutBackKeepsSound(s, original, b, gameValid, OtherLovely(s.files, otherMods), steps);
    } else {
      UninstallOfNothing(s, gameValid, otherMods, self, steps);
    }
  }

  function Final(s: State, run: seq<Event>, b: Build): State
    decreases |run|
  {
    if run == [] then s else Final(Apply(s, run[0], b), run[1..], b)
  }

  ghost predicate PossibleRun(s: State, run: seq<Event>, b: Build)
    decreases |run|
  {
    run != [] ==> Possible(s, run[0], b) && PossibleRun(Apply(s, run[0], b), run[1..], b)
  }

  ghost predicate CleanRun(s: State, run: seq<Event>, b: Build)
    decreases |run|
  {
    run != [] ==> Clean(s, run[0]) && CleanRun(Apply(s, run[0], b), run[1..], b)
  }

  ghost predicate SoundThroughout(s: State, run: seq<Event>, original: Files, b: Build)
    decreases |run|
  {
    Sound(s, original, b) && (run != [] ==> SoundThroughout(Apply(s, run[0], b), run[1..], original, b))
  }

  /** Every state of a run is sound exactly when every step of it is clean. */
  lemma {:induction false} RunSoundIff(s: State, run: seq<Event>, original: Files, b: Build)
    requires Sound(s, original, b) && PossibleRun(s, run, b)
    ensures SoundThroughout(s, run, original, b) <==> CleanRun(s, run, b)
    decreases |run|
  {
    hide Sound, Apply, Clean, Possible;
    if run != [] {
      StepSoundIff(s, original, b, run[0]);
      if Clean(s, run[0]) {
        RunSoundIff(Apply(s, run[0], b), run[1..], original, b);
      } else {
        assert !SoundThroughout(Apply(s, run[0], b), run[1..], original, b);
      }
    }
  }

  /** From an untouched machine: whatever was installed, moved, restored or failed on the way, a
      clean run that ends uninstalled ends with every game folder as it was. */
  lemma {:induction false} UninstalledMeansOriginal(original: Files, run: seq<Event>, b: Build, game: string)
    requires PossibleRun(State(original, None), run, b) && CleanRun(State(original, None), run, b)
    ensures var final := Final(State(original, None), run, b);
            (final.manifest.None? || final.manifest.value.game != game) ==> Untouched(final.files, original, game)
  {
    hide Apply, Clean, Possible;
    RunSoundIff(State(original, None), run, original, b);
    FinalIsSound(State(original, None), run, original, b);
  }

  lemma {:induction false} FinalIsSound(s: State, run: seq<Event>, original: Files, b: Build)
    requires SoundThroughout(s, run, original, b)
    ensures Sound(Final(s, run, b), original, b)
    decreases |run|
  {
    hide Sound, Apply;
    if run != [] { FinalIsSound(Apply(s, run[0], b), run[1..], original, b); }
  }

  // ---- The failing inputs ----

  /** A call for one folder of a game that Steam manages. */
  function CallFor(game: string, legacyManaged: bool): Request {
    Request(game, None, false, true, true, false, legacyManaged, false, 0)
  }

  lemma UntouchedIsSound(original: Files, b: Build)
    ensures Sound(State(original, None), original, b)
  {
  }

  /** The first install into an empty game folder owns the injector; a retired mod whose note cannot be read is
      not recognized and stays. */
  lemma FirstInstall(original: Files, b: Build)
    requires original == map[] || original == map[LegacyModDir := "retired"]
    ensures var s := Install(State(original, None), b, CallFor("old", false));
            && s.manifest == Some(Manifest("old", Standalone, Facts(true, None), Facts(false, None)))
            && VersionDll("old") in s.files && (LegacyModDir in s.files <==> LegacyModDir in original)
            && Sound(s, original, b)
  {
    hide IsLovely, Sound, InstallCore, InstallMaintenance;
    var s0, rq := State(original, None), CallFor("old", false);
    UntouchedIsSound(original, b);
    InstallSoundIff(s0, original, b, rq);
    CoreSparesGames(original, b, rq, "old");
    CoreKeepsRetired(original, b, rq);
    var fs1 := InstallCore(original, b, rq);
    assert Lookup(fs1, VersionDll("old")) == Lookup(original, VersionDll("old"));
    var fs2 := InstallDll(fs1, Facts(false, None), "old", b.lovely);
    assert fs2 == fs1[VersionDll("old") := b.lovely];
    CoreSparesGames(fs2, b, rq, "old");
    CoreKeepsRetired(fs2, b, rq);
    assert Lookup(InstallMaintenance(fs2, b, rq), VersionDll("old")) == Lookup(fs2, VersionDll("old"));
  }

  lemma CoreKeepsRetired(fs: Files, b: Build, rq: Request)
    requires !rq.legacyManaged
    ensures LegacyModDir in InstallCore(fs, b, rq) <==> LegacyModDir in fs
    ensures LegacyModDir in InstallMaintenance(fs, b, rq) <==> LegacyModDir in fs
  {
  }

  lemma TwoSteps(s: State, first: Event, second: Event, b: Build)
    ensures Final(s, [first, second], b) == Apply(Apply(s, first, b), second, b)
  {
    hide Apply;
    assert [first, second][1..] == [second] && [second][1..] == [];
    assert Final(Apply(s, first, b), [second], b) == Apply(Apply(s, first, b), second, b);
  }

  /** From an untouched machine: the first install leaves an unrecognized retired mod alone; the move then
      recognizes and quarantines it, and leaves the injector in the former folder, because the quarantined
      copy itself counts as another mod that needs it. */
  lemma MoveLeavesInjectorBehind(b: Build)
    ensures var original := map[LegacyModDir := "retired"]; var s := State(original, None);
            var run := [InstallCall(CallFor("old", false)), InstallCall(CallFor("new", true))];
            && PossibleRun(s, run, b) && Sound(Apply(s, run[0], b), original, b)
            && Final(s, run, b).manifest.Some? && Final(s, run, b).manifest.value.game == "new"
            && !Sound(Final(s, run, b), original, b)
  {
    hide Install, Sound, NewManifest;
    var original := map[LegacyModDir := "retired"];
    var first, second := CallFor("old", false), CallFor("new", true);
    var s := Install(State(original, None), b, first);
    FirstInstall(original, b);
    TwoSteps(State(original, None), InstallCall(first), InstallCall(second), b);
    CallsArePossible(State(original, None), InstallCall(first), InstallCall(second), b);
    InstallSoundIff(s, original, b, second);
    InstalledGame(s, b, second);
  }

  lemma InstalledGame(s: State, b: Build, rq: Request)
    requires Accepted(rq)
    ensures Install(s, b, rq).manifest.Some? && Install(s, b, rq).manifest.value.game == rq.game
  {
    hide InstalledFiles, LovelyFacts, AppIdFacts;
  }

  lemma CallsArePossible(s: State, first: Event, second: Event, b: Build)
    requires !first.InstallFails? && !second.InstallFails?
    ensures PossibleRun(s, [first, second], b)
  {
    hide Apply;
    assert [first, second][1..] == [second] && [second][1..] == [];
    assert PossibleRun(Apply(s, first, b), [second], b);
  }

  /** From an untouched machine: a first install, then a move whose old mod folder cannot be deleted, which
      saves the new manifest and rolls back: the former folder keeps the injector and nothing records it. */
  lemma LateFailureForgetsInjector(b: Build)
    ensures var s := State(map[], None);
            var run := [InstallCall(CallFor("old", false)), InstallFailsLate(CallFor("new", false), None)];
            && PossibleRun(s, run, b) && Sound(Apply(s, run[0], b), map[], b)
            && !Sound(Final(s, run, b), map[], b)
  {
    hide Install, LateFailure, Sound, LooksOriginal;
    var first, second := CallFor("old", false), CallFor("new", false);
    var s := Install(State(map[], None), b, first);
    FirstInstall(map[], b);
    TwoSteps(State(map[], None), InstallCall(first), InstallFailsLate(second, None), b);
    CallsArePossible(State(map[], None), InstallCall(first), InstallFailsLate(second, None), b);
    LateFailureSoundIff(s, map[], b, second, None);
    assert !LooksOriginal(s.files, s.manifest.value.lovely, VersionDll("old")) by { OwnedIsNotOriginal(s.files); }
  }

  lemma OwnedIsNotOriginal(fs: Files)
    requires VersionDll("old") in fs
    ensures !LooksOriginal(fs, Facts(true, None), VersionDll("old"))
  {
  }
}
