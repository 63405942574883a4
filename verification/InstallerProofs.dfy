/** The manifest always suffices: soundness over every run, and exactly when a step breaks it. */
module InstallerProofs {
  import opened Wrappers
  import opened Rollback
  import opened Installer

  /** The paths of one game folder that decide soundness. */
  predicate GamePath(p: Path, game: string) {
    p == VersionDll(game) || p == AppId(game) || p == DllBackup(game) || p == AppIdBackup(game)
  }

  ghost predicate SameGame(a: Files, b: Files, game: string) {
    forall p :: GamePath(p, game) ==> Lookup(a, p) == Lookup(b, p)
  }

  lemma SameGameKeepsManaged(a: Files, b: Files, original: Files, m: Manifest, build: Build)
    requires SameGame(a, b, m.game) && Managed(a, original, m, build)
    ensures Managed(b, original, m, build)
  {
    assert Lookup(a, DllBackup(m.game)) == Lookup(b, DllBackup(m.game));
    assert Lookup(a, AppIdBackup(m.game)) == Lookup(b, AppIdBackup(m.game));
    assert Lookup(a, VersionDll(m.game)) == Lookup(b, VersionDll(m.game));
    assert Lookup(a, AppId(m.game)) == Lookup(b, AppId(m.game));
  }

  lemma SameGameKeepsUntouched(a: Files, b: Files, original: Files, game: string)
    requires SameGame(a, b, game)
    ensures Untouched(a, original, game) <==> Untouched(b, original, game)
  {
    assert Lookup(a, VersionDll(game)) == Lookup(b, VersionDll(game));
    assert Lookup(a, AppId(game)) == Lookup(b, AppId(game));
  }

  // ---- One file at a time ----

  lemma InstallDllRecovers(fs: Files, original: Files, facts: Facts, game: string, lovely: Bytes)
    requires Recovers(fs, original, facts, VersionDll(game), DllBackup(game), lovely)
    ensures Recovers(InstallDll(fs, facts, game, lovely), original, LovelyFacts(fs, facts, game, lovely),
        VersionDll(game), DllBackup(game), lovely)
  {
    hide IsLovely;
  }

  lemma InstallAppIdRecovers(fs: Files, original: Files, facts: Facts, game: string, steamManaged: bool)
    requires Recovers(fs, original, facts, AppId(game), AppIdBackup(game), APP_ID)
    requires facts.backup.Some? ==> facts.owned
    ensures var now := AppIdFacts(fs, facts, game, steamManaged);
            && Recovers(InstallAppId(fs, facts, game, steamManaged), original, now, AppId(game), AppIdBackup(game),
                APP_ID)
            && (now.backup.Some? ==> now.owned)
  {
  }

  /** Leaving puts the original injector back, except where the file is owned without a copy and stays. */
  predicate DllStuck(fs: Files, facts: Facts, game: string, other: bool) {
    facts.backup.None? && facts.owned && VersionDll(game) in fs && other
  }

  lemma LeaveDllIff(fs: Files, original: Files, facts: Facts, game: string, other: bool, lovely: Bytes)
    requires Recovers(fs, original, facts, VersionDll(game), DllBackup(game), lovely)
    ensures Lookup(LeaveDll(fs, facts, game, other), VersionDll(game)) == Lookup(original, VersionDll(game))
      <==> !DllStuck(fs, facts, game, other)
    ensures LeaveDll(fs, facts, game, other) == BackDll(fs, facts, game, other)
  {
  }

  lemma LeaveAppIdRestores(fs: Files, original: Files, facts: Facts, game: string)
    requires Recovers(fs, original, facts, AppId(game), AppIdBackup(game), APP_ID)
    requires facts.backup.Some? ==> facts.owned
    ensures Lookup(LeaveAppId(fs, facts, game), AppId(game)) == Lookup(original, AppId(game))
    ensures LeaveAppId(fs, facts, game) == BackAppId(fs, facts, game)
  {
  }

  // ---- Install, repair and move ----

  /** The steps around the injector and the app id touch no game path. */
  lemma CoreSparesGames(fs: Files, b: Build, rq: Request, game: string)
    ensures SameGame(fs, InstallCore(fs, b, rq), game)
    ensures SameGame(fs, InstallMaintenance(fs, b, rq), game)
    ensures SameGame(fs, fs - {ModRollback(rq.tag), LegacyRollback(rq.tag)}, game)
  {
  }

  /** Installing into one folder touches no path of another. */
  lemma GameStepsSpareOthers(fs: Files, lovely: Facts, appId: Facts, rq: Request, b: Build, game: string)
    requires game != rq.game
    ensures SameGame(fs, InstallDll(fs, lovely, rq.game, b.lovely), game)
    ensures SameGame(fs, InstallAppId(fs, appId, rq.game, rq.steamManaged), game)
  {
    hide IsLovely, CopiesDll, CopiesAppId, PreservesDll;
  }

  lemma LeavingSparesOthers(fs: Files, facts: Facts, game: string, other: bool, spared: string)
    requires game != spared
    ensures SameGame(fs, LeaveDll(fs, facts, game, other), spared)
    ensures SameGame(fs, LeaveAppId(fs, facts, game), spared)
  {
  }

  lemma SameGameTrans(a: Files, b: Files, c: Files, game: string)
    requires SameGame(a, b, game) && SameGame(b, c, game)
    ensures SameGame(a, c, game)
  {
    forall p | GamePath(p, game) ensures Lookup(a, p) == Lookup(c, p) {
      assert Lookup(a, p) == Lookup(b, p) && Lookup(b, p) == Lookup(c, p);
    }
  }

  /** The files just before the former folder is left. */
  function BeforeLeaving(s: State, b: Build, rq: Request): Files {
    var fs1 := InstallCore(s.files, b, rq);
    var fs2 := InstallDll(fs1, PreviousLovely(s, rq.game), rq.game, b.lovely);
    InstallMaintenance(InstallAppId(fs2, PreviousAppId(s, rq.game), rq.game, rq.steamManaged), b, rq)
  }

  lemma BeforeLeavingSparesOthers(s: State, b: Build, rq: Request, game: string)
    requires game != rq.game
    ensures SameGame(s.files, BeforeLeaving(s, b, rq), game)
  {
    hide InstallCore, InstallDll, InstallAppId, InstallMaintenance, SameGame;
    var fs1 := InstallCore(s.files, b, rq);
    var fs2 := InstallDll(fs1, PreviousLovely(s, rq.game), rq.game, b.lovely);
    var fs3 := InstallAppId(fs2, PreviousAppId(s, rq.game), rq.game, rq.steamManaged);
    CoreSparesGames(s.files, b, rq, game);
    GameStepsSpareOthers(fs1, PreviousLovely(s, rq.game), PreviousAppId(s, rq.game), rq, b, game);
    GameStepsSpareOthers(fs2, PreviousLovely(s, rq.game), PreviousAppId(s, rq.game), rq, b, game);
    CoreSparesGames(fs3, b, rq, game);
    SameGameTrans(s.files, fs1, fs2, game);
    SameGameTrans(s.files, fs2, fs3, game);
    SameGameTrans(s.files, fs3, InstallMaintenance(fs3, b, rq), game);
  }

  /** The facts an install starts from recover the target folder's originals. */
  lemma PreviousFactsRecover(s: State, original: Files, b: Build, game: string)
    requires Sound(s, original, b)
    ensures Recovers(s.files, original, PreviousLovely(s, game), VersionDll(game), DllBackup(game), b.lovely)
    ensures Recovers(s.files, original, PreviousAppId(s, game), AppId(game), AppIdBackup(game), APP_ID)
    ensures PreviousAppId(s, game).backup.Some? ==> PreviousAppId(s, game).owned
  {
    if s.manifest.None? || s.manifest.value.game != game { assert Untouched(s.files, original, game); }
  }

  lemma SameGameRecovers(a: Files, b: Files, original: Files, facts: Facts, game: string, payload: Bytes)
    requires SameGame(a, b, game)
    ensures Recovers(a, original, facts, VersionDll(game), DllBackup(game), payload)
      ==> Recovers(b, original, facts, VersionDll(game), DllBackup(game), payload)
    ensures Recovers(a, original, facts, AppId(game), AppIdBackup(game), payload)
      ==> Recovers(b, original, facts, AppId(game), AppIdBackup(game), payload)
  {
    assert Lookup(a, DllBackup(game)) == Lookup(b, DllBackup(game));
    assert Lookup(a, AppIdBackup(game)) == Lookup(b, AppIdBackup(game));
    assert Lookup(a, VersionDll(game)) == Lookup(b, VersionDll(game));
    assert Lookup(a, AppId(game)) == Lookup(b, AppId(game));
  }

  /** The facts of the new manifest depend only on the target folder's own paths. */
  lemma FactsDependOnGame(a: Files, b: Files, lovelyFacts: Facts, appIdFacts: Facts, game: string, lovely: Bytes,
                          steamManaged: bool, original: Files)
    requires SameGame(a, b, game)
    requires Recovers(a, original, lovelyFacts, VersionDll(game), DllBackup(game), lovely)
    requires Recovers(a, original, appIdFacts, AppId(game), AppIdBackup(game), APP_ID)
    ensures LovelyFacts(a, lovelyFacts, game, lovely) == LovelyFacts(b, lovelyFacts, game, lovely)
    ensures AppIdFacts(a, appIdFacts, game, steamManaged) == AppIdFacts(b, appIdFacts, game, steamManaged)
  {
    assert Lookup(a, DllBackup(game)) == Lookup(b, DllBackup(game));
    assert Lookup(a, AppIdBackup(game)) == Lookup(b, AppIdBackup(game));
    assert Lookup(a, VersionDll(game)) == Lookup(b, VersionDll(game));
    assert Lookup(a, AppId(game)) == Lookup(b, AppId(game));
  }

  /** The two game steps leave each other's paths alone. */
  lemma GameStepsIndependent(fs: Files, facts: Facts, game: string, lovely: Bytes, steamManaged: bool)
    ensures forall p :: p == AppId(game) || p == AppIdBackup(game)
             ==> Lookup(InstallDll(fs, facts, game, lovely), p) == Lookup(fs, p)
    ensures forall p :: p == VersionDll(game) || p == DllBackup(game)
             ==> Lookup(InstallAppId(fs, facts, game, steamManaged), p) == Lookup(fs, p)
  {
    hide IsLovely, CopiesDll, CopiesAppId, PreservesDll;
  }

  /** Before the former folder is left, the target folder is managed by the new manifest. */
  lemma TargetIsManaged(s: State, original: Files, b: Build, rq: Request)
    requires Sound(s, original, b)
    ensures Managed(BeforeLeaving(s, b, rq), original, NewManifest(s, b, rq), b)
  {
    hide InstallCore, InstallDll, InstallAppId, InstallMaintenance, SameGame, LovelyFacts, AppIdFacts, Sound,
        PreviousLovely, PreviousAppId;
    var game, pl, pa := rq.game, PreviousLovely(s, rq.game), PreviousAppId(s, rq.game);
    var fs1 := InstallCore(s.files, b, rq);
    var fs2 := InstallDll(fs1, pl, game, b.lovely);
    var fs3 := InstallAppId(fs2, pa, game, rq.steamManaged);
    PreviousFactsRecover(s, original, b, game);
    CoreSparesGames(s.files, b, rq, game);
    SameGameRecovers(s.files, fs1, original, pl, game, b.lovely);
    SameGameRecovers(s.files, fs1, original, pa, game, APP_ID);
    FactsDependOnGame(s.files, fs1, pl, pa, game, b.lovely, rq.steamManaged, original);
    InstallDllRecovers(fs1, original, pl, game, b.lovely);
    GameStepsIndependent(fs1, pl, game, b.lovely, rq.steamManaged);
    RecoversDependsOn(fs1, fs2, original, pa, AppId(game), AppIdBackup(game), APP_ID);
    AppIdFactsDependOn(fs1, fs2, pa, game, rq.steamManaged, original);
    InstallAppIdRecovers(fs2, original, pa, game, rq.steamManaged);
    GameStepsIndependent(fs2, pa, game, b.lovely, rq.steamManaged);
    RecoversDependsOn(fs2, fs3, original, LovelyFacts(fs1, pl, game, b.lovely), VersionDll(game), DllBackup(game),
        b.lovely);
    CoreSparesGames(fs3, b, rq, game);
    SameGameKeepsManaged(fs3, InstallMaintenance(fs3, b, rq), original, NewManifest(s, b, rq), b);
  }

  lemma RecoversDependsOn(a: Files, b: Files, original: Files, facts: Facts, file: Path, backup: Path, payload: Bytes)
    requires Lookup(a, file) == Lookup(b, file) && Lookup(a, backup) == Lookup(b, backup)
    requires Recovers(a, original, facts, file, backup, payload)
    ensures Recovers(b, original, facts, file, backup, payload)
  {
  }

  lemma AppIdFactsDependOn(a: Files, b: Files, facts: Facts, game: string, steamManaged: bool, original: Files)
    requires Lookup(a, AppId(game)) == Lookup(b, AppId(game))
      && Lookup(a, AppIdBackup(game)) == Lookup(b, AppIdBackup(game))
    requires Recovers(a, original, facts, AppId(game), AppIdBackup(game), APP_ID)
    ensures AppIdFacts(a, facts, game, steamManaged) == AppIdFacts(b, facts, game, steamManaged)
  {
  }

  /** Whether, when the former folder is left, some other mod seems to need its injector. The
      retired mod that this very install quarantined counts. */
  predicate LooksShared(s: State, rq: Request) {
    OtherLovely(s.files, rq.otherMods) || (rq.legacyManaged && LegacyModDir in s.files)
  }

  lemma OnlyQuarantineAdds(fs: Files, b: Build, rq: Request, p: Path)
    requires p.LegacyRollback?
    ensures p in InstallCore(fs, b, rq) <==> p in fs || (rq.legacyManaged && LegacyModDir in fs && p.tag == rq.tag)
    ensures p in InstallMaintenance(fs, b, rq) <==> p in fs
  {
  }

  lemma GameStepsSpareQuarantine(fs: Files, lovely: Facts, appId: Facts, rq: Request, b: Build, p: Path)
    requires p.LegacyRollback?
    ensures p in InstallDll(fs, lovely, rq.game, b.lovely) <==> p in fs
    ensures p in InstallAppId(fs, appId, rq.game, rq.steamManaged) <==> p in fs
  {
    hide IsLovely, CopiesDll, CopiesAppId, PreservesDll, HasBackup;
  }

  lemma LooksSharedBeforeLeaving(s: State, b: Build, rq: Request)
    ensures OtherLovely(BeforeLeaving(s, b, rq), rq.otherMods) <==> LooksShared(s, rq)
  {
    hide InstallCore, InstallDll, InstallAppId, InstallMaintenance, PreviousLovely, PreviousAppId;
    var fs1 := InstallCore(s.files, b, rq);
    var pl, pa := PreviousLovely(s, rq.game), PreviousAppId(s, rq.game);
    var fs2 := InstallDll(fs1, pl, rq.game, b.lovely);
    var fs3 := InstallAppId(fs2, pa, rq.game, rq.steamManaged);
    var before := InstallMaintenance(fs3, b, rq);
    assert before == BeforeLeaving(s, b, rq);
    forall p: Path | p.LegacyRollback?
      ensures p in before <==> p in s.files || (rq.legacyManaged && LegacyModDir in s.files && p.tag == rq.tag)
    {
      OnlyQuarantineAdds(s.files, b, rq, p);
      GameStepsSpareQuarantine(fs1, pl, pa, rq, b, p);
      GameStepsSpareQuarantine(fs2, pl, pa, rq, b, p);
      OnlyQuarantineAdds(fs3, b, rq, p);
    }
    assert LegacyRollback(rq.tag).LegacyRollback?;
  }

  /** Read off the manifest and the folder: the file is as it was originally. */
  predicate LooksOriginal(fs: Files, facts: Facts, file: Path) {
    (facts.backup.Some? || facts.owned) ==> Lookup(fs, file) == Original(fs, facts)
  }

  lemma LooksOriginalIff(fs: Files, original: Files, facts: Facts, file: Path, backup: Path, payload: Bytes)
    requires Recovers(fs, original, facts, file, backup, payload)
    ensures LooksOriginal(fs, facts, file) <==> Lookup(fs, file) == Lookup(original, file)
  {
  }

  /** The guard of every install: the folder it moves away from is put back in full. */
  predicate LeavesClean(s: State, rq: Request) {
    (s.manifest.Some? && s.manifest.value.game != rq.game) ==>
      var m := s.manifest.value;
      if rq.oldGameValid then !DllStuck(s.files, m.lovely, m.game, LooksShared(s, rq))
      else LooksOriginal(s.files, m.lovely, VersionDll(m.game)) && LooksOriginal(s.files, m.appId, AppId(m.game))
  }

  /** Folders other than the target and the former one keep their files through an install. */
  lemma InstallSparesOthers(s: State, b: Build, rq: Request, game: string)
    requires game != rq.game && (Moves(s, rq) ==> game != s.manifest.value.game)
    ensures SameGame(s.files, InstalledFiles(s, b, rq), game)
  {
    hide BeforeLeaving, InstallCore, InstallDll, InstallAppId, InstallMaintenance, SameGame, LeaveDll, LeaveAppId,
        OtherLovely;
    BeforeLeavingSparesOthers(s, b, rq, game);
    InstalledIsLeaving(s, b, rq);
    LeaveOldSpares(BeforeLeaving(s, b, rq), s, rq, game);
    SameGameTrans(s.files, BeforeLeaving(s, b, rq), InstalledFiles(s, b, rq), game);
  }

  lemma InstalledIsLeaving(s: State, b: Build, rq: Request)
    ensures InstalledFiles(s, b, rq) == LeaveOldGame(BeforeLeaving(s, b, rq), s, rq)
  {
    hide InstallCore, InstallDll, InstallAppId, InstallMaintenance, LeaveDll, LeaveAppId, LeaveOldGame;
  }

  lemma LeaveOldSpares(fs: Files, s: State, rq: Request, game: string)
    requires Moves(s, rq) ==> game != s.manifest.value.game
    ensures SameGame(fs, LeaveOldGame(fs, s, rq), game)
  {
    hide SameGame, LeaveDll, LeaveAppId, OtherLovely;
    if Moves(s, rq) {
      var m := s.manifest.value;
      var other := OtherLovely(fs, rq.otherMods);
      var left := LeaveDll(fs, m.lovely, m.game, other);
      LeavingSparesOthers(fs, m.lovely, m.game, other, game);
      LeaveAppIdSpares(left, m.appId, m.game, game);
      SameGameTrans(fs, left, LeaveAppId(left, m.appId, m.game), game);
    } else {
      SameGameRefl(fs, game);
    }
  }

  lemma SameGameRefl(fs: Files, game: string)
    ensures SameGame(fs, fs, game)
  {
  }

  lemma LeaveAppIdSpares(fs: Files, facts: Facts, game: string, spared: string)
    requires game != spared
    ensures SameGame(fs, LeaveAppId(fs, facts, game), spared)
  {
    LeavingSparesOthers(fs, facts, game, false, spared);
  }

  /** Leaving a managed folder gives both originals back exactly when the injector is not stuck. */
  lemma LeavingIff(fs: Files, original: Files, m: Manifest, b: Build, other: bool)
    requires Managed(fs, original, m, b)
    ensures Untouched(LeaveAppId(LeaveDll(fs, m.lovely, m.game, other), m.appId, m.game), original, m.game)
      <==> !DllStuck(fs, m.lovely, m.game, other)
  {
    var left := LeaveDll(fs, m.lovely, m.game, other);
    LeaveDllIff(fs, original, m.lovely, m.game, other, b.lovely);
    RecoversDependsOn(fs, left, original, m.appId, AppId(m.game), AppIdBackup(m.game), APP_ID);
    LeaveAppIdRestores(left, original, m.appId, m.game);
    assert Lookup(LeaveAppId(left, m.appId, m.game), VersionDll(m.game)) == Lookup(left, VersionDll(m.game));
  }

  lemma SameGameStuck(a: Files, b: Files, facts: Facts, game: string, other: bool)
    requires SameGame(a, b, game)
    ensures DllStuck(a, facts, game, other) <==> DllStuck(b, facts, game, other)
  {
    assert Lookup(a, VersionDll(game)) == Lookup(b, VersionDll(game));
  }

  /** What an install leaves of the folder it moves away from. */
  lemma FormerFolderIff(s: State, original: Files, b: Build, rq: Request)
    requires Sound(s, original, b) && s.manifest.Some? && s.manifest.value.game != rq.game
    ensures Untouched(InstalledFiles(s, b, rq), original, s.manifest.value.game) <==> LeavesClean(s, rq)
  {
    hide BeforeLeaving, InstallCore, InstallDll, InstallAppId, InstallMaintenance, SameGame, LeaveDll, LeaveAppId,
        OtherLovely,
         Untouched, Managed, LooksShared, DllStuck, LooksOriginal, InstalledFiles;
    var m := s.manifest.value;
    var before := BeforeLeaving(s, b, rq);
    BeforeLeavingSparesOthers(s, b, rq, m.game);
    InstalledIsLeaving(s, b, rq);
    if rq.oldGameValid {
      LooksSharedBeforeLeaving(s, b, rq);
      SameGameKeepsManaged(s.files, before, original, m, b);
      LeavingIff(before, original, m, b, OtherLovely(before, rq.otherMods));
      SameGameStuck(s.files, before, m.lovely, m.game, LooksShared(s, rq));
    } else {
      SameGameKeepsUntouched(s.files, before, original, m.game);
      ManagedLooksOriginal(s.files, original, m, b);
    }
  }

  lemma ManagedLooksOriginal(fs: Files, original: Files, m: Manifest, b: Build)
    requires Managed(fs, original, m, b)
    ensures Untouched(fs, original, m.game)
      <==> LooksOriginal(fs, m.lovely, VersionDll(m.game)) && LooksOriginal(fs, m.appId, AppId(m.game))
  {
    hide LooksOriginal;
    LooksOriginalIff(fs, original, m.lovely, VersionDll(m.game), DllBackup(m.game), b.lovely);
    LooksOriginalIff(fs, original, m.appId, AppId(m.game), AppIdBackup(m.game), APP_ID);
  }

  lemma CommitSparesGames(fs: Files, rq: Request, game: string)
    ensures SameGame(fs, fs - {ModRollback(rq.tag), LegacyRollback(rq.tag)}, game)
  {
  }

  /** An install, repair or move keeps every folder sound exactly when the former one is left clean. */
  lemma InstallSoundIff(s: State, original: Files, b: Build, rq: Request)
    requires Sound(s, original, b) && Accepted(rq)
    ensures Sound(Install(s, b, rq), original, b) <==> LeavesClean(s, rq)
  {
    hide BeforeLeaving, InstalledFiles, SameGame, Managed, Untouched, LeavesClean, NewManifest;
    var files := InstalledFiles(s, b, rq);
    var final := Install(s, b, rq);
    assert NewManifest(s, b, rq).game == rq.game by { NewManifestGame(s, b, rq); }
    InstalledTargetIsManaged(s, original, b, rq);
    CommitSparesGames(files, rq, rq.game);
    SameGameKeepsManaged(files, final.files, original, NewManifest(s, b, rq), b);
    forall game | game != rq.game && (s.manifest.None? || s.manifest.value.game != game)
      ensures Untouched(final.files, original, game)
    {
      InstallSparesOthers(s, b, rq, game);
      SameGameKeepsUntouched(s.files, files, original, game);
      CommitSparesGames(files, rq, game);
      SameGameKeepsUntouched(files, final.files, original, game);
    }
    if s.manifest.Some? && s.manifest.value.game != rq.game {
      FormerFolderIff(s, original, b, rq);
      CommitSparesGames(files, rq, s.manifest.value.game);
      SameGameKeepsUntouched(files, final.files, original, s.manifest.value.game);
    } else {
      SameFolderLeavesClean(s, rq);
    }
  }

  lemma NewManifestGame(s: State, b: Build, rq: Request)
    ensures NewManifest(s, b, rq).game == rq.game
  {
  }

  lemma SameFolderLeavesClean(s: State, rq: Request)
    requires s.manifest.None? || s.manifest.value.game == rq.game
    ensures LeavesClean(s, rq)
  {
  }

  lemma InstalledTargetIsManaged(s: State, original: Files, b: Build, rq: Request)
    requires Sound(s, original, b)
    ensures Managed(InstalledFiles(s, b, rq), original, NewManifest(s, b, rq), b)
  {
    hide BeforeLeaving, InstalledFiles, SameGame, Managed, Untouched, NewManifest, Sound;
    NewManifestGame(s, b, rq);
    TargetIsManaged(s, original, b, rq);
    InstalledIsLeaving(s, b, rq);
    LeaveOldSpares(BeforeLeaving(s, b, rq), s, rq, rq.game);
    SameGameKeepsManaged(BeforeLeaving(s, b, rq), InstalledFiles(s, b, rq), original, NewManifest(s, b, rq), b);
  }
}
