/** What a completed install, restore or uninstall leaves on the disk, file by file. */
module InstallerOutcome {
  import opened Wrappers
  import opened Rollback
  import opened Installer
  import opened InstallerProofs
  import opened InstallerRuns

  // ---- Install ----

  predicate NamedAt(bytes: Bytes, i: nat) {
    i + 15 <= |bytes| && bytes[i..i + 15] == "lovely-injector"
  }

  /** The bytes of a compatible injector: an executable of at most 64 MiB that names itself. */
  predicate Compatible(bytes: Bytes) {
    && 2 <= |bytes| <= 67_108_864 && bytes[0] == 'M' && bytes[1] == 'Z'
    && exists i: nat :: i <= |bytes| && NamedAt(bytes, i)
  }

  lemma CompatibleIsLovely(bytes: Bytes)
    ensures Compatible(bytes) <==> IsLovely(bytes)
  {
    if 2 <= |bytes| {
      assert bytes[..2] == [bytes[0], bytes[1]];
      forall i: nat ensures MarkerAt(bytes, i) <==> NamedAt(bytes, i) { }
    }
  }

  /** The mod folder holds the tree of the detected adapter with its note, the runtime and the maintenance copy are
      in place, the retired runtime and mod are gone, and nothing temporary is left. */
  predicate ProductInstalled(before: Files, fs: Files, b: Build, rq: Request) {
    && Lookup(fs, ModDir) == Some((if rq.detectedPlus then b.plus else b.standalone) + "installer-path")
    && Lookup(fs, Runtime) == Some(b.runtime) && Lookup(fs, LegacyRuntime) == None
    && Lookup(fs, LegacyModDir) == (if rq.legacyManaged then None else Lookup(before, LegacyModDir))
    && Lookup(fs, Maintenance) == (if rq.runsFromMaintenance then Lookup(before, Maintenance) else Some(b.self))
    && Lookup(fs, Stage(rq.tag)) == None && Lookup(fs, ModRollback(rq.tag)) == None
    && Lookup(fs, LegacyRollback(rq.tag)) == None
  }

  /** The surviving copy of an original. */
  function Copy(fs: Files, facts: Facts): Option<Bytes> {
    if facts.backup.Some? then Lookup(fs, facts.backup.value) else None
  }

  /** A compatible foreign injector is kept, with a copy of it if none was kept before; any other file gives way to
      the bundled one. */
  predicate InjectorInstalled(before: Files, manifest: Option<Manifest>, fs: Files, b: Build, game: string) {
    var facts := if manifest.Some? && manifest.value.game == game then manifest.value.lovely else Facts(false, None);
    var found := Lookup(before, VersionDll(game));
    && Lookup(fs, VersionDll(game)) ==
       (if found.Some? && found.value != b.lovely && !facts.owned && Compatible(found.value) then found
        else Some(b.lovely))
    && Lookup(fs, DllBackup(game)) ==
       (if found.Some? && found.value != b.lovely && Copy(before, facts).None? then found
        else Lookup(before, DllBackup(game)))
  }

  /** Outside a Steam library the app id is 3045200, with a copy of a foreign file it replaces; inside, an app id of
      the installer's own is taken back and any other left alone. */
  predicate AppIdInstalled(before: Files, manifest: Option<Manifest>, fs: Files, rq: Request) {
    var game := rq.game;
    var facts := if manifest.Some? && manifest.value.game == game then manifest.value.appId else Facts(false, None);
    var found := Lookup(before, AppId(game));
    && Lookup(fs, AppId(game)) ==
       (if !rq.steamManaged then Some("3045200\n")
        else if !facts.owned then found
        else Copy(before, facts))
    && Lookup(fs, AppIdBackup(game)) ==
       (if !rq.steamManaged && found.Some? && found.value != "3045200\n" && !facts.owned
           && Copy(before, facts).None? then found
        else Lookup(before, AppIdBackup(game)))
  }

  /** Every path an install may change. */
  predicate InstallPath(p: Path, manifest: Option<Manifest>, rq: Request) {
    || p == ModDir || p == Runtime || p == LegacyRuntime || p == LegacyModDir || p == Maintenance
    || p == Stage(rq.tag) || p == ModRollback(rq.tag) || p == LegacyRollback(rq.tag)
    || GamePath(p, rq.game)
    || (manifest.Some? && (p == VersionDll(manifest.value.game) || p == AppId(manifest.value.game)))
  }

  lemma CoreDelivers(fs: Files, b: Build, rq: Request)
    requires Accepted(rq)
    ensures var after := InstallCore(fs, b, rq);
            && Lookup(after, ModDir) == Some(if rq.detectedPlus then b.plus else b.standalone)
            && Lookup(after, Runtime) == Some(b.runtime) && Lookup(after, LegacyRuntime) == None
            && Lookup(after, Stage(rq.tag)) == None
            && Lookup(after, LegacyModDir) == (if rq.legacyManaged then None else Lookup(fs, LegacyModDir))
            && forall p :: 
                 p !in {ModDir, Runtime, LegacyRuntime, LegacyModDir, Stage(rq.tag), ModRollback(rq.tag),
                        LegacyRollback(rq.tag)}
                 ==> Lookup(after, p) == Lookup(fs, p)
  {
  }

  lemma DllStep(fs: Files, facts: Facts, game: string, lovely: Bytes)
    requires facts.backup.Some? ==> facts.backup.value == DllBackup(game)
    ensures var after := InstallDll(fs, facts, game, lovely); var found := Lookup(fs, VersionDll(game));
            && Lookup(after, VersionDll(game)) ==
               (if found.Some? && found.value != lovely && !facts.owned && Compatible(found.value) then found
                else Some(lovely))
            && Lookup(after, DllBackup(game)) ==
               (if found.Some? && found.value != lovely && Copy(fs, facts).None? then found
                else Lookup(fs, DllBackup(game)))
            && forall p :: p != VersionDll(game) && p != DllBackup(game) ==> Lookup(after, p) == Lookup(fs, p)
  {
    hide IsLovely, Compatible;
    if VersionDll(game) in fs { CompatibleIsLovely(fs[VersionDll(game)]); }
  }

  lemma AppIdStep(fs: Files, facts: Facts, game: string, steamManaged: bool)
    requires facts.backup.Some? ==> facts.backup.value == AppIdBackup(game)
    ensures var after := InstallAppId(fs, facts, game, steamManaged); var found := Lookup(fs, AppId(game));
            && Lookup(after, AppId(game)) ==
               (if !steamManaged then Some("3045200\n")
                else if !facts.owned then found
                else Copy(fs, facts))
            && Lookup(after, AppIdBackup(game)) ==
               (if !steamManaged && found.Some? && found.value != "3045200\n" && !facts.owned
                   && Copy(fs, facts).None? then found
                else Lookup(fs, AppIdBackup(game)))
            && forall p :: p != AppId(game) && p != AppIdBackup(game) ==> Lookup(after, p) == Lookup(fs, p)
  {
  }

  lemma MaintenanceStep(fs: Files, b: Build, rq: Request)
    requires Lookup(fs, ModDir).Some?
    ensures var after := InstallMaintenance(fs, b, rq);
            && Lookup(after, ModDir) == Some(Lookup(fs, ModDir).value + "installer-path")
            && Lookup(after, Maintenance) == (if rq.runsFromMaintenance then Lookup(fs, Maintenance) else Some(b.self))
            && forall p :: p != ModDir && p != Maintenance ==> Lookup(after, p) == Lookup(fs, p)
  {
  }

  /** One of the two game files of a folder the install moves away from. */
  predicate LeftPath(s: State, rq: Request, p: Path) {
    Moves(s, rq) && (p == VersionDll(s.manifest.value.game) || p == AppId(s.manifest.value.game))
  }

  /** Leaving the former folder changes only its two game files. */
  lemma LeavingStep(fs: Files, s: State, rq: Request)
    ensures forall p :: !LeftPath(s, rq, p) ==> Lookup(LeaveOldGame(fs, s, rq), p) == Lookup(fs, p)
  {
    hide OtherLovely;
  }

  /** The two game steps together. */
  lemma GameSteps(s: State, fs: Files, b: Build, rq: Request)
    requires OwnCopies(s.manifest)
    ensures var facts := PreviousLovely(s, rq.game); var found := Lookup(fs, VersionDll(rq.game));
            var after := InstallAppId(InstallDll(fs, facts, rq.game, b.lovely), PreviousAppId(s, rq.game), rq.game,
                             rq.steamManaged);
            && Lookup(after, VersionDll(rq.game)) ==
               (if found.Some? && found.value != b.lovely && !facts.owned && Compatible(found.value) then found
                else Some(b.lovely))
            && Lookup(after, DllBackup(rq.game)) ==
               (if found.Some? && found.value != b.lovely && Copy(fs, facts).None? then found
                else Lookup(fs, DllBackup(rq.game)))
    ensures var facts := PreviousAppId(s, rq.game); var found := Lookup(fs, AppId(rq.game));
            var after := InstallAppId(InstallDll(fs, PreviousLovely(s, rq.game), rq.game, b.lovely), facts, rq.game,
                             rq.steamManaged);
            && Lookup(after, AppId(rq.game)) ==
               (if !rq.steamManaged then Some("3045200\n") else if !facts.owned then found else Copy(fs, facts))
            && Lookup(after, AppIdBackup(rq.game)) ==
               (if !rq.steamManaged && found.Some? && found.value != "3045200\n" && !facts.owned
                   && Copy(fs, facts).None? then found
                else Lookup(fs, AppIdBackup(rq.game)))
            && forall p :: !GamePath(p, rq.game) ==> Lookup(after, p) == Lookup(fs, p)
  {
    hide Lookup, InstallDll, InstallAppId, Compatible, OwnCopies, PreviousLovely, PreviousAppId;
    NamedCopies(s, rq.game);
    DllStep(fs, PreviousLovely(s, rq.game), rq.game, b.lovely);
    AppIdStep(InstallDll(fs, PreviousLovely(s, rq.game), rq.game, b.lovely), PreviousAppId(s, rq.game), rq.game,
        rq.steamManaged);
  }

  lemma NamedCopies(s: State, game: string)
    requires OwnCopies(s.manifest)
    ensures var facts := PreviousLovely(s, game); facts.backup.Some? ==> facts.backup.value == DllBackup(game)
    ensures var facts := PreviousAppId(s, game); facts.backup.Some? ==> facts.backup.value == AppIdBackup(game)
  {
  }

  /** What is in place just before the former folder is left: the product, and only the paths of an install changed. */
  lemma BeforeLeavingProduct(s: State, b: Build, rq: Request)
    requires Accepted(rq) && OwnCopies(s.manifest)
    ensures var fs := BeforeLeaving(s, b, rq);
            && Lookup(fs, ModDir) == Some((if rq.detectedPlus then b.plus else b.standalone) + "installer-path")
            && Lookup(fs, Runtime) == Some(b.runtime) && Lookup(fs, LegacyRuntime) == None
            && Lookup(fs, Stage(rq.tag)) == None
            && Lookup(fs, LegacyModDir) == (if rq.legacyManaged then None else Lookup(s.files, LegacyModDir))
            && Lookup(fs, Maintenance) ==
               (if rq.runsFromMaintenance then Lookup(s.files, Maintenance) else Some(b.self))
  {
    hide Lookup, InstallCore, InstallDll, InstallAppId, InstallMaintenance, Compatible, Accepted, OwnCopies,
        PreviousLovely, PreviousAppId;
    var fs1 := InstallCore(s.files, b, rq);
    var fs2 := InstallDll(fs1, PreviousLovely(s, rq.game), rq.game, b.lovely);
    var fs3 := InstallAppId(fs2, PreviousAppId(s, rq.game), rq.game, rq.steamManaged);
    CoreDelivers(s.files, b, rq);
    GameSteps(s, fs1, b, rq);
    assert Lookup(fs3, ModDir) == Lookup(fs1, ModDir);
    MaintenanceStep(fs3, b, rq);
  }

  lemma BeforeLeavingFrame(s: State, b: Build, rq: Request)
    requires Accepted(rq) && OwnCopies(s.manifest)
    ensures forall p :: !InstallPath(p, s.manifest, rq) ==> Lookup(BeforeLeaving(s, b, rq), p) == Lookup(s.files, p)
  {
    hide Lookup, InstallCore, InstallDll, InstallAppId, InstallMaintenance, Compatible, Accepted, OwnCopies,
        PreviousLovely, PreviousAppId;
    var fs1 := InstallCore(s.files, b, rq);
    var fs2 := InstallDll(fs1, PreviousLovely(s, rq.game), rq.game, b.lovely);
    var fs3 := InstallAppId(fs2, PreviousAppId(s, rq.game), rq.game, rq.steamManaged);
    CoreDelivers(s.files, b, rq);
    GameSteps(s, fs1, b, rq);
    assert Lookup(fs3, ModDir) == Lookup(fs1, ModDir);
    MaintenanceStep(fs3, b, rq);
  }

  lemma BeforeLeavingInjector(s: State, b: Build, rq: Request)
    requires Accepted(rq) && OwnCopies(s.manifest)
    ensures InjectorInstalled(s.files, s.manifest, BeforeLeaving(s, b, rq), b, rq.game)
  {
    hide Lookup, InstallCore, InstallDll, InstallAppId, InstallMaintenance, Compatible, Accepted, OwnCopies;
    var fs1 := InstallCore(s.files, b, rq);
    var fs2 := InstallDll(fs1, PreviousLovely(s, rq.game), rq.game, b.lovely);
    var fs3 := InstallAppId(fs2, PreviousAppId(s, rq.game), rq.game, rq.steamManaged);
    NamedCopies(s, rq.game);
    CoreDelivers(s.files, b, rq);
    GameSteps(s, fs1, b, rq);
    assert Lookup(fs3, ModDir) == Lookup(fs1, ModDir);
    MaintenanceStep(fs3, b, rq);
  }

  lemma BeforeLeavingAppId(s: State, b: Build, rq: Request)
    requires Accepted(rq) && OwnCopies(s.manifest)
    ensures AppIdInstalled(s.files, s.manifest, BeforeLeaving(s, b, rq), rq)
  {
    hide Lookup, InstallCore, InstallDll, InstallAppId, InstallMaintenance, Compatible, Accepted, OwnCopies;
    var fs1 := InstallCore(s.files, b, rq);
    var fs2 := InstallDll(fs1, PreviousLovely(s, rq.game), rq.game, b.lovely);
    var fs3 := InstallAppId(fs2, PreviousAppId(s, rq.game), rq.game, rq.steamManaged);
    NamedCopies(s, rq.game);
    CoreDelivers(s.files, b, rq);
    GameSteps(s, fs1, b, rq);
    assert Lookup(fs3, ModDir) == Lookup(fs1, ModDir);
    MaintenanceStep(fs3, b, rq);
  }

  /** A completed install has everything in its place and changes nothing else but the two game files of a folder it
      moves away from. */
  lemma InstallDelivers(s: State, b: Build, rq: Request)
    requires Accepted(rq) && OwnCopies(s.manifest)
    ensures var t := Install(s, b, rq);
            && ProductInstalled(s.files, t.files, b, rq)
            && InjectorInstalled(s.files, s.manifest, t.files, b, rq.game)
            && AppIdInstalled(s.files, s.manifest, t.files, rq)
            && (forall p :: !InstallPath(p, s.manifest, rq) ==> Lookup(t.files, p) == Lookup(s.files, p))
            && t.manifest.Some? && t.manifest.value.game == rq.game
            && t.manifest.value.distribution == (if rq.detectedPlus then BeatblockPlus else Standalone)
  {
    hide Lookup, BeforeLeaving, LeaveOldGame, InstalledFiles, Compatible, LovelyFacts, AppIdFacts, OwnCopies,
        ProductInstalled, InjectorInstalled, AppIdInstalled, InstallPath;
    var before, left := BeforeLeaving(s, b, rq), InstalledFiles(s, b, rq);
    BeforeLeavingProduct(s, b, rq);
    BeforeLeavingFrame(s, b, rq);
    BeforeLeavingInjector(s, b, rq);
    BeforeLeavingAppId(s, b, rq);
    InstalledIsLeaving(s, b, rq);
    LeavingStep(before, s, rq);
    Committed(left, rq.tag);
    ProductSurvives(s, before, left, Install(s, b, rq).files, b, rq);
    GameSurvives(s, before, left, Install(s, b, rq).files, b, rq);
  }

  /** Nothing the former folder's two game files and the committed guards change is part of the product. */
  lemma ProductSurvives(s: State, before: Files, left: Files, after: Files, b: Build, rq: Request)
    requires Lookup(before, ModDir) == Some((if rq.detectedPlus then b.plus else b.standalone) + "installer-path")
    requires Lookup(before, Runtime) == Some(b.runtime) && Lookup(before, LegacyRuntime) == None
    requires Lookup(before, Stage(rq.tag)) == None
    requires Lookup(before, LegacyModDir) == (if rq.legacyManaged then None else Lookup(s.files, LegacyModDir))
    requires Lookup(before, Maintenance) ==
             (if rq.runsFromMaintenance then Lookup(s.files, Maintenance) else Some(b.self))
    requires forall p :: !InstallPath(p, s.manifest, rq) ==> Lookup(before, p) == Lookup(s.files, p)
    requires forall p :: !LeftPath(s, rq, p) ==> Lookup(left, p) == Lookup(before, p)
    requires Lookup(after, ModRollback(rq.tag)) == None && Lookup(after, LegacyRollback(rq.tag)) == None
    requires forall p :: p != ModRollback(rq.tag) && p != LegacyRollback(rq.tag) ==> Lookup(after, p) == Lookup(left, p)
    ensures ProductInstalled(s.files, after, b, rq)
    ensures forall p :: !InstallPath(p, s.manifest, rq) ==> Lookup(after, p) == Lookup(s.files, p)
  {
    hide Lookup;
  }

  lemma GameSurvives(s: State, before: Files, left: Files, after: Files, b: Build, rq: Request)
    requires InjectorInstalled(s.files, s.manifest, before, b, rq.game)
    requires AppIdInstalled(s.files, s.manifest, before, rq)
    requires forall p :: !LeftPath(s, rq, p) ==> Lookup(left, p) == Lookup(before, p)
    requires forall p :: p != ModRollback(rq.tag) && p != LegacyRollback(rq.tag) ==> Lookup(after, p) == Lookup(left, p)
    ensures InjectorInstalled(s.files, s.manifest, after, b, rq.game) && AppIdInstalled(s.files, s.manifest, after, rq)
  {
    hide Lookup, Compatible;
    forall p | GamePath(p, rq.game) ensures Lookup(after, p) == Lookup(before, p) { }
  }

  lemma Committed(fs: Files, tag: nat)
    ensures var after := fs - {ModRollback(tag), LegacyRollback(tag)};
            && Lookup(after, ModRollback(tag)) == None && Lookup(after, LegacyRollback(tag)) == None
            && forall p :: p != ModRollback(tag) && p != LegacyRollback(tag) ==> Lookup(after, p) == Lookup(fs, p)
  {
  }

  /** An install goes ahead exactly when the adapter asked for, if any, is the one that is detected. */
  lemma AcceptedIff(rq: Request)
    ensures Accepted(rq) <==>
            rq.distribution.None? || rq.distribution == Some(if rq.detectedPlus then BeatblockPlus else Standalone)
  {
  }

  // ---- Restore and uninstall ----

  /** A kept copy is put back over the injector; without one an injector of the installer's own is removed. */
  predicate PutsBack(before: Files, fs: Files, facts: Facts, file: Path, stays: bool) {
    Lookup(fs, file) ==
    if Copy(before, facts).Some? then Copy(before, facts)
    else if facts.backup.None? && facts.owned && !stays then None
    else Lookup(before, file)
  }

  /** A finished restore has removed the mod folder and put both game files back, and touches nothing else. */
  lemma RestoreDelivers(s: State)
    requires s.manifest.Some? && OwnCopies(s.manifest)
    ensures var m, fs := s.manifest.value, Restore(s, true, 3).files;
            && ModDir !in fs && Restore(s, true, 3).manifest == s.manifest
            && PutsBack(s.files, fs, m.lovely, VersionDll(m.game), false)
            && PutsBack(s.files, fs, m.appId, AppId(m.game), false)
            && forall p :: p != ModDir && p != VersionDll(m.game) && p != AppId(m.game) ==>
                 Lookup(fs, p) == Lookup(s.files, p)
  {
  }

  /** A restore goes step by step: the mod folder first, then the injector, then the app id. */
  lemma RestoreInSteps(s: State, steps: nat)
    requires s.manifest.Some? && OwnCopies(s.manifest)
    ensures var m, fs := s.manifest.value, Restore(s, true, steps).files;
            && (steps == 0 ==> fs == s.files)
            && (steps >= 1 ==> Lookup(fs, ModDir) == None)
            && (steps < 2 ==> Lookup(fs, VersionDll(m.game)) == Lookup(s.files, VersionDll(m.game)))
            && (steps >= 2 ==> PutsBack(s.files, fs, m.lovely, VersionDll(m.game), false))
            && (steps < 3 ==> Lookup(fs, AppId(m.game)) == Lookup(s.files, AppId(m.game)))
            && (steps >= 3 ==> PutsBack(s.files, fs, m.appId, AppId(m.game), false))
  {
  }

  /** A finished uninstall has removed the mod folder, both runtimes, the OBS files it had marked as its own and,
      unless it runs from there, the maintenance copy; the game files of a valid folder are put back, and an
      injector of its own stays only where another mod needs it. */
  lemma UninstallDelivers(s: State, gameValid: bool, otherMods: bool, runsFromMaintenance: bool)
    requires s.manifest.Some? && OwnCopies(s.manifest)
    ensures var m := s.manifest.value; var t := Uninstall(s, gameValid, otherMods, runsFromMaintenance, 4);
            var fs := t.files;
            && t.manifest == None && Lookup(fs, ModDir) == None
            && Lookup(fs, Runtime) == None && Lookup(fs, LegacyRuntime) == None
            && (ObsMarker in s.files ==> Lookup(fs, ObsPlugin) == None && Lookup(fs, ObsLocale) == None
                                         && Lookup(fs, ObsMarker) == None)
            && Lookup(fs, Maintenance) == (if runsFromMaintenance then Lookup(s.files, Maintenance) else None)
            && (gameValid ==>
                  PutsBack(s.files, fs, m.lovely, VersionDll(m.game),
                      otherMods || exists p :: p in s.files && p.LegacyRollback?)
                  && PutsBack(s.files, fs, m.appId, AppId(m.game), false))
            && forall p ::
                 (p !in {ModDir, Runtime, LegacyRuntime, ObsPlugin, ObsLocale, ObsMarker, Maintenance}
                  || (ObsMarker !in s.files && p in {ObsPlugin, ObsLocale}))
                 && !(gameValid && (p == VersionDll(m.game) || p == AppId(m.game)))
                 ==> Lookup(fs, p) == Lookup(s.files, p)
  {
    hide OtherLovely, Uninstall, PutBack, RemoveProduct, OwnCopies;
    var m := s.manifest.value;
    var back := PutBack(s.files, m, gameValid, OtherLovely(s.files, otherMods), 4);
    UninstallIsPutBack(s, gameValid, otherMods, runsFromMaintenance, 4);
    OtherLovelyIff(s.files, otherMods);
    BackInPlace(s.files, m, gameValid, OtherLovely(s.files, otherMods));
    ProductRemoved(back, runsFromMaintenance);
    assert Lookup(back, ObsMarker) == Lookup(s.files, ObsMarker);
  }

  lemma OtherLovelyIff(fs: Files, otherMods: bool)
    ensures OtherLovely(fs, otherMods) <==> otherMods || exists p :: p in fs && p.LegacyRollback?
  {
  }

  lemma BackInPlace(fs: Files, m: Manifest, gameValid: bool, stays: bool)
    requires OwnCopies(Some(m))
    ensures var back := PutBack(fs, m, gameValid, stays, 4);
            && Lookup(back, ModDir) == None
            && (gameValid ==> PutsBack(fs, back, m.lovely, VersionDll(m.game), stays)
                              && PutsBack(fs, back, m.appId, AppId(m.game), false))
            && forall p :: p != ModDir && !(gameValid && (p == VersionDll(m.game) || p == AppId(m.game))) ==>
                 Lookup(back, p) == Lookup(fs, p)
  {
  }

  lemma ProductRemoved(fs: Files, runsFromMaintenance: bool)
    ensures var after := RemoveProduct(fs, runsFromMaintenance);
            && Lookup(after, Runtime) == None && Lookup(after, LegacyRuntime) == None
            && (ObsMarker in fs ==> Lookup(after, ObsPlugin) == None && Lookup(after, ObsLocale) == None
                                    && Lookup(after, ObsMarker) == None)
            && Lookup(after, Maintenance) == (if runsFromMaintenance then Lookup(fs, Maintenance) else None)
            && forall p ::
                 (p !in {Runtime, LegacyRuntime, ObsPlugin, ObsLocale, ObsMarker, Maintenance}
                  || (ObsMarker !in fs && p in {ObsPlugin, ObsLocale}))
                 ==> Lookup(after, p) == Lookup(fs, p)
  {
  }
}
