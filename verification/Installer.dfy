/** Install, repair, move, restore and uninstall as steps on a file map and a durable manifest. */
module Installer {
  import opened Wrappers
  import opened Rollback

  const APP_ID: Bytes := "3045200\n"
  const MAX_INJECTOR_SIZE: nat := 64 * 1024 * 1024

  /** The bytes one installer build carries. */
  datatype Build = Build(runtime: Bytes, lovely: Bytes, standalone: Bytes, plus: Bytes, self: Bytes,
                         obsPlugin: Bytes, obsLocale: Bytes, obsMarker: Bytes)

  predicate MarkerAt(b: Bytes, i: nat) {
    var marker := "lovely-injector";
    i + |marker| <= |b| && b[i..i + |marker|] == marker
  }

  predicate HasMarker(b: Bytes) {
    exists i: nat :: i <= |b| && MarkerAt(b, i)
  }

  predicate IsLovely(b: Bytes) {
    2 <= |b| <= MAX_INJECTOR_SIZE && b[..2] == "MZ" && HasMarker(b)
  }

  datatype Distribution = Standalone | BeatblockPlus

  /** What the manifest says about one game file: whether the installer owns it, and where
      the copy of the original is. */
  datatype Facts = Facts(owned: bool, backup: Option<Path>)

  datatype Manifest = Manifest(game: string, distribution: Distribution, lovely: Facts, appId: Facts)

  datatype State = State(files: Files, manifest: Option<Manifest>)

  /** One install call with what it finds around it. A repair is an install of the managed
      folder, a move an install of another one. */
  datatype Request = Request(game: string, distribution: Option<Distribution>, detectedPlus: bool,
                             steamManaged: bool, oldGameValid: bool, otherMods: bool, legacyManaged: bool,
                             runsFromMaintenance: bool, tag: nat)

  function Chosen(rq: Request): Distribution {
    if rq.distribution.Some? then rq.distribution.value
    else if rq.detectedPlus then BeatblockPlus else Standalone
  }

  /** The adapter must match what is installed; otherwise the call stops before any change. */
  predicate Accepted(rq: Request) {
    Chosen(rq) == (if rq.detectedPlus then BeatblockPlus else Standalone)
  }

  /** Copies of originals are only ever kept under the folder's own names. */
  predicate OwnCopies(m: Option<Manifest>) {
    m.Some? ==>
      && (m.value.lovely.backup.Some? ==> m.value.lovely.backup.value == DllBackup(m.value.game))
      && (m.value.appId.backup.Some? ==> m.value.appId.backup.value == AppIdBackup(m.value.game))
  }

  /** Facts carried over from the manifest when it already manages this folder. */
  function PreviousLovely(s: State, game: string): Facts {
    if s.manifest.Some? && s.manifest.value.game == game then s.manifest.value.lovely else Facts(false, None)
  }

  function PreviousAppId(s: State, game: string): Facts {
    if s.manifest.Some? && s.manifest.value.game == game then s.manifest.value.appId else Facts(false, None)
  }

  predicate HasBackup(fs: Files, facts: Facts) {
    facts.backup.Some? && facts.backup.value in fs
  }

  // ---- version.dll ----

  /** A foreign injector without a surviving copy is copied aside first. */
  predicate CopiesDll(fs: Files, facts: Facts, game: string, lovely: Bytes) {
    VersionDll(game) in fs && !HasBackup(fs, facts) && fs[VersionDll(game)] != lovely
  }

  function LovelyFacts(fs: Files, facts: Facts, game: string, lovely: Bytes): Facts {
    if CopiesDll(fs, facts, game, lovely) then facts.(backup := Some(DllBackup(game)))
    else if VersionDll(game) !in fs && facts.backup.None? then facts.(owned := true)
    else facts
  }

  /** A compatible injector the installer does not own is kept. */
  predicate PreservesDll(fs: Files, facts: Facts, game: string, lovely: Bytes) {
    VersionDll(game) in fs && fs[VersionDll(game)] != lovely && !facts.owned && IsLovely(fs[VersionDll(game)])
  }

  function InstallDll(fs: Files, facts: Facts, game: string, lovely: Bytes): Files {
    var copied := if CopiesDll(fs, facts, game, lovely) then fs[DllBackup(game) := fs[VersionDll(game)]] else fs;
    var now := LovelyFacts(fs, facts, game, lovely);
    if PreservesDll(copied, now, game, lovely) then copied else copied[VersionDll(game) := lovely]
  }

  // ---- steam_appid.txt ----

  predicate CopiesAppId(fs: Files, facts: Facts, game: string, steamManaged: bool) {
    !steamManaged && AppId(game) in fs && fs[AppId(game)] != APP_ID && !facts.owned && !HasBackup(fs, facts)
  }

  function AppIdFacts(fs: Files, facts: Facts, game: string, steamManaged: bool): Facts {
    if steamManaged then Facts(false, None)
    else if Lookup(fs, AppId(game)) == Some(APP_ID) then facts
    else Facts(true, if CopiesAppId(fs, facts, game, steamManaged) then Some(AppIdBackup(game)) else facts.backup)
  }

  /** The original under a set of facts: the surviving copy, or nothing. */
  function Original(fs: Files, facts: Facts): Option<Bytes> {
    if HasBackup(fs, facts) then Some(fs[facts.backup.value]) else None
  }

  function InstallAppId(fs: Files, facts: Facts, game: string, steamManaged: bool): Files {
    if steamManaged then (if facts.owned then Put(fs, AppId(game), Original(fs, facts)) else fs)
    else if Lookup(fs, AppId(game)) == Some(APP_ID) then fs
    else
      var copied := if CopiesAppId(fs, facts, game, steamManaged) then fs[AppIdBackup(game) := fs[AppId(game)]] else fs;
      copied[AppId(game) := APP_ID]
  }

  // ---- Leaving a folder ----

  /** Another mod that needs the injector, or a quarantined copy of the retired mod, which
      the scan for other mods does not exclude. */
  predicate OtherLovely(fs: Files, otherMods: bool) {
    otherMods || exists p :: p in fs && p.LegacyRollback?
  }

  function LeaveDll(fs: Files, facts: Facts, game: string, other: bool): Files {
    if HasBackup(fs, facts) then fs[VersionDll(game) := fs[facts.backup.value]]
    else if facts.owned && !other then fs - {VersionDll(game)}
    else fs
  }

  function LeaveAppId(fs: Files, facts: Facts, game: string): Files {
    if facts.owned then Put(fs, AppId(game), Original(fs, facts)) else fs
  }

  predicate Moves(s: State, rq: Request) {
    s.manifest.Some? && s.manifest.value.game != rq.game && rq.oldGameValid
  }

  function LeaveOldGame(fs: Files, s: State, rq: Request): Files {
    if !Moves(s, rq) then fs
    else
      var m := s.manifest.value;
      LeaveAppId(LeaveDll(fs, m.lovely, m.game, OtherLovely(fs, rq.otherMods)), m.appId, m.game)
  }

  // ---- The whole install ----

  function ModTree(b: Build, d: Distribution): Bytes {
    match d case Standalone => b.standalone case BeatblockPlus => b.plus
  }

  function RuntimeFiles(fs: Files, b: Build): Files {
    fs[Runtime := b.runtime] - {LegacyRuntime}
  }

  function ModFiles(fs: Files, b: Build, rq: Request): Files {
    Effect(fs[Stage(rq.tag) := ModTree(b, Chosen(rq))], Activate(Stage(rq.tag), ModDir, ModRollback(rq.tag)))
  }

  function RetiredFiles(fs: Files, rq: Request): Files {
    if rq.legacyManaged then Effect(fs, Quarantine(LegacyModDir, LegacyRollback(rq.tag))) else fs
  }

  /** Runtime, mod folder and retired mod: everything before the injector. */
  function InstallCore(fs: Files, b: Build, rq: Request): Files {
    RetiredFiles(ModFiles(RuntimeFiles(fs, b), b, rq), rq)
  }

  /** The maintenance copy, and the note about it written into the activated mod folder. */
  function InstallMaintenance(fs: Files, b: Build, rq: Request): Files {
    var fs1 := if rq.runsFromMaintenance then fs else fs[Maintenance := b.self];
    fs1[ModDir := GetOr(fs1, ModDir, "") + "installer-path"]
  }

  function NewManifest(s: State, b: Build, rq: Request): Manifest {
    Manifest(rq.game, Chosen(rq),
             LovelyFacts(s.files, PreviousLovely(s, rq.game), rq.game, b.lovely),
             AppIdFacts(s.files, PreviousAppId(s, rq.game), rq.game, rq.steamManaged))
  }

  /** The files when the manifest is saved, before the guards are committed. */
  function InstalledFiles(s: State, b: Build, rq: Request): Files {
    var fs1 := InstallCore(s.files, b, rq);
    var fs2 := InstallDll(fs1, PreviousLovely(s, rq.game), rq.game, b.lovely);
    var fs3 := InstallAppId(fs2, PreviousAppId(s, rq.game), rq.game, rq.steamManaged);
    LeaveOldGame(InstallMaintenance(fs3, b, rq), s, rq)
  }

  /** Committing deletes the rollback folders. */
  function Install(s: State, b: Build, rq: Request): State {
    if !Accepted(rq) then s
    else State(InstalledFiles(s, b, rq) - {ModRollback(rq.tag), LegacyRollback(rq.tag)}, Some(NewManifest(s, b, rq)))
  }

  // ---- Restore and uninstall, stopped after any number of steps ----

  function BackDll(fs: Files, facts: Facts, game: string, other: bool): Files {
    if facts.backup.Some? then (if facts.backup.value in fs then fs[VersionDll(game) := fs[facts.backup.value]] else fs)
    else if facts.owned && !other then fs - {VersionDll(game)} else fs
  }

  function BackAppId(fs: Files, facts: Facts, game: string): Files {
    if facts.backup.Some? then (if facts.backup.value in fs then fs[AppId(game) := fs[facts.backup.value]] else fs)
    else if facts.owned then fs - {AppId(game)} else fs
  }

  function Restore(s: State, gameValid: bool, steps: nat): State {
    if s.manifest.None? || !gameValid then s
    else
      var m := s.manifest.value;
      var fs1 := if steps >= 1 then s.files - {ModDir} else s.files;
      var fs2 := if steps >= 2 then BackDll(fs1, m.lovely, m.game, false) else fs1;
      var fs3 := if steps >= 3 then BackAppId(fs2, m.appId, m.game) else fs2;
      State(fs3, s.manifest)
  }

  /** The best-effort removals after the manifest is gone; none of them can fail the call. */
  function RemoveProduct(fs: Files, runsFromMaintenance: bool): Files {
    var fs1 := fs - {Runtime, LegacyRuntime};
    var fs2 := if ObsMarker in fs1 then fs1 - {ObsPlugin, ObsLocale, ObsMarker} else fs1;
    if runsFromMaintenance then fs2 else fs2 - {Maintenance}
  }

  /** Four steps complete it: mod folder, injector, app id, manifest. */
  function Uninstall(s: State, gameValid: bool, otherMods: bool, runsFromMaintenance: bool, steps: nat): State {
    if s.manifest.None? then s
    else
      var m := s.manifest.value;
      var fs1 := if steps >= 1 then s.files - {ModDir} else s.files;
      var fs2 := if steps >= 2 && gameValid then BackDll(fs1, m.lovely, m.game, OtherLovely(fs1, otherMods)) else fs1;
      var fs3 := if steps >= 3 && gameValid then BackAppId(fs2, m.appId, m.game) else fs2;
      if steps >= 4 then State(RemoveProduct(fs3, runsFromMaintenance), None)
      else State(fs3, s.manifest)
  }

  // ---- The invariant ----

  /** The facts suffice to recover a file's original: a copy equals it, owned without a copy
      means there was none, and neither means the current file is the original. */
  predicate Recovers(fs: Files, original: Files, facts: Facts, file: Path, backup: Path, payload: Bytes) {
    if facts.backup.Some? then
      facts.backup == Some(backup) && backup in fs && Lookup(original, file) == Some(fs[backup])
    else if facts.owned then
      file !in original && (file !in fs || fs[file] == payload)
    else
      Lookup(fs, file) == Lookup(original, file)
  }

  predicate Untouched(fs: Files, original: Files, game: string) {
    Lookup(fs, VersionDll(game)) == Lookup(original, VersionDll(game))
      && Lookup(fs, AppId(game)) == Lookup(original, AppId(game))
  }

  predicate Managed(fs: Files, original: Files, m: Manifest, b: Build) {
    && Recovers(fs, original, m.lovely, VersionDll(m.game), DllBackup(m.game), b.lovely)
    && Recovers(fs, original, m.appId, AppId(m.game), AppIdBackup(m.game), APP_ID)
    && (m.appId.backup.Some? ==> m.appId.owned)
  }

  /** Every folder outside the manifest is as it was originally; the managed one is recoverable. */
  ghost predicate Sound(s: State, original: Files, b: Build) {
    && (s.manifest.Some? ==> Managed(s.files, original, s.manifest.value, b))
    && forall game :: (s.manifest.None? || s.manifest.value.game != game) ==> Untouched(s.files, original, game)
  }
}
