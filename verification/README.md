# Beatblock Online companion: a Dafny model of its stateful cores

The companion runs for hours and keeps promises across long runs of small steps. This project models
the parts where such a promise is hardest to keep and proves it for every run. Where the code does not keep
it, a lemma gives a failing input and another the condition under which it is kept, as an equivalence
wherever the table says "if and only if" or "exactly when".

| files | subject |
|---|---|
| `Presenter*.dfy`, `RendererManager.dfy` | the delayed cohort presenter: buffers, anchors, epoch, launch barrier, per-slot cursors |
| `Rollback.dfy`, `Installer*.dfy`, `GameInstaller.dfy` | the transactional installer: undo guards over a file map, a manifest carried across runs |
| `RateLimiter.dfy`, `RateAttempts.dfy` | the failed-password limiter: a bounded table of sliding windows, and attempts under way between its two questions |
| `TransferConsent.dfy`, `Consent*.dfy`, `TransferDesk.dfy` | consent to chart transfers: one-shot authorizations, at the grain of lock operations |
| `EventBacklog.dfy` | the durable event backlog: take, commit first-wins, merge back |
| `ExportProtocol.dfy`, `ExportCache.dfy` | the coalescing export worker as an interleaved protocol, and its write-skipping cache |
| `AudioIsolation.dfy` | muting a renderer's audio sessions and giving them back |
| `ChartStream.dfy`, `ChartHasher.dfy` | the canonical byte stream of a chart package and the two walkers that feed it |
| `JournalPool.dfy` | the bounded pool of buffered journal writers |

Each component has a specification on values (a state, its steps, its runs), theorems about that
specification, and a class with the source's own fields whose methods work in place, loops included, and
are proved equal to the specification. `dafny verify dfyconfig.toml` checks everything.

What the models take from outside as parameters: the current time (never decreasing), which file, audio
or lock operation fails, what a directory walk or a session listing returns, how reads are chunked, which
of several equally old entries a hash map yields first, and random folder names (fresh).

Findings, each a lemma with a concrete input or a family of inputs:

- Two overlapping flushes can break the first-arrival-wins order of run events (`EventBacklog.OverlapBreaksFirstWins`, and within one batch `FailedFlushesReorder`); exactly when is `ArrivalOrderIff`, and distinct keys make the overlap harmless.
- Moving an owned installation while the retired mod is quarantined leaves `version.dll` behind, because the quarantined copy counts as another mod that needs it (`InstallerRuns.MoveLeavesInjectorBehind`; the exact condition is `InstallerProofs.InstallSoundIff`).
- If deleting the old mod folder fails after the manifest was saved, the files are rolled back under the new manifest (`InstallerRuns.LateFailureForgetsInjector`; the exact condition is `LateFailureSoundIff`).
- A publish that has returned may leave its value pending with no signal in the channel and an idle worker, for as long as another publisher sits between its flag swap and its send (`ExportProtocol.FinishedPublishMayWaitOnAnother`, `WaitsForSender`).
- Overlapping accepts of one offer can yield two authorizations, a decision under way silently drops an offer that arrives meanwhile, trust is recorded for whichever room is current, by a mere snapshot too, and an offer may be authorized for the sake of a room it did not arrive in. Each has a run from an empty desk (`ConsentExamples`) and its exact condition over runs (`ConsentOverlap`).
- The limiter is asked twice, and attempts under way do not count: of six let through at once the sixth failure leaves no record (`RateAttempts.SixthFailureIsMissed`, exactly when: `EveryFailureRecordedIff`).
- An automatic authorization that is refused leaves its offer pending without a prompt (`Transfers.TransferDesk.ApplyOffer`).
- A warm-up that hands AUTOPLAY to another participant keeps the old tap cursor, so the new participant's due taps up to it are skipped (`PresenterExample.HandoverLosesTap`, exactly when: `PresenterHandover.HandoverSkipsIff`). A configured slot is never handed over.
- A tap pushed out of beat order can be passed over before it is due (`PresenterTaps.OutOfOrderTapIsLost`, exactly when: `ScanSafeIff`).
- A zip archive is held to stricter limits than the directory with the same files (`ChartHasher.ZipIsStricterIff`).

## Model

| member | source | states |
|---|---|---|
| PresenterInvariant.RunKeepsInv | companion/src/renderer.rs:463-1110 | every public call keeps: buffers sorted by sequence and bounded, taps distinct and bounded, and an epoch covers each eligible slot's delay and has every cohort anchor resolved |
| PresenterInvariant.NextEpochOk | companion/src/renderer.rs:808-834 | a tick that keeps, drops or starts an epoch ends with one whose release is no earlier than any cohort receipt plus any written slot's delay |
| PresenterTheorems.CaptureOnlyAfterCohort | companion/src/renderer.rs:743-839 | in every run, a record with the capture flag is published only when each participant of the cohort has a resolved first note and `now` is at least its receipt plus the delay of any slot being written |
| PresenterTheorems.ReleaseOpensGate | companion/src/renderer.rs:808-839 | the same gate, for any state that satisfies the invariant, whenever a tick reaches the release time |
| PresenterTheorems.OriginWasSent | companion/src/renderer.rs:785-806 | in every run a resolved anchor carries the source time and receipt of a playing sample that participant really sent at or past the first note |
| PresenterTheorems.PresentationNeverGoesBack | companion/src/renderer.rs:870-888 | within one epoch the sequence shown for a participant never decreases, through any pushes and evictions, with source times in any order |
| PresenterTheorems.FloorSurvivesPush | companion/src/renderer.rs:463-483 | pushing and evicting keeps the lower bound on what can still be played from a source time on |
| PresenterCursors.RawEdgesEmittedOnce | companion/src/renderer.rs:880-938 | while a screen, AUTOPLAY included, keeps its source within an epoch, a sample shown once is never new again there |
| PresenterSources.SlotsShowTheirOwn | companion/src/renderer.rs:317-1335 | in every run a configured slot's screen shows that slot's own participant or nothing, and holds a tap cursor only while it shows something |
| PresenterSources.SlotEmitsRawEdgesOnce | companion/src/renderer.rs:880-938 | on a configured slot, in every run, as long as one epoch stands and the clock goes forward, what is shown never goes back and a sample shown once is never new again |
| PresenterTaps.EdgesComeFromOneSource | companion/src/renderer.rs:911-972 | the edges a tick publishes are those of the one due reliable tap, with its judgement beat, or else the raw edges of a sample not shown before; never a mix |
| PresenterTaps.RepeatedSampleIsSilent | companion/src/renderer.rs:932-972 | showing the same sample again within an epoch, with no tap due, publishes neither press nor release |
| PresenterTaps.TapsEmittedInIncreasingOrder | companion/src/renderer.rs:516-930 | between cursor resets the taps emitted on a slot have strictly increasing sequences, whatever was evicted, pushed again or arrived out of order |
| PresenterTaps.ScanPassesEmittedOrLate | companion/src/renderer.rs:911-930 | with taps in sequence and beat order, one scan passes a tap only by emitting it or because it is more than 0.05 beat behind, and when it emits none, none was due |
| PresenterPassing.PassedTapsWereEmittedOrLate | companion/src/renderer.rs:516-930 | over any run from a dropped cursor on, while a participant's taps arrive in order and neither they nor the cursor are dropped: each buffered tap at or below the screen's cursor was emitted there, or a tick showed a sample there more than 0.05 beat past it |
| PresenterPassing.SlotFollows | companion/src/renderer.rs:743-860 | on a configured slot ticks meet the conditions of that stretch by themselves |
| PresenterTaps.BaselineSkipsOnlyLateTaps | companion/src/renderer.rs:894-909 | starting on a new source skips only taps more than 0.05 beat behind the sample |
| PresenterTaps.ScanSafeIff | companion/src/renderer.rs:911-930 | no scan, from any cursor and at any beat, passes a tap that is not late without emitting it, if and only if no two taps stand in an unsafe order: the one with the greater sequence arrived second and is earlier in beats, or arrived first and is not more than 0.051 beat later |
| PresenterTaps.OutOfOrderTapIsLost | companion/src/renderer.rs:516-930 | two pushed taps out of beat order: the scan that emits the second passes the first, and no later scan emits it |
| PresenterHandover.HandoverSkipsIff | companion/src/renderer.rs:690-930 | after one participant was shown on a screen and with its cursor kept, the first tick that shows another skips a due tap, one it had itself emitted earlier included, if and only if the screen stands on the new one, put there by a warm-up, and the tap is at or below the old cursor, or the tick re-bases and the tap is at or below the last one clearly behind; re-basing skips none where no two taps stand in unsafe order |
| PresenterHandover.SkippedTapIsNeverEmitted | companion/src/renderer.rs:911-930 | a skipped tap is not emitted by that tick nor by any later one for as long as the cursor is kept |
| PresenterHandover.SlotIsNeverHandedOver | companion/src/renderer.rs:317-428 | on a configured slot, in every run, two presentations without a cursor reset in between show the same participant |
| PresenterExample.HandoverLosesTap | companion/src/renderer.rs:690-972 | a run from the initial state: AUTOPLAY shows one participant, its slot moves to another, a warm-up hands it over, and at the release a due tap is emitted on the slot and skipped on AUTOPLAY |
| PresenterClock.OneClockForAll | companion/src/renderer.rs:870-888 | every slot a releasing tick presents on shows the last sample, in sequence order, whose source time is at most its own anchor plus the elapsed time common to all |
| PresenterClock.OneParticipantOneBeat | companion/src/renderer.rs:754-764 | two slots on one participant, AUTOPLAY and the featured slot included, publish the same sample and beat |
| PresenterClock.ScoreNeverAheadOfSample | companion/src/renderer.rs:973-987 | a score page that changes shows the newest score whose time is not later than the sample beside it, counters truncated to 32 bits |
| PresenterClock.LaunchParks | companion/src/renderer.rs:1089-1110 | a successful launch puts the slot behind the barrier with both pages zero |
| PresenterClock.ParkedPagesStayZero | companion/src/renderer.rs:744-753 | until the next run or stop, such a slot's pages stay zero under any pushes, ticks and reconfigurations, whatever is still buffered |
| PresenterClock.LaunchParksAutoplay | companion/src/renderer.rs:1049-1087 | launching AUTOPLAY puts it behind the barrier with its input page zero, whether or not the process starts |
| PresenterClock.ParkedAutoplayStaysZero | companion/src/renderer.rs:1049-1087 | from a launch of AUTOPLAY until the next run or until it is stopped, its input page stays zero in the same way |
| PresenterRecords.PresentedRecord | companion/src/renderer.rs:933-972 | a releasing tick publishes the paddle angle and the playing and paused flags of the sample it shows, with capture set, the offset of its participant's anchor, the anchor's beat on the first release and the sample's own from then on, and the next commit marker, which skips zero |
| PresenterRecords.SyncFlagIff | companion/src/renderer.rs:816-951 | in every run a record carries the synchronizing flag if and only if the screen stood on another source or none, or its tick is the first to release the epoch that stands |
| PresenterRecords.ReleasedIff | companion/src/renderer.rs:808-1000 | in every run an epoch is marked released if and only if it has stood since some releasing tick |
| PresenterRecords.PresentedScorePage | companion/src/renderer.rs:973-987 | a releasing tick shows the newest score not later than its sample, written anew if and only if the screen did not already stand on that source and score |
| PresenterRecords.WarmedRecord | companion/src/renderer.rs:690-741 | before the release a tick shows the newest sample received by `now` less the largest delay: motion, playing state and offset, no judgement, capture, synchronizing or tap flag, and nothing but source, counter and page changes |
| PresenterRecords.NothingToWarm | companion/src/renderer.rs:700-717 | with nothing received by then the screen stays as it is |
| PresenterRecords.UnwrittenScreen | companion/src/renderer.rs:767-769 | so does a screen that is not written, or has no page |
| PresenterRecords.RecordsWereSent | companion/src/renderer.rs:149-972 | in every run each record on a screen was written by one of the run's ticks, with the motion of a sample its participant had sent since it was last forgotten and the offset of the last anchor it had sent by then |
| PresenterArrivals.BuffersHoldTheNewest | companion/src/renderer.rs:463-636 | in every run each buffer holds exactly the newest 36,000 samples, 4,096 taps or 4,096 scores that counted since the participant was last forgotten by a new run or a stop, and its anchor is the last one |
| PresenterProgress.EligibleIff | companion/src/renderer.rs:744-766 | in every run a tick writes exactly the active slots that are not behind the barrier and, while AUTOPLAY is on and not behind it, AUTOPLAY as a copy of the one featured slot among them |
| PresenterProgress.AutoplayWasLaunched | companion/src/renderer.rs:1049-1087 | in every run AUTOPLAY is on only if a launch of it had succeeded |
| PresenterProgress.ResolvesIff | companion/src/renderer.rs:785-806 | a tick resolves an open anchor if and only if some written slot shows its participant and a buffered sample plays at or past the note, to 0.0001 beat; the times are those of the first such sample |
| PresenterProgress.EpochStartsIff | companion/src/renderer.rs:808-830 | with no epoch for the participants being written, a tick starts one if and only if each of them has a resolved note; its release is the latest receipt plus the largest delay |
| PresenterProgress.FreshReleasesIff | companion/src/renderer.rs:818-842 | such a tick releases at once if and only if each receipt plus each delay lies at or before `now` |
| PresenterProgress.StandingReleasesIff | companion/src/renderer.rs:811-842 | while an epoch stands, a tick releases if and only if its release time has come |
| PresenterProgress.ShownIff | companion/src/renderer.rs:870-888 | a releasing tick shows something of a participant if and only if one of its samples has been reached by the common clock |
| PresenterProgress.RejectedRequest | companion/src/renderer.rs:317-362 | a request outside 320-1920 by 180-1080 at 30 or 60 frames, or for an unknown slot, changes nothing |
| PresenterProgress.GrantedRequest | companion/src/renderer.rs:317-428 | any other whose files can be written sets the slot as asked, the delay brought within 250 to 1,500 ms, moves the featured flag and nothing else in the table; cursors and epoch go if and only if what is rendered changes, and then, or with the frame file missing, both pages are zeroed |
| PresenterProgress.FailedRequest | companion/src/renderer.rs:398-411 | when a file cannot be written the table stays, and what was reset before is reset |
| PresenterProgress.LaunchOutcome | companion/src/renderer.rs:1002-1110 | launching puts an active slot behind the barrier whatever its files do, and leaves everything but its pages alone |
| PresenterProgress.LaunchAutoplayOutcome | companion/src/renderer.rs:1049-1087 | AUTOPLAY goes behind the barrier if and only if an active slot is featured, and is on afterwards if its page could be made and its process started |
| PresenterProgress.StopAutoplayOutcome | companion/src/renderer.rs:1197-1234 | stopping AUTOPLAY takes its page, cursors, barrier and the epoch, and no other screen changes |
| PresenterProgress.StopSlotOutcome | companion/src/renderer.rs:1240-1296 | a stopped slot has no participant, cursors or barrier, the epoch ends and the other slots stay |
| PresenterProgress.StopParticipantOutcome | companion/src/renderer.rs:1302-1335 | stopping a participant stops exactly the slots that show it |
| PresenterProgress.FreshStarts | companion/src/renderer.rs:568-636 | a new run leaves no cursors, counters, barrier or epoch and zeroes the pages there are; a full stop also empties the slots and unmaps the pages |
| Manager.EvictFront | companion/src/renderer.rs:479-482 | the eviction loop leaves the newest elements in order |
| Manager.NextTap | companion/src/renderer.rs:911-930 | the tap loop computes the cursor and due tap of the specification |
| Manager.PublishInput | companion/src/renderer.rs:888-972 | the input half of one slot's presentation, equal to the specification whose record `PresenterRecords` states |
| Manager.PresentScreen | companion/src/renderer.rs:863-988 | one slot's whole presentation, score page included |
| Manager.Reconfigure | companion/src/renderer.rs:317-428 | a configuration request changes slots, pages, cursors and epoch as specified, and on failure leaves the slot table alone |
| Manager.StopEach | companion/src/renderer.rs:1457-1466 | every slot loses its participant and becomes inactive, in place and in order |
| Manager.RendererManager.PushSampleAt | companion/src/renderer.rs:463-483 | appends unless the sequence is old, evicts the front, keeps the invariant |
| Manager.RendererManager.PushRenderAnchor | companion/src/renderer.rs:485-514 | a new anchor forgets its resolution and ends the epoch |
| Manager.RendererManager.PushRenderTap | companion/src/renderer.rs:516-543 | duplicates and edgeless taps are ignored, the buffer is bounded |
| Manager.RendererManager.PushScoreState | companion/src/renderer.rs:545-564 | out-of-range and old scores are ignored, the buffer is bounded |
| Manager.RendererManager.BeginNewRun | companion/src/renderer.rs:568-636 | forgets every buffer, cursor, counter and barrier, zeroes existing pages, ends the epoch |
| Manager.RendererManager.ConfigureSlot | companion/src/renderer.rs:317-428 | the in-place form of a configuration, invariant kept |
| Manager.RendererManager.LaunchSlot | companion/src/renderer.rs:1002-1110 | the barrier is raised before the pages are reset, whichever reset fails |
| Manager.RendererManager.LaunchAutoplayMix | companion/src/renderer.rs:1049-1087 | AUTOPLAY is launched behind the barrier and only while an active featured slot exists |
| Manager.RendererManager.DisableAutoplay | companion/src/renderer.rs:1197-1234 | AUTOPLAY's page and cursors go and the epoch ends |
| Manager.RendererManager.StopOneSlot | companion/src/renderer.rs:1240-1296 | one slot's participant, cursors and barrier go and the epoch ends |
| Manager.RendererManager.StopOneParticipant | companion/src/renderer.rs:1302-1335 | every slot showing a participant is stopped and its buffers dropped |
| Manager.RendererManager.StopEverything | companion/src/renderer.rs:1457-1527 | all slots stopped, all buffers, pages, cursors and the epoch dropped |
| Manager.RendererManager.ResolveCohort | companion/src/renderer.rs:785-806 | the loop over participants resolves open anchors and reports readiness and the latest receipt |
| Manager.RendererManager.WriteAlignedInputs | companion/src/renderer.rs:743-1000 | one tick, loops over participants and slots included, equals the specification's tick |
| Rollback.UndoInvertsEffect | companion/src/installer.rs:2200-2330 | dropping the guard of an operation right after it restores the files, up to the consumed stage folder |
| Rollback.EffectIs | companion/src/installer.rs:2206-2315 | a replaced file holds the new bytes, a removed one is gone, an activated folder has taken the target's place and the former one the backup's, a quarantined one has moved, and nothing else changes |
| Rollback.OperationKeepsRecoverable | companion/src/installer.rs:2200-2330 | one more guarded operation, or an unguarded write to scratch or to a folder some guard puts back, keeps the start state recoverable by dropping the guards |
| Rollback.UndoingRestoresStart | companion/src/installer.rs:830-1148 | for any operation list, dropping the guard stack restores the start state on every protected path |
| Rollback.FailedActivationChangesNothing | companion/src/installer.rs:2262-2277 | an activation whose second rename fails puts the previous folder back |
| Rollback.VecDropsLikeStack | companion/src/installer.rs:1119-1148 | a vector of file guards, dropped front to back, restores as a stack would when its paths are distinct |
| Rollback.RepeatedPathInVecIsNotRestored | companion/src/installer.rs:846-858 | with one path guarded twice it does not |
| InstallerProofs.InstallDllRecovers | companion/src/installer.rs:939-998 | after the injector step the new facts still recover the original `version.dll`: copied, known absent, or untouched |
| InstallerProofs.InstallAppIdRecovers | companion/src/installer.rs:1000-1041 | the same for `steam_appid.txt`, in and out of a Steam library |
| InstallerProofs.LeavingIff | companion/src/installer.rs:1117-1148 | leaving a folder gives both originals back exactly when the injector is not kept for another mod |
| InstallerProofs.InstallSparesOthers | companion/src/installer.rs:770-1174 | an install touches no file of any game folder but the target and the one it moves away from |
| InstallerProofs.LooksSharedBeforeLeaving | companion/src/installer.rs:2638-2653 | whether the injector looks shared when the former folder is left: other mods, an old quarantined copy, or the one this very install quarantined |
| InstallerProofs.InstallSoundIff | companion/src/installer.rs:770-1174 | after an install, repair or move every folder outside the manifest is original and the managed one recoverable, if and only if the former folder is left clean, a condition on the manifest and files before the call |
| InstallerRuns.RestoreKeepsSound | companion/src/installer.rs:1232-1291 | a restore stopped after any step keeps every folder sound |
| InstallerRuns.RestoreIsComplete | companion/src/installer.rs:1264-1285 | a finished restore has put both originals back |
| InstallerRuns.UninstallRoundTripIff | companion/src/installer.rs:1585-1631 | a completed uninstall leaves every game folder original if and only if the injector is not kept for another mod, or, for a game folder no longer valid, the files already look original |
| InstallerRuns.FailedInstallKeepsSound | companion/src/installer.rs:960-980 | the stage folder and copies a failed install leaves behind never disturb what the manifest relies on |
| InstallerRuns.LateFailureSoundIff | companion/src/installer.rs:1149-1150 | exactly when a failure after the save, with everything rolled back under the new manifest, is harmless |
| InstallerRuns.StepSoundIff | companion/src/installer.rs:746-1631 | each call, whole or failed part way, keeps every folder sound if and only if its guard holds |
| InstallerRuns.RunSoundIff | companion/src/installer.rs:746-1631 | every state of a run of install, repair, move, restore and uninstall is sound exactly when each step's guard held |
| InstallerRuns.UninstalledMeansOriginal | companion/src/installer.rs:1598-1631 | from an untouched machine, after any such run, every folder the manifest does not name has its original `version.dll` and `steam_appid.txt` |
| InstallerRuns.MoveLeavesInjectorBehind | companion/src/installer.rs:2638-2653 | a run from an untouched machine, an install and a move, after which the former folder keeps the injector |
| InstallerRuns.LateFailureForgetsInjector | companion/src/installer.rs:1149-1150 | a run from an untouched machine, an install and a move that fails late, after which nothing records the injector |
| InstallerOutcome.InstallDelivers | companion/src/installer.rs:809-1174 | after a completed install the mod folder holds the tree of the detected adapter with the installer's note, the runtime and, unless run from it, the maintenance copy are in place, the retired runtime and mod are gone, `version.dll` is the bundled injector or a kept compatible foreign one, `steam_appid.txt` is as the Steam library asks, copies of replaced originals are kept, and nothing else but the former folder's two files has changed |
| InstallerOutcome.AcceptedIff | companion/src/installer.rs:770-808 | an install goes ahead if and only if the adapter asked for, if any, is the detected one |
| InstallerOutcome.CompatibleIsLovely | companion/src/installer.rs:2091-2106 | a compatible injector is a file of 2 bytes to 64 MiB that starts with MZ and contains the injector's name |
| InstallerOutcome.RestoreDelivers | companion/src/installer.rs:1232-1291 | a finished restore has removed the mod folder and put both game files back, and touches nothing else |
| InstallerOutcome.RestoreInSteps | companion/src/installer.rs:1250-1291 | a restore removes the mod folder first, then puts back the injector, then the app id |
| InstallerOutcome.UninstallDelivers | companion/src/installer.rs:1551-1677 | a finished uninstall has removed mod folder, runtimes, the marked OBS files and, unless run from it, the maintenance copy; a valid game folder has its files back, the injector kept if and only if another mod needs it |
| Transaction.LateUnwind | companion/src/installer.rs:1149-1172 | dropping all guards after the save gives exactly the late state, copies kept and only the mod folder open |
| Transaction.GameInstaller.ReplaceFile | companion/src/installer.rs:2206-2216 | the file and its guard, or nothing |
| Transaction.GameInstaller.RemoveFile | companion/src/installer.rs:2217-2226 | the file gone and its guard, or nothing |
| Transaction.GameInstaller.ActivateStage | companion/src/installer.rs:2261-2277 | both renames or neither |
| Transaction.GameInstaller.QuarantineFolder | companion/src/installer.rs:2306-2315 | the retired mod moved aside under a guard, or nothing |
| Transaction.GameInstaller.Unwind | companion/src/installer.rs:2241-2330 | dropping the live guards newest first equals undoing the stack |
| Transaction.GameInstaller.StageObs | companion/src/installer.rs:1355-1402 | the OBS files staged, start state still recoverable |
| Transaction.GameInstaller.StageMod | companion/src/installer.rs:809-921 | the tree of the chosen adapter staged and activated, start state still recoverable |
| Transaction.GameInstaller.StageInjector | companion/src/installer.rs:939-998 | the injector step in place with its mutable facts |
| Transaction.GameInstaller.StageAppId | companion/src/installer.rs:1000-1041 | the app id step in place with its mutable facts |
| Transaction.GameInstaller.LeaveFormer | companion/src/installer.rs:1117-1148 | the former folder left under guards |
| Transaction.GameInstaller.Install | companion/src/installer.rs:706-1174 | with any step failing: done completely, with everything `InstallDelivers` lists and the OBS files, read off the files before and after; or files as before up to the stage folder and copies taken aside with the manifest unchanged; or exactly the late state; and done when nothing fails |
| Transaction.GameInstaller.Restore | companion/src/installer.rs:1232-1291 | the in-place form of a restore stopped after any step; a completed one leaves no mod folder |
| Transaction.GameInstaller.Uninstall | companion/src/installer.rs:1551-1677 | the in-place form of an uninstall stopped after any step; a completed one leaves no mod folder and no runtime |
| RateLimiter.FrontPruningIsComplete | companion/src/network.rs:1212-1225 | on a sorted queue, dropping from the front removes exactly the failures older than the window |
| RateLimiter.StepKeepsInv | companion/src/network.rs:1212-1286 | each call keeps: at most 4096 buckets, no empty queue, and each queue the unexpired tail of what was recorded since its last clear, six in a row spanning more than the window |
| RateLimiter.AllowedIffWindowOpen | companion/src/network.rs:1251-1264 | an attempt is allowed if and only if fewer than five failures were recorded in the last 60,000,000,000 ns |
| RateLimiter.AtMostFivePerWindow | companion/src/network.rs:1272-1276 | any closed interval of 60,000,000,000 ns holds at most five recorded failures |
| RateLimiter.BucketNeverExceedsFive | companion/src/network.rs:1251-1286 | the same over every run, for every bucket |
| RateLimiter.FailureRecordedIff | companion/src/network.rs:1266-1286 | a failure is recorded if and only if fewer than five recorded ones lie in the 60,000,000,000 ns up to it |
| RateLimiter.FailureCountsForSixtySeconds | companion/src/network.rs:1212-1225 | a failure at `t` counts up to and including `t` + 60,000,000,000 ns and no longer |
| RateLimiter.FiveFailuresRefuseForSixtySeconds | companion/src/network.rs:1251-1286 | from an empty table: after five failures at `t` an attempt is refused up to and including 60,000,000,000 ns later and allowed from the next nanosecond on, and after four it is never refused |
| RateAttempts.EveryFailureRecordedIff | companion/src/network.rs:713-790 | over every run of attempts that are let through, fail, succeed or are given up in any overlap, each failure of an attempt let through is recorded if and only if none arrived with five failures of its bucket already in the window |
| RateAttempts.PlacesMeanRecords | companion/src/network.rs:713-790 | that is so whenever each attempt let through finds a place in the window beside those under way, as when no bucket ever has two under way |
| RateAttempts.BurstMisses | companion/src/network.rs:1251-1286 | of the attempts of one bucket that fail at one moment exactly the first are recorded, as many as the window has places; the others leave no record |
| RateAttempts.SixthFailureIsMissed | companion/src/network.rs:713-790 | a run from an empty table: six attempts are let through at once, all fail, and the sixth failure leaves no record |
| RateLimiter.OthersKeepTheirRecord | companion/src/network.rs:1266-1286 | recording a failure changes no other bucket's record except the evicted one's |
| RateLimiter.EvictionNeedsManyBuckets | companion/src/network.rs:1240-1286 | a bucket is evicted only if at least 4096 other distinct buckets have failed at or after its last failure |
| RateLimiter.EvictsOnlyWhenFull | companion/src/network.rs:1266-1286 | a failure costs another bucket its record only if 4096 others are live already, and the table never holds more |
| RateLimiter.PasswordLimiter.Prune | companion/src/network.rs:1212-1225 | the retain loop and its front-popping loop |
| RateLimiter.PasswordLimiter.EvictOldest | companion/src/network.rs:1240-1249 | the minimum search removes a bucket whose most recent failure is oldest |
| RateLimiter.PasswordLimiter.AttemptAllowed | companion/src/network.rs:1251-1264 | prunes and answers as the window says |
| RateLimiter.PasswordLimiter.RecordFailure | companion/src/network.rs:1266-1286 | prunes, pushes or evicts and inserts |
| RateLimiter.PasswordLimiter.Succeed | companion/src/network.rs:831-834 | a success clears the bucket |
| TransferConsent.RunKeepsInv | companion/src/network.rs:556-1192 | every interleaving of offers, decisions, streams, lost peers, room snapshots, hosting and the three clearings keeps each authorization a word-for-word copy of an offer with an accepting decision, or of a non-executable one whose handler found the room it had read trusted; a room trusted if and only if an accepted, trusting, authorized decision recorded it since the last clearing; one grant per source; and no grant in two of waiting, streaming and received |
| ConsentTheorems.ArchiveHasItsOwnConsent | companion/src/network.rs:962-1045 | each archive received has the header and size of an authorization of its own, which repeats an offer that was accepted, or a non-executable one whose handler read a room that was trusted when it looked, by an entry an authorized trusting decision wrote and no clearing had forgotten |
| ConsentTheorems.ExecutableNeedsItsOwnConfirmation | companion/src/app_state.rs:3018-3050 | executable content arrives only on an accepting, confirmed decision on that very offer, shared with no other archive |
| ConsentTheorems.MismatchSpendsAuthorization | companion/src/network.rs:1177-1192 | a stream that differs from the accepted header gets nothing, and later streams with that request get nothing either |
| ConsentTheorems.TrustedOfferIff | companion/src/app_state.rs:1422-1449 | in a trusted room an offer whose handler is not interrupted is granted if and only if it is not executable and not already authorized, and otherwise stays pending |
| ConsentOverlap.RepeatIff | companion/src/app_state.rs:3047-3060 | a step gives an offer a second authorization if and only if it grants while the offer was already authorized and its session and request are free again; once that has happened it stays so |
| ConsentOverlap.OneOfferOneAuthorizationIff | companion/src/app_state.rs:1422-1449 | in every run from an empty desk, no offer has two authorizations if and only if no step did that |
| ConsentOverlap.OneOfferOneAuthorization | companion/src/app_state.rs:1422-1449 | when calls do not overlap, one offer yields at most one authorization by whatever path |
| ConsentExamples.OverlappingAcceptsAuthorizeTwice | companion/src/app_state.rs:3018-3060 | a run from an empty desk: two overlapping accepts of one offer, the second authorization after the first was used |
| ConsentExamples.HandlerRepeatsDecision | companion/src/app_state.rs:1422-1449 | a run from an empty desk with one decision at a time: an accept between the steps of the automatic handler, which then authorizes the used offer again |
| ConsentOverlap.LossIff | companion/src/app_state.rs:1418-1449 | a step leaves an offer unanswered and no longer pending if and only if it is a newer offer, a handler that ends without an authorization, the clearing step of a decision or a dropped offer that meets it so; a lost offer is never found again |
| ConsentOverlap.OfferLostIff | companion/src/app_state.rs:1418-3050 | in every run from an empty desk an offer ends lost if and only if one of those steps met it |
| ConsentOverlap.ClearingDropsIff | companion/src/app_state.rs:3047-3050 | a decision clearing the desk drops an unanswered offer if and only if the offer pending by then is not the one it decided on |
| ConsentExamples.LateClearDropsNewOffer | companion/src/app_state.rs:3047-3050 | a run from an empty desk: an offer that arrives while a rejection is carried out is lost |
| ConsentOverlap.MisplacedIff | companion/src/app_state.rs:3060-3063 | a step records trust for a room other than the one its offer arrived in if and only if that is not the room the decision has read |
| ConsentOverlap.TrustStaysInItsRoomIff | companion/src/app_state.rs:3060-3063 | in every run from an empty desk, room snapshots and hosting included, each trust entry names the room in which its offer arrived if and only if no step did that; each trusted room is then one whose offer a user accepted and trusted |
| ConsentExamples.TrustLandsInCurrentRoom | companion/src/app_state.rs:3060-3063 | a run from an empty desk: the room changes while a decision is carried out, and trust lands in a room where nothing was offered |
| ConsentExamples.SnapshotMovesTrust | companion/src/app_state.rs:1467-1471 | a run from an empty desk without any overlap: a snapshot replaces the room while the offer waits, and accepting it trusts the new room |
| ConsentOverlap.StrayIff | companion/src/app_state.rs:1427-1433 | a step authorizes an offer for the sake of a room it did not arrive in if and only if its handler had read that room and the request is free |
| ConsentOverlap.GrantsStayInTheirRoomIff | companion/src/app_state.rs:1422-1449 | in every run from an empty desk each automatic authorization looked up its own offer's room if and only if no step did that; if trust was never misplaced either, a user had asked to trust that room |
| ConsentExamples.OfferGrantedForAnotherRoom | companion/src/app_state.rs:1425-1433 | a run from an empty desk: the room changes between storing an offer and reading the room, and the offer is authorized for the other room's sake |
| Transfers.OfferCallResult | companion/src/app_state.rs:1422-1449 | the offer handler run without interruption |
| Transfers.DecisionCallResult | companion/src/app_state.rs:3018-3075 | a decision run without interruption: offer taken, then granted, then trusted |
| Transfers.TransferDesk.AuthorizeIncoming | companion/src/network.rs:556-583 | one grant per session and request at a time |
| Transfers.TransferDesk.ApplyOffer | companion/src/app_state.rs:1422-1449 | the offer handler in place; the prompt is published exactly for a valid offer that the room's trust does not cover, so a refused automatic grant leaves the offer pending without one |
| Transfers.TransferDesk.Decide | companion/src/app_state.rs:3018-3075 | the decision in place, accepted exactly when its checks pass and the grant succeeds |
| Transfers.TransferDesk.Consume | companion/src/network.rs:1177-1192 | spends the authorization, returns it only for an identical header |
| Transfers.TransferDesk.DisconnectPeer | companion/src/network.rs:684-699 | drops every authorization of the session |
| Transfers.TransferDesk.Clear | companion/src/app_state.rs:3425-3436 | forgets offer, trust and authorizations |
| Transfers.TransferDesk.ReplaceRoom | companion/src/app_state.rs:1467-1471 | a snapshot replaces the room and keeps offer, trust and authorizations |
| Transfers.TransferDesk.Host | companion/src/app_state.rs:2232-2234 | hosting sets the room and the side and keeps the rest |
| ConsentDelivery.StoredIff | companion/src/app_state.rs:1422-1426 | an offer is stored, becomes pending and gets a handler if and only if its header is within the limits, written out, and no handler is at work |
| ConsentDelivery.LimitsIff | companion/src/network.rs:126-142 | a header is valid if and only if its request id has 1 to 80 characters, its name 1 to 256, its size is 1 byte to 1 GiB and both digests are 64 lower-case hexadecimal digits |
| ConsentDelivery.TakenIff | companion/src/app_state.rs:3018-3050 | a decision is taken if and only if the desk is not hosting, the pending offer has that request id, executable content is confirmed if accepted, and trust comes with accepting content that is not executable |
| ConsentDelivery.AuthorizedIff | companion/src/network.rs:556-583 | a step authorizes if and only if a task is at its authorizing step and that request of that session is free |
| ConsentDelivery.OpensIff | companion/src/network.rs:1177-1192 | a stream opens if and only if an authorization waits for its session and request and repeats its header |
| ConsentDelivery.ChunkIff | companion/src/network.rs:985-1006 | a chunk is added if and only if it fits the header's size; one that does not ends the stream |
| ConsentDelivery.ReceivedIff | companion/src/app_state.rs:1860-1887 | a step receives an archive, exactly one, if and only if it ends an open stream that has got every byte of its authorized header on a desk that is not hosting |
| ConsentDelivery.LostIff | companion/src/network.rs:684-699 | a lost peer takes exactly its own authorizations and streams along |
| ConsentDelivery.AuthorizedStreamArrivesIff | companion/src/network.rs:962-1045 | a stream opened under an authorization and then neither ended, killed nor cut off from its peer is received when it ends if and only if it was fed exactly the header's size and the desk is not hosting by then |
| ConsentExamples.AcceptedArchiveArrives | companion/src/app_state.rs:3018-3075 | a run from an empty desk for every valid header: offered, accepted, with confirmation if executable, sent in two chunks of any length, and received |
| EventBacklog.FirstWinsMeaning | companion/src/storage.rs:195-206 | insert-or-ignore keeps an existing row, and otherwise the row of the first event with that key |
| EventBacklog.RowsIff | companion/src/storage.rs:76-206 | after a batch a row for room, run and sequence is there if and only if it was before or the batch holds an event with those three fields; a new one has the receipt time and text of the first such event |
| EventBacklog.DifferentEventsBothStored | companion/src/storage.rs:76-83 | events that differ in room, run or sequence get a row each |
| EventBacklog.RunRowsIff | companion/src/storage.rs:175-235 | in every run a row is there if and only if it was at the start or some committed event has its three fields |
| EventBacklog.RetryInsertsNothing | companion/src/storage.rs:195-206 | committing events that are already in changes nothing |
| EventBacklog.TrimIsLongestFit | companion/src/storage.rs:220-230 | the dropping loop keeps the longest prefix within both ceilings |
| EventBacklog.RunKeepsInv | companion/src/storage.rs:150-235 | in every interleaving of any number of flushers: events conserved over committed, in flight, pending and dropped, bytes the sum of estimates, both ceilings kept |
| EventBacklog.QueuedIff | companion/src/storage.rs:150-173 | an event is accepted if and only if fewer than 32,768 wait and its strings and 88 bytes keep the total within 16 MiB |
| EventBacklog.CeilingsHold | companion/src/storage.rs:150-235 | in every run no more than 32,768 events and 16 MiB wait, or are in flight with one flusher |
| EventBacklog.FlushStoresEverything | companion/src/storage.rs:178-212 | with a flusher at rest, taking and committing leaves nothing waiting and a row for every event that was |
| EventBacklog.InExactlyOnePlace | companion/src/storage.rs:178-235 | every accepted event is in exactly one of the four places |
| EventBacklog.FailDropsOnlyTheNewest | companion/src/storage.rs:214-233 | a failed flush drops a suffix of the merged list, and no more than the ceilings force |
| EventBacklog.FailKeepsAllThatFits | companion/src/storage.rs:214-233 | and unless one event more would break 32,768 events or 16 MiB it drops none |
| EventBacklog.FlushingRefinesImmediateInserts | companion/src/storage.rs:175-235 | with one flusher, in-flight then pending applied first-wins gives the database that inserting every kept event on arrival would have given |
| EventBacklog.CommitOnTrackIff | companion/src/storage.rs:188-212 | a commit keeps the database on the track of inserting each kept event on arrival if and only if it was on it and no event of the batch gives a new key a row other than that of the earliest kept arrival with the key |
| EventBacklog.OvertakenIsWaiting | companion/src/storage.rs:178-233 | the arrival that is overtaken is earlier, accepted, kept and not yet committed |
| EventBacklog.ArrivalOrderIff | companion/src/storage.rs:150-235 | for any number of flushers, once drained, the database is the one that inserting every kept event on arrival would have given if and only if no commit of the run overtook an earlier arrival |
| EventBacklog.OverlapBreaksFirstWins | companion/src/storage.rs:178-212 | a run from an empty store: two flushers that each took one of two events with one key, and the later arrival's row stays |
| EventBacklog.FailedFlushesReorder | companion/src/storage.rs:213-233 | a run from an empty store: two failed flushes put their batches back in the opposite order, so that one batch overtakes within itself |
| EventBacklog.DistinctKeysMakeOverlapHarmless | companion/src/storage.rs:178-212 | however many flushers overlapped, once drained and with no key accepted twice the database is again that of immediate inserts |
| EventBacklog.EventStore.QueueEvent | companion/src/storage.rs:150-173 | accepted exactly within both ceilings |
| EventBacklog.EventStore.TakePending | companion/src/storage.rs:178-187 | the whole backlog and its byte count change hands |
| EventBacklog.EventStore.CommitBatch | companion/src/storage.rs:188-212 | the insert loop computes first-wins, a row for each room, run and sequence in the batch, and counts the new rows |
| EventBacklog.EventStore.MergeBack | companion/src/storage.rs:213-233 | the failed batch goes in front, the popping loop trims to the longest fit, the byte count stays exact |
| ExportProtocol.RunKeepsInv | companion/src/exports.rs:61-158 | in every interleaving: a raised flag is covered by a signal or the worker, a pending value by the flag or the worker, and what is not pending was taken in its latest version |
| ExportProtocol.NoLostWakeup | companion/src/exports.rs:113-158 | something pending means a publisher is still under way, a wake is in the channel, or the worker has yet to take the batch |
| ExportProtocol.RestMeansTaken | companion/src/exports.rs:61-176 | at rest nothing is pending and every kind was taken in its latest version |
| ExportProtocol.AnsweredFlushSawEverything | companion/src/exports.rs:93-102 | when a flush is answered, everything stored before it was sent has been taken, in that version or a later one |
| ExportProtocol.WorkerDrainsEverything | companion/src/exports.rs:63-103 | once publishers have returned, the worker alone takes everything and answers every flush |
| ExportProtocol.FinishedPublishMayWaitOnAnother | companion/src/exports.rs:145-149 | a run to a returned publish with no signal in the channel and an idle worker |
| ExportProtocol.FinishingSwapRestsIff | companion/src/exports.rs:113-149 | in every run a publish finishes on its swap and leaves a pending value at rest if and only if it finds the flag up, the channel empty and the worker idle; another publisher then still owes the wake |
| ExportProtocol.WaitsForSender | companion/src/exports.rs:113-149 | in every run, a pending value with an empty channel and an idle worker waits for a publisher ahead of its swap or its send; with none ahead of its swap the flag is up, one owes the wake, and only its send or a flush ends the wait |
| ExportProtocol.SenderMayOweNothing | companion/src/exports.rs:93-149 | a run to a publisher that still owes its wake after a flush has taken the value: owing does not imply that something waits |
| ExportProtocol.ExportQueue.Publish | companion/src/exports.rs:113-149 | store, swap, send; afterwards a wake is in the channel |
| ExportProtocol.ExportQueue.Serve | companion/src/exports.rs:63-103 | the worker loop with its coalescing window takes everything published and answers every flush in order |
| ExportProtocol.ExportQueue.HoldWindow | companion/src/exports.rs:71-91 | the window loop absorbs wakes and ends on a flush or an empty channel |
| ExportCache.SkippingRefinesPlainWrites | companion/src/exports.rs:176-211 | with the cache, the files are those of plainly writing up to the first failure, nothing later is written, and the batch succeeds exactly when none failed |
| ExportCache.RepeatIsFree | companion/src/exports.rs:177-180 | writing cached content again touches nothing and cannot fail |
| ExportCache.LastWriteDecides | companion/src/exports.rs:186-206 | of several writes to one path the last one is what the file holds |
| ExportCache.BatchIsShown | companion/src/exports.rs:186-300 | a batch carried out in full leaves each part of the gameplay, featured and metadata state in the file of its name |
| ExportCache.ExportWriter.WritePending | companion/src/exports.rs:169-211 | the batch loop over files and cache in place |
| AudioIsolation.IsolateSoundIff | companion/src/audio_sessions.rs:42-70 | an isolation keeps every session accounted for if and only if it catches no session another held key has muted |
| AudioIsolation.RunKeepsInv | companion/src/audio_sessions.rs:42-218 | any run of polls, restores and retries with failing reads and writes, on disjoint processes, keeps initially muted sessions muted, other muted ones held, and remembered states true |
| AudioIsolation.EverySessionAccountedFor | companion/src/audio_sessions.rs:42-218 | after any such run an unheld session has its initial state, a held one is muted or initial, and with nothing held everything is as it was |
| AudioIsolation.IsolateSparesOthers | companion/src/audio_sessions.rs:46-50 | sessions of other processes never change |
| AudioIsolation.RestoreUndoesIsolate | companion/src/audio_sessions.rs:42-87 | isolate mutes every listed session of the process, duplicates included, and a successful restore undoes it exactly |
| AudioIsolation.RetriesArePaced | companion/src/audio_sessions.rs:131-218 | over any run of polls and other requests: an attempt that is followed by another changed no session, and the next comes no sooner than 50 ms later, or a second once five seconds have passed |
| AudioIsolation.SharedProcessStaysMuted | companion/src/audio_sessions.rs:42-87 | two keys on one process leave its session muted after both are restored |
| AudioIsolation.RollbackExactIff | companion/src/audio_sessions.rs:61-66 | a rollback with failing writes is exact if and only if one write got through for each session it had to unmute |
| AudioIsolation.PollSparesOtherRequests | companion/src/audio_sessions.rs:140-160 | polling other keys leaves this request and its hold alone |
| AudioIsolation.PollOutcome | companion/src/audio_sessions.rs:131-218 | a due request is met if and only if its key is held already or the enumeration names sessions of its process that can all be read and written: then exactly those are muted and each is remembered with its state; otherwise no session changes and it is retried 50 ms later, or a second later after five seconds |
| AudioIsolation.RoundMeetsIff | companion/src/audio_sessions.rs:140-160 | in one round of polling that holds for each due request, whatever the others find and in whatever order they come |
| AudioIsolation.RequestsMade | companion/src/audio_sessions.rs:463-500 | asking makes a request that is due at once; asking to restore and disabling withdraw it |
| AudioIsolation.RestoredIff | companion/src/audio_sessions.rs:72-113 | asking to restore releases a held key if and only if in one of the attempts all of its sessions can be written |
| AudioIsolation.IsolationEngine.IsolateExact | companion/src/audio_sessions.rs:42-70 | the collecting, muting and rollback loops: all sessions or none |
| AudioIsolation.IsolationEngine.RestoreKey | companion/src/audio_sessions.rs:72-87 | the restore loop tries every session and releases the key only if all worked |
| AudioIsolation.IsolationEngine.RestoreWithRetries | companion/src/audio_sessions.rs:94-113 | twenty attempts, stopping at the first success |
| AudioIsolation.IsolationEngine.PollPending | companion/src/audio_sessions.rs:131-218 | every due request is tried once, in any order |
| ChartStream.LengthRoundTrip | companion/src/chart_hash.rs:178-180 | a fixed-width little-endian length is read back |
| ChartStream.EntryIsDecodable | companion/src/chart_hash.rs:172-195 | an entry can be cut off the front of the stream in one way only |
| ChartStream.EntryLayout | companion/src/chart_hash.rs:172-195 | an entry is the name's length in eight little-endian bytes, the name, the listed size in the same form and the content |
| ChartStream.StreamIsInjective | companion/src/chart_hash.rs:172-195 | entry lists with one stream are one list |
| ChartStream.SortIsSorted | companion/src/chart_hash.rs:129-129 | sorting by name bytes gives a sorted, stable permutation |
| ChartStream.BeforeIff | companion/src/chart_hash.rs:129-129 | a name comes before another if and only if it is a proper prefix or smaller at the first byte in which they differ |
| ChartStream.SortedIsUnique | companion/src/chart_hash.rs:129-129 | a sorted list is determined by what it lists under each name |
| ChartStream.CanonicalIff | companion/src/chart_hash.rs:78-195 | two packages give the same bytes if and only if they list the same entries in the same order under every name |
| ChartStream.SameBytesIffSameFiles | companion/src/chart_hash.rs:78-195 | with distinct names: the same bytes if and only if the same set of files |
| ChartStream.RepeatedNameShowsOrder | companion/src/chart_hash.rs:164-164 | a repeated name with different contents lets the archive order show |
| ChartHasher.PackagesHashAlikeIff | companion/src/chart_hash.rs:78-195 | any two accepted packages, directory or archive, hash the same bytes if and only if their non-junk files have the same contents in the same order under every name |
| ChartHasher.DistinctPackagesHashAlikeIff | companion/src/chart_hash.rs:78-195 | when no name repeats, if and only if their non-junk files are the same |
| ChartHasher.ZipIsStricterIff | companion/src/chart_hash.rs:138-163 | the same members pass as an archive exactly when they pass as a directory, number at most 20,000 in all, and no junk file has a long path |
| ChartHasher.JunkDoesNotShow | companion/src/chart_hash.rs:197-200 | junk and folders may be added anywhere without a trace |
| ChartHasher.JunkNameIff | companion/src/chart_hash.rs:11-17 | a file name is junk if and only if it is one of five names, in any case |
| ChartHasher.FileNameIs | companion/src/chart_hash.rs:197-200 | the file name is what stands behind the last slash |
| ChartHasher.WantedOne | companion/src/chart_hash.rs:103-165 | a member is listed, under its path with slashes for backslashes, if and only if it is a file and not junk |
| ChartHasher.WantedSplits | companion/src/chart_hash.rs:103-165 | listing goes member by member, in walk order |
| ChartHasher.AcceptedIff | companion/src/chart_hash.rs:103-170 | the limits are 20,000 files, 1 GiB and 1,024 bytes of path, with every file as long as listed, and for an archive 20,000 members and short paths of junk too |
| ChartHasher.HeaderIs | companion/src/chart_hash.rs:78-81 | the hashed stream starts with the name of the format and a zero byte |
| ChartHasher.PackageHasher.HashEntry | companion/src/chart_hash.rs:172-195 | however the content arrives in chunks, the same bytes are fed, and a size that does not match is reported |
| ChartHasher.PackageHasher.HashDirectory | companion/src/chart_hash.rs:103-136 | accepts exactly within its limits and feeds the canonical stream |
| ChartHasher.PackageHasher.HashZip | companion/src/chart_hash.rs:138-170 | accepts exactly within its limits and feeds the canonical stream |
| JournalPool.BufferKeepsOrder | companion/src/journal.rs:135-150 | a buffered write splits old buffer plus text, in order, into what goes to the file and what stays |
| JournalPool.BufferedIff | companion/src/journal.rs:135-150 | text under 64 KiB stays in the buffer, written out first if the two do not fit, and longer text goes straight to the file |
| JournalPool.ApplyKeepsInv | companion/src/journal.rs:121-189 | every signal and tick keeps: file then buffer equals the plain journal, an unset dirty flag means empty buffers, at most 32 writers |
| JournalPool.PoolLooksLikePlainAppend | companion/src/journal.rs:121-224 | in every run each journal reads, file then buffer, as plain appending since its last deletion |
| JournalPool.TickWritesEverything | companion/src/journal.rs:180-187 | after a due tick, a flush or a prune the files alone hold everything |
| JournalPool.PruneForgetsOnlyOldJournals | companion/src/journal.rs:226-247 | a prune forgets a journal only if its last append is older than the limit |
| JournalPool.PruneOutcome | companion/src/journal.rs:163-247 | a prune leaves exactly the journals last written at or after the limit or that cannot be removed, each with everything buffered for it, and no writer open |
| JournalPool.AppendOutcome | companion/src/journal.rs:121-155 | appending closes a writer only when 32 others are open, opens the journal's own unless its file cannot be opened, and leaves the others |
| JournalPool.TickOutcome | companion/src/journal.rs:180-224 | a due tick writes everything out if anything was appended, closes exactly the writers unused for ten seconds and sets the next one 50 ms ahead |
| JournalPool.SanitizedIsSafe | companion/src/journal.rs:249-260 | a sanitized run id has 1 to 96 safe characters and sanitizing is idempotent |
| JournalPool.SanitizedIs | companion/src/journal.rs:249-260 | a run id is the first 96 of its safe characters, or `unassigned` when it has none |
| JournalPool.SanitizingOne | companion/src/journal.rs:249-254 | the safe characters are ASCII letters, digits, hyphen and underscore |
| JournalPool.SanitizingSplits | companion/src/journal.rs:249-254 | each character is kept or dropped by itself, in order |
| JournalPool.JournalWorker.FlushWriters | companion/src/journal.rs:191-197 | the loop writes out every buffer |
| JournalPool.JournalWorker.CloseOldest | companion/src/journal.rs:199-209 | the minimum search closes a writer unused for longest, buffer written out |
| JournalPool.JournalWorker.HandleAppend | companion/src/journal.rs:130-155 | room is made, the journal opened or created, line and newline buffered |
| JournalPool.JournalWorker.HandlePrune | companion/src/journal.rs:163-169 | everything is written out and closed before a file goes, and the count is that of the files removed |
| JournalPool.JournalWorker.PeriodicTick | companion/src/journal.rs:180-187 | flushes when dirty, closes idle writers, sets the next deadline |

## Left out

- Room lifecycle, scoring, setlists, archive handling and self-update: `room.rs`, `transfer.rs` and `update.rs` are not part of this model.
- QUIC, TLS, SPAKE2, HMAC and SHA-256 themselves: the limiter and consent start where their results are used, and the chart model stops at the bytes fed to the digest.
- Renderer: floats are finite reals, times are naturals without 64-bit saturation, slot ids are compared in one case; each public call is one step, so torn reads of the mapped pages and the order of its inner locks do not show.
- Renderer: a record's session id, tap mask and version byte, copied through unchanged.
- Renderer: the player-state buffer behind the featured exports, frame rings, health checks, processes, budget warnings and error texts.
- Renderer: AUTOPLAY may start being written in the middle of an epoch when the featured flag moves; the capture theorem covers it because its delay and participant are those of a slot already covered. Tap sequence 0 can never be emitted, since cursors start at 0.
- Installer: one build with fixed payload bytes, one spelling per game folder, surviving copies, no edits from outside, undo writes that succeed. A folder counts as one entry holding its whole tree.
- Installer: release builds only, with every payload present; upgrades across different injector payloads, renderer profile files, the firewall and registry calls, removal of user data, and temporary files of single writes.
- Installer: the guards of one vector are dropped here in stack order like all others; Rollback.VecDropsLikeStack shows that this makes no difference for the distinct paths involved. Deleting the quarantined mod after the commit is taken to succeed.
- TransferConsent: a decision's look at the host flag and its reading of the pending offer are one step. Decisions may overlap here, as `decide_chart_transfer` allows; the command front (`ipc.rs`) runs one command at a time, and `ConsentExamples.HandlerRepeatsDecision` keeps to that.
- TransferConsent: sessions, network events and the command front are reduced to the events named; a handler's error ends it without further steps.
- EventBacklog: `prune_raw_events` and `delete_history`, which flush and then delete rows between flushes; the theorems about the database speak of runs without them.
- EventBacklog: sequence numbers and times fit SQLite's signed 64-bit integers; SQLite is a first-wins map whose transactions commit or fail as a whole.
- ExportProtocol: the 100 ms window is a timeout that may come at any moment; a flush caller's own five-second limit is not modelled. In the class the window ends when the channel is empty.
- ExportCache: a room's own list of writes is a parameter, and `atomic` either replaces the file or leaves it.
- AudioIsolation: enumeration, COM and the status texts; a poll's rollback writes succeed, as does the enumeration's claim that a session's process never changes.
- ChartHasher: the extended file-name rules of the operating system (trailing dots, drive prefixes); a file's size is listed once per walk; symbolic links are not files.
- JournalPool: write errors on an open journal, and two run ids that differ only in case on a file system that ignores case; one clock reading per signal.
- The GUI, HTTP routes, command dispatch, JSON parsing, the OBS plugin and the Lua side.
