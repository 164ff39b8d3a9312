# Verified protocols and codecs of neoruntime

This project models the small protocols and codecs of the edge AI runtime in Dafny and proves what they are there
for. `dafny verify dfyconfig.toml` checks all of it.

What is modelled, and where:

- **A/B operating system upgrade** (`OsUpgrade`, `OsUpgradeIntact`, `OsUpgradeRuns`, `OsUpgradeSelection`,
  `OsUpgradeStaged`, `OsUpgradeRunner`, `OsUpgradeScenarios`, `OsUpgradeJobs`, `OsUpgradeNextJob`, `HealthWait`). One
  upgrade job as a machine over its effects: a saved job, a boot selector call, an image write. Install and verify
  exclude each other by the file lock, the requests of the API (upload, validate, install, cancel) by a mutex; these
  two and the reboot process, which takes neither, may come in between any two effects of each other. A process may die
  and power may be lost anywhere. The runner's operations are written effect by effect and proved to do what the
  machine does. `OsUpgradeJobs` puts any number of jobs one after the other, each with its own record.
- **Host link to the MCU** (`HostLinkWire`, `HostLinkHandler`, `HostLinkSession`, `Crc16`). The frame printer and the
  byte-at-a-time parser, the handler with its slot tables and buffers, and the link as a machine shared by its threads.
- **Baseline JPEG entropy coder** (`JpegHuffman`, `JpegSymbolLists`, `JpegTables`, `JpegBlock`, `JpegBitWriter`,
  `JpegScan`, `JpegEncoder`). Canonical Huffman tables, the bit writer with byte stuffing and the block coder, against
  a decoder written from ITU-T T.81 (Annex C, sections F.1.2 and F.2.2).
- **Annex B to RTP** (`AnnexB`, `Rtp`, `RtpStream`, `RtpLoss`). The start code splitter and the packetiser, against a
  depacketiser written from section 5.1 of RFC 3550, section 5.8 of RFC 6184 and section 4.4.3 of RFC 7798.
- **CTFB factory record** (`Ctfb`, `CtfbSafety`, `CtfbErase`, `CtfbUnread`, `CtfbCount`, `CtfbStore`, `CtfbDevice`,
  `BlankChecksum`). The two-slot store on 256 bytes, over every history of erasures and changes, complete or cut off by
  power loss, and with a slot that cannot be read.
- **Publication of a model file** (`ModelPublish`, `ModelStore`). Any number of interleaved calls over names and
  inodes.
- **CPIO walks, marker search, suppression, line** (`Cpio`, `CpioWalk`, `CpioArtifacts`, `MarkerSearch`, `Nms`,
  `Line`).

`Arithmetic`, `Bits`, `HexDigits` and `Options` are shared. C integers of fixed width are written out where the width
matters; everything else is unbounded. Outcomes of I/O, clocks and allocation are parameters: a boolean or a function
that says which call succeeds.

## Findings

These are places where the code does less than it is meant to; each has a member that shows it and one that says exactly
when the code is right.

- The chrominance AC table lists 0xe1 and 0xf1 twice, so 164 values stand for 162 codes and the symbols 0xf9 and 0xfa
  have no code (`JpegTables.ChrLacksTwo`). An image decodes to what was encoded if and only if no chrominance
  coefficient of nine or ten bits stands behind fifteen zeros, counted modulo sixteen (`JpegEncoder.EncodeScan`,
  `JpegEncoder.UnsafeImage`).
- A failed asynchronous send that returns after its slot was answered or timed out clears a slot that may belong to
  another request: one callback comes twice and one never (`HostLinkSession.LateFailureWitness`). Callbacks are
  exactly-once if and only if that does not happen (`HostLinkSession.ExactlyOnceIffNeverLate`).
- The install request saves its own copy of the job, which may be stale. An install process started by hand can stage
  the upgrade between the request's two saves; when the request then cannot start its service it marks the job as ready
  again, and the next installation overwrites the selected copy (`OsUpgradeScenarios.ReopenedJob`). The copies a device
  may boot stay whole if and only if the install process never starts the update tool while the new copy is selected or
  running, which it could read before it does (`OsUpgradeIntact.IntactIffNeverOverwritten`). An open job is never bound
  to its target if and only if no request saves over a bound one (`OsUpgradeRuns.UnboundIffNeverReopened`). Services
  and requests alone never do, also with the install process started by hand to resume a job
  (`OsUpgradeRuns.ServicesAreSafe`).
- A cancellation between the two steps of the reboot service is lost: the reboot is recorded over the cancelled job
  (`OsUpgradeScenarios.LostCancel`). A terminal state is final if and only if no process or request under way has
  another state left to save (`OsUpgradeRuns.TerminalIsFinalIff`).
- If power is lost after the written image is recorded and before it is selected, the next verification asks for a
  reboot without selecting the target, and the upgrade is rolled back (`OsUpgradeScenarios.UnselectedIsReached`,
  `OsUpgradeScenarios.UnselectedTarget`). A reboot that is asked for or recorded comes up on the target if and only if
  no step asks for or records one while the old copy is selected, or selects the old copy while one is asked for or
  recorded (`OsUpgradeSelection.RebootsToTargetIffNeverBlind`). Without cancellations and stale saves the first of
  these, by the verification, is the only one left (`OsUpgradeSelection.RebootsToTargetIff`). An install process that
  resumes first avoids it (`OsUpgradeScenarios.ResumedInstallSelects`).
- A restart of the API process verifies the active job. While an upgrade waits for its reboot this finds the old copy
  running and rolls back: the reboot comes up on the old copy, and the job fails although its target is whole and was
  never tried (`OsUpgradeScenarios.RestartUndoesUpgrade`). A staged upgrade comes up on its target in every case if and
  only if neither a verification nor a cancellation may be started before the boot (`OsUpgradeStaged.SurvivesIff`); in
  a given run, if and only if none of them got as far as to select the old copy (`OsUpgradeStaged.StagedComesUpIff`).
- A rollback whose selector call is refused leaves a failed job with its target selected. The next job is accepted, and
  its installation overwrites the selected copy (`OsUpgradeNextJob.NextJobOverwrites`). Over any number of jobs the
  copies a device may boot stay whole if and only if the update tool is never started over one of them
  (`OsUpgradeJobs.JobsIntactIff`).
- An erasure of the factory record that stops within the header of a record leaves it without its mark and otherwise
  whole. A change that stops behind the mark brings it back, and a reader sees neither the old nor the new record
  (`CtfbErase.ErasedNumberReturns`). In any readable store, cut-off changes show the old or the new record, accidents
  of the checksum aside, if and only if the slot to be written holds no such record that would be in use and tells
  something else (`CtfbErase.AtomicIff`).
- A change that cannot read the slot in use goes by the other one. It puts the older record, with its field changed, or
  a record with this field alone in the place of the newer one, or it succeeds without an effect
  (`CtfbUnread.UnreadOutcome`). Cut off, it can show the older record, neither the one in use nor its own
  (`CtfbUnread.UnreadNumberReturns`). Which slots are readable and what is in them decides when cut-off changes show
  the old record or their own (`CtfbUnread.SetAtomicIff`).
- After 2^32 - 1 changes the sequence number wraps to zero, and from then on no changes, however many, complete or cut
  off, have an effect on what is read (`CtfbCount.LastNumberIsFinal`). A change takes effect if and only if there is a
  higher number (`CtfbSafety.WriteTakesEffect`).
- A hardware address whose first octet is ff, such as ff:00:00:00:00:01, reads back as empty
  (`CtfbStore.AddressThatReadsEmpty`), and a text that ends in 0xFF bytes comes back shortened.
  `CtfbStore.ComesBackIff` says exactly which values read back as they were set.
- Fragmenting an H.264 unit drops its forbidden bit (`Rtp.ForbiddenBitIsLost`), and units of H.264 type 0 or above 23,
  or H.265 type 48 and above, do not survive unfragmented. `Rtp.NalRoundTripIff` says exactly which units come back.
- An H.265 access unit whose last unit is a single byte goes out without a marker (`RtpStream.MarkerIsLost`). The
  marker stands on the last packet if and only if the last unit is long enough to be sent (`RtpStream.AuHeader`).
- Where the socket refuses the last packet of an access unit, what arrives of it is put together with what arrives of
  the next one. A receiver sees all access units apart if and only if no last packet was refused
  (`RtpLoss.RefusedSession`).
- The validator of an update package goes by the whole name of an entry, in any case of letters, and the extractor by
  the last element of the path, letter for letter. They agree on what is a recovery image if and only if the name is
  none of these (`CpioArtifacts.RecoveryAgreesIff`): a recovery image in a folder that is not called like one, which is
  a root image to the validator (`CpioArtifacts.FolderMixesUp`); another image whose path starts like a recovery image,
  or one with capital letters, a dotted capital I among them, which the extractor passes over
  (`CpioArtifacts.FolderIsSkipped`, `CpioArtifacts.SkippedNames`); a recovery image with a slash behind its name, which
  the validator does not decompress.
- The search for the marker of a recovery image goes back to the marker's first byte when a match breaks and looks at
  no other beginning. A recovery image in which the marker directly follows "AIPC_LOC" is taken for one without it
  (`MarkerSearch.DeployedMarkersAreHidden`). A marker is found wherever it occurs if and only if no begun match of it
  ends in a shorter one that goes on differently (`MarkerSearch.FindsAllIff`); the validator's marker is found if and
  only if somewhere an even number of copies of "AIPC_LOC" stands in front of it
  (`MarkerSearch.RecoveryMarkerIsFoundIff`), the other marker if and only if an even number of copies of "AIPC_LOC" and
  "AIPC_LOCAL_RECOVERY_" does, in any order (`MarkerSearch.AnyModeMarkerIsFoundIff`).
- Publishing a model file leaves a temporary name behind if and only if the path was the stored file already, the call
  could not look at the two, and it linked the file once more (`ModelStore.FileSystem.Materialize`).

## Model

| member | source | states |
|---|---|---|
| `OsUpgrade.StepKeepsInv` | platform/osupgrade/runner.go:76-205 | every effect of every process and request, every death and a power cycle keeps: the target is completely written whenever it is selected, running or promised by a job that someone holds, and nobody may rewrite it then; only a request that saves an open job over a staged one does not |
| `OsUpgrade.RequestStepKeepsInv` | platform/platform-api/handlers/os_upgrade.go:376-453 | the effects of the upload, validate, install and cancel requests, with both saves of the install request |
| `OsUpgrade.HolderStepKeepsInv` | platform/osupgrade/runner.go:536-666 | the effects of the install and verify processes |
| `OsUpgradeIntact.IntactIffNeverOverwritten` | platform/osupgrade/runner.go:146-183 | over every run from an open job, whatever is started, requested or saved: the selected and the running copy are completely written and the old copy is never written, throughout, exactly if the update tool is never started while the new copy is selected or running |
| `OsUpgradeIntact.StepKeeps` | platform/osupgrade/runner.go:76-205 | every effect of every process and request but that one keeps what this needs: staged jobs name the right copies, a recorded image is whole, nothing is selected or running that is being written |
| `OsUpgradeRuns.RunKeepsInv` | platform/osupgrade/runner.go:76-205 | the same over every run |
| `OsUpgradeRuns.UpgradeIsSafe` | platform/osupgrade/runner.go:76-205 | over every run of one job, from its upload or any later open state: if the tool was never started over a copy that may be booted, the copies are whole and a staged job names the right ones; if no request reopened the job, the tool never was, and an open job means the old copy is selected and running |
| `OsUpgradeRuns.UnboundIffNeverReopened` | platform/platform-api/handlers/os_upgrade.go:427-452 | throughout a run an open job's target is neither selected nor running nor acted on exactly if no request saves over a staged job |
| `OsUpgradeRuns.OrderlyNeverReopens` | platform/platform-api/handlers/os_upgrade.go:376-453 | with the install process started by its service, or by hand to resume, no request ever does |
| `OsUpgradeRuns.ServicesAreSafe` | platform/osupgrade/runner.go:76-205 | so every run of services and requests, under any interleaving, deaths and power cycles, is safe |
| `OsUpgradeRuns.SuccessMeansTargetRuns` | platform/osupgrade/runner.go:564-666 | a job becomes successful only in a boot that runs the written target and reports the target version |
| `OsUpgradeRuns.DormantStaysTerminal` | platform/osupgrade/runner.go:91-107 | with nothing else left to save, success, failure and cancellation are never left |
| `OsUpgradeRuns.TerminalIsFinalIff` | platform/osupgrade/runner.go:496-513 | a terminal state is final, whatever comes, exactly when no process or request under way has another state to save |
| `OsUpgradeRuns.FinishedJobStays` | platform/platform-api/handlers/os_upgrade.go:492-525 | a finished job is unchanged by any later install, reboot, verify, request or boot; only a failed one can still be cancelled |
| `OsUpgradeSelection.RebootsToTargetIffNeverBlind` | platform/osupgrade/runner.go:496-666 | over every run in which the tool is not started over a copy that may be booted: a reboot that is asked for or recorded would come up on the target throughout exactly if no step asks for or records one while the old copy is selected, or selects the old copy while one is asked for or recorded |
| `OsUpgradeSelection.RebootsToTargetIff` | platform/osupgrade/runner.go:576-582 | without cancellations and stale saves, exactly if no verification saves an installed job as awaiting a reboot while the old copy is selected |
| `OsUpgradeStaged.StagedComesUpIff` | platform/osupgrade/runner.go:564-596 | whatever happens to a staged upgrade before the device is booted, it comes up on the written target exactly if no verification and no cancellation got as far as to select the old copy |
| `OsUpgradeStaged.SurvivesIff` | platform/platform-api/handlers/os_upgrade.go:63-79 | it comes up on its target in every case exactly if neither a verification nor a cancellation is among what may be started before |
| `OsUpgradeStaged.StepWaits` | platform/osupgrade/runner.go:841-853 | every effect before the boot leaves the target written and unchanged, and nothing selects it again |
| `OsUpgradeJobs.WholeIffNeverSpoiled` | platform/platform-api/handlers/os_upgrade.go:86-135 | from any state, with requests that name any job: the copies a device may boot stay whole throughout exactly if the tool is never started over one of them and no copy is selected whose writing did not end |
| `OsUpgradeJobs.JobsIntactIff` | platform/platform-api/handlers/os_upgrade.go:86-135 | over every sequence of jobs whose requests take the active one, with processes left over from earlier jobs: exactly if the tool is never started over one of them |
| `OsUpgradeJobs.StepSound` | platform/osupgrade/runner.go:76-205 | every step of every process and request, on the active or an earlier job, keeps what this needs: a staged job can go back to a whole copy, and nothing is written while one of an earlier boot could go back to the copy that does not run |
| `OsUpgradeRunner.TurnsIsRun` | platform/osupgrade/runner.go:76-205 | an operation run alone, up to any point, is a run of the machine |
| `OsUpgradeRunner.FinishIsTurns` | platform/osupgrade/runner.go:76-205 | every operation ends after at most thirteen effects |
| `OsUpgradeRunner.CutKeepsInv` | platform/osupgrade/runner.go:76-205 | an operation cut off after any number of effects, by the death of its process or of the device, leaves what the machine keeps |
| `OsUpgradeRunner.InstallKeepsInv` | platform/osupgrade/runner.go:76-205 | so does a whole installation of whatever job is on disk |
| `OsUpgradeRunner.VerifyKeepsInv` | platform/osupgrade/runner.go:536-666 | and a whole verification |
| `OsUpgradeRunner.Device.Install` | platform/osupgrade/runner.go:76-205 | the whole install, including every failing effect and the resumed one, ends where the machine ends, and keeps what it keeps |
| `OsUpgradeRunner.Device.CheckAndWrite` | platform/osupgrade/runner.go:108-145 | the checks and preparations: which failures fail the job and which leave it |
| `OsUpgradeRunner.Device.WriteTarget` | platform/osupgrade/runner.go:146-178 | from the saved installing job to the update tool |
| `OsUpgradeRunner.Device.RunSwupdate` | platform/osupgrade/runner.go:179-183 | a failed write selects the old copy and fails the job, a complete one is recorded |
| `OsUpgradeRunner.Device.Conclude` | platform/osupgrade/runner.go:185-191 | the written image is recorded before anything selects it; a lost record selects the old copy |
| `OsUpgradeRunner.Device.SyncAndSelect` | platform/osupgrade/runner.go:192-204 | flush, select, await the reboot; the resumed form fails without touching the selector when the flush fails |
| `OsUpgradeRunner.Device.SelectTarget` | platform/osupgrade/runner.go:196-204 | a refused selection selects the old copy and fails the job |
| `OsUpgradeRunner.Device.Reboot` | platform/osupgrade/runner.go:496-513 | only an awaiting job is recorded as rebooting |
| `OsUpgradeRunner.Device.Verify` | platform/osupgrade/runner.go:536-666 | which states are verified, closed or left; success exactly if copy, version, restore and health say so; what the machine keeps is kept |
| `OsUpgradeRunner.Device.RollBack` | platform/osupgrade/runner.go:841-853 | the rollback is recorded before the old copy is selected; a refused selection fails the job |
| `OsUpgradeRunner.Device.Fail` | platform/osupgrade/runner.go:855-863 | the failure is recorded if it can be saved |
| `OsUpgradeRunner.Device.RequestInstall` | platform/platform-api/handlers/os_upgrade.go:376-453 | a ready job is marked and the service started; what is left when an effect fails, also when the mark cannot be taken back |
| `OsUpgradeRunner.Device.Cancel` | platform/platform-api/handlers/os_upgrade.go:492-525 | which states can be cancelled, that a staged upgrade is unstaged first, and what is left when an effect fails |
| `OsUpgradeRunner.InstallWorks` | platform/osupgrade/runner.go:76-205 | with every effect succeeding, a ready or installing job ends with the target written, selected and awaiting the reboot |
| `OsUpgradeRunner.VerifyDecides` | platform/osupgrade/runner.go:564-666 | a rebooted job becomes successful exactly if it runs the target with the right version and passes, and is rolled back otherwise |
| `OsUpgradeRunner.UpgradeOutcome` | platform/osupgrade/runner.go:76-205 | a whole upgrade ends in success on the new copy, or on the old copy after one more boot with the job failed |
| `OsUpgradeScenarios.UnselectedIsReached` | platform/osupgrade/runner.go:185-199 | from a ready job, by requests and services alone, power is lost between recording the written image and selecting it |
| `OsUpgradeScenarios.UnselectedTarget` | platform/osupgrade/runner.go:576-582 | from there a reboot is asked for without the target being selected, and the upgrade is rolled back |
| `OsUpgradeScenarios.ResumedInstallSelects` | platform/osupgrade/runner.go:91-107 | an install process that resumes first selects the target, and the reboot runs it |
| `OsUpgradeScenarios.LostCancel` | platform/platform-api/handlers/os_upgrade.go:492-525 | from a ready job, by requests and services alone, a cancelled job becomes rebooting with the old copy selected |
| `OsUpgradeScenarios.ReopenedJob` | platform/platform-api/handlers/os_upgrade.go:445-452 | an install process started by hand overtakes a request; in the end the device boots a copy that is not completely written |
| `OsUpgradeScenarios.RestartUndoesUpgrade` | platform/platform-api/handlers/os_upgrade.go:63-79 | from a ready job, by requests and services alone, a verification before the reboot brings the device back to the old copy with a whole target and a failed job |
| `OsUpgradeNextJob.NextJobOverwrites` | platform/platform-api/handlers/os_upgrade.go:93-97 | from a ready job, by requests and services alone, a refused rollback and the next job's installation: the device boots a copy that is not completely written |
| `OsUpgradeNextJob.LiftRun` | platform/platform-api/handlers/os_upgrade.go:86-135 | a run of the active job is a run of the device with all its jobs |
| `HealthWait.AwaitHealth` | platform/osupgrade/runner.go:620-644 | the wait always ends, within a bounded number of rounds; it accepts exactly if the unbroken run of passing checks that ends in its last round spans the required time, and refuses only after three times that time |
| `HealthWait.RunStart` | platform/osupgrade/runner.go:624-635 | the run of passing checks is unbroken and cannot be extended to an earlier round |
| `Crc16.Compute` | hal_v2/common/host_link/host_link_core.c:46-60 | the bit loop computes the checksum function |
| `Crc16.BytewiseIsSerial` | hal_v2/common/devices/hal_factory_format.c:87-100 | working a byte at a time is feeding its bits one by one to the shift register |
| `Crc16.SerialLinear` | hal_v2/common/host_link/host_link_core.c:46-60 | the register is linear over exclusive or in start value and message together |
| `Crc16.NonzeroStays` | hal_v2/common/host_link/host_link_core.c:46-60 | a register difference never vanishes under equal bits: each step is injective |
| `Crc16.CollisionIffDifferenceVanishes` | hal_v2/common/host_link/host_link_core.c:46-60 | two messages of one length have the same checksum exactly if their difference leaves a zero register zero |
| `Crc16.BurstDetected` | hal_v2/common/host_link/host_link_core.c:46-60 | messages that differ only within sixteen consecutive bits have different checksums |
| `Crc16.AdjacentBytesDetected` | hal_v2/common/devices/hal_factory_format.c:87-100 | messages that differ in one byte or two adjacent bytes have different checksums |
| `Crc16.OddSerial` | hal_v2/common/host_link/host_link_core.c:46-60 | the parity of the register is that of its start and the message together |
| `Crc16.OddErrorsDetected` | hal_v2/common/host_link/host_link_core.c:46-60 | messages of one length that differ in an odd number of bits, wherever they stand, have different checksums |
| `HostLinkWire.ParseHeaderInverts` | hal_v2/common/host_link/host_link_core.c:269-279 | parsing a printed header gives it back |
| `HostLinkWire.HeaderBytesInverts` | hal_v2/common/host_link/host_link_core.c:328-347 | printing a parsed header gives its bytes back |
| `HostLinkWire.FeedChunks` | hal_v2/common/host_link/host_link_core.c:315-326 | how the bytes are cut into chunks does not matter |
| `HostLinkWire.PrintedFrameIsDelivered` | hal_v2/common/host_link/host_link_core.c:170-347 | a printed frame of any known type and up to 512 bytes is delivered once, unchanged, and the parser hunts again |
| `HostLinkWire.DeliveredFramesWereSent` | hal_v2/common/host_link/host_link_core.c:208-313 | from any state and whichever allocations fail, the delivered frames are the contents of disjoint stretches of the input that are their printed forms, in order |
| `HostLinkWire.FeedWithMemory` | hal_v2/common/host_link/host_link_core.c:315-326 | where none fails these are the frames of the parser on values |
| `HostLinkWire.FinishedFrameReprints` | hal_v2/common/host_link/host_link_core.c:208-247 | a frame that passes every check was read from its own printed form |
| `HostLinkWire.QuietLineResynchronises` | hal_v2/common/host_link/host_link_core.c:249-313 | from any state and whichever allocations fail, enough bytes without the first sync byte lead back to the hunt |
| `HostLinkWire.NextFrameAfterQuietLine` | hal_v2/common/host_link/host_link_core.c:249-313 | after any 527 such bytes the next well-formed frame is delivered |
| `HostLinkHandler.Handler.constructor` | hal_v2/common/host_link/host_link_core.c:454-486 | a new handler hunts, with empty tables |
| `HostLinkHandler.Handler.FeedByte` | hal_v2/common/host_link/host_link_core.c:249-313 | the handler on its buffers does what the parser on values does; no write falls outside a buffer |
| `HostLinkHandler.Handler.FinishHeader` | hal_v2/common/host_link/host_link_core.c:273-299 | a complete header is dropped if its length is above the limit or memory for the payload cannot be had, else the payload is waited for |
| `HostLinkHandler.Handler.FeedFinishPayload` | hal_v2/common/host_link/host_link_core.c:208-247 | a payload with the wrong checksum is dropped, any other is dealt |
| `HostLinkHandler.Handler.DealOneFrame` | hal_v2/common/host_link/host_link_core.c:170-206 | dealing a frame changes the tables as specified |
| `HostLinkHandler.Handler.AddAckFrame` | hal_v2/common/host_link/host_link_core.c:121-154 | an answer goes to the first matching asynchronous slot, else to the first empty slot |
| `HostLinkHandler.Handler.AddNotifyFrame` | hal_v2/common/host_link/host_link_core.c:156-168 | a request or event goes to the first empty slot |
| `HostLinkHandler.Handler.FeedAll` | hal_v2/common/host_link/host_link_core.c:315-326 | feeding bytes deals exactly the frames they deliver, with any allocation failing |
| `HostLinkHandler.AcceptedFrameGoesToOnePlace` | hal_v2/common/host_link/host_link_core.c:121-206 | an accepted frame ends in exactly one place: a notify slot, an ack slot or one callback; it is lost only if its table is full |
| `HostLinkHandler.SendWire` | hal_v2/common/host_link/host_link_core.c:328-347 | the buffer handed to the transport is the printed frame |
| `HostLinkSession.OwnersConserved` | hal_v2/common/host_link/host_link_core.c:79-247 | an action changes how many places own a buffer only by acquiring or releasing it |
| `HostLinkSession.ActionKeepsOwners` | hal_v2/common/host_link/host_link_core.c:111-247 | every action keeps: live buffers have one owner, released ones none, nothing is released twice |
| `HostLinkSession.RunKeepsOwners` | hal_v2/common/host_link/host_link_core.c:410-570 | the same over every interleaving |
| `HostLinkSession.InitOwnsNothing` | hal_v2/common/host_link/host_link_core.c:454-486 | a new link starts that way |
| `HostLinkSession.DeinitLeavesOnlyHandedOut` | hal_v2/common/host_link/host_link_core.c:488-515 | after the end, exactly the buffers handed to callers are left, each with one owner, and none was released twice |
| `HostLinkSession.ExactlyOnceIffNeverLate` | hal_v2/common/host_link/host_link_core.c:586-633 | every asynchronous request that got a slot waits in one slot or was called back once, throughout a run, exactly if no send fails late in it |
| `HostLinkSession.SweptIsCalledOnce` | hal_v2/common/host_link/host_link_core.c:586-633 | once none waits any more, each request that got a slot was called back exactly once, if no send failed late |
| `HostLinkSession.SweepCallsEachOnce` | hal_v2/common/host_link/host_link_core.c:551-562 | and a sweep of timeouts over the table brings that about |
| `HostLinkSession.LateFailureWitness` | hal_v2/common/host_link/host_link_core.c:625-632 | an answer before a failed return: one request is called back twice and another never |
| `HostLinkSession.NoStaleAnswer` | hal_v2/common/host_link/host_link_core.c:381-452 | a waiting thread takes an answer to another request only if 65536 or more ids were allocated in between |
| `HostLinkSession.NoStaleCallback` | hal_v2/common/host_link/host_link_core.c:121-154 | an asynchronous request is called back with the answer to another one only if 65536 or more ids were allocated between the two |
| `JpegHuffman.CodesFit` | tools/shm-reader/nv12_to_jpeg.c:170-183 | under Kraft's inequality the codes of each length fit that length |
| `JpegHuffman.CodesArePrefixFree` | tools/shm-reader/nv12_to_jpeg.c:170-183 | for every length-count array that satisfies Kraft's inequality no code is a prefix of another |
| `JpegHuffman.DecodeInvertsCode` | tools/shm-reader/nv12_to_jpeg.c:170-183 | the decoding procedure of T.81 reads each code back, whatever follows it |
| `JpegHuffman.SymbolsArePrefixFree` | tools/shm-reader/nv12_to_jpeg.c:170-183 | the same for symbols, also where a value list repeats one |
| `JpegHuffman.DecodeInvertsSymbol` | tools/shm-reader/nv12_to_jpeg.c:170-183 | each symbol's entry is read back as that symbol |
| `JpegHuffman.BuildHuffTable` | tools/shm-reader/nv12_to_jpeg.c:170-183 | the table-building loops give each symbol the entry of its last occurrence, and the others none |
| `JpegHuffman.FillAll` | tools/shm-reader/nv12_to_jpeg.c:170-183 | the outer loop fills all codes in order of length |
| `JpegHuffman.FillLength` | tools/shm-reader/nv12_to_jpeg.c:174-181 | the inner loop fills the codes of one length, in 16-bit arithmetic |
| `JpegTables.DcLumIsValid` | tools/shm-reader/nv12_to_jpeg.c:70-104 | the luminance DC table satisfies the hypotheses |
| `JpegTables.DcChrIsValid` | tools/shm-reader/nv12_to_jpeg.c:70-104 | the chrominance DC table does |
| `JpegTables.AcLumIsValid` | tools/shm-reader/nv12_to_jpeg.c:70-104 | the luminance AC table does, with 162 codes |
| `JpegTables.AcChrIsValid` | tools/shm-reader/nv12_to_jpeg.c:70-104 | the chrominance AC table has 162 codes that fit |
| `JpegTables.DcCovers` | tools/shm-reader/nv12_to_jpeg.c:70-104 | both DC tables have every category up to 11 |
| `JpegTables.LumCovers` | tools/shm-reader/nv12_to_jpeg.c:70-104 | the luminance AC table has every run and size up to 10 bits |
| `JpegTables.ChrCovers` | tools/shm-reader/nv12_to_jpeg.c:70-104 | the chrominance AC table has all of them but two |
| `JpegTables.ChrLacksTwo` | tools/shm-reader/nv12_to_jpeg.c:70-104 | the two it lacks are 0xf9 and 0xfa |
| `JpegBlock.AcRoundTrip` | tools/shm-reader/nv12_to_jpeg.c:311-334 | the coefficients come back from their run-length code, whatever follows |
| `JpegBlock.DcRoundTrip` | tools/shm-reader/nv12_to_jpeg.c:300-309 | the DC difference comes back from its code |
| `JpegBlock.BlockRoundTrip` | tools/shm-reader/nv12_to_jpeg.c:286-337 | a block whose symbols have codes comes back |
| `JpegBlock.DecodedIsCodable` | tools/shm-reader/nv12_to_jpeg.c:286-337 | conversely, no stream decodes to coefficients that need a symbol without a code |
| `JpegBitWriter.UnstuffStuff` | tools/shm-reader/nv12_to_jpeg.c:151-167 | removing the stuffed zeros up to a marker gives the bytes back |
| `JpegBitWriter.StuffedHasNoMarker` | tools/shm-reader/nv12_to_jpeg.c:151-167 | every 0xFF in stuffed bytes is followed by 0x00 |
| `JpegBitWriter.BitWriter.PutBits` | tools/shm-reader/nv12_to_jpeg.c:151-160 | the bits written so far grow by exactly the code's bits, most significant first, in a 32-bit accumulator |
| `JpegBitWriter.BitWriter.FlushBits` | tools/shm-reader/nv12_to_jpeg.c:162-167 | fewer than eight ones are added and the buffer holds all bits, stuffed |
| `JpegBitWriter.BitWriter.Spill` | tools/shm-reader/nv12_to_jpeg.c:154-158 | taking the top byte out of the accumulator loses no bit |
| `JpegScan.ScanRoundTrip` | tools/shm-reader/nv12_to_jpeg.c:413-494 | a scan of blocks of three components with DC prediction comes back |
| `JpegScan.DecodedScanIsCodable` | tools/shm-reader/nv12_to_jpeg.c:413-494 | conversely, blocks that some stream decodes to have codes for all their symbols |
| `JpegScan.BytesRoundTripIff` | tools/shm-reader/nv12_to_jpeg.c:413-494 | the stuffed bytes of a scan decode to its blocks exactly if all symbols have codes |
| `JpegEncoder.BuildLookup` | tools/shm-reader/nv12_to_jpeg.c:170-183 | the filled array answers as the coder does |
| `JpegEncoder.CountBits` | tools/shm-reader/nv12_to_jpeg.c:302-304 | the counting loop computes the bit length |
| `JpegEncoder.EncodeBlock` | tools/shm-reader/nv12_to_jpeg.c:286-337 | the writer receives exactly the block's bits and the new DC predictor is returned |
| `JpegEncoder.EncodeDc` | tools/shm-reader/nv12_to_jpeg.c:300-309 | the DC part |
| `JpegEncoder.EncodeAc` | tools/shm-reader/nv12_to_jpeg.c:311-334 | the run-length loop |
| `JpegEncoder.EncodeMcus` | tools/shm-reader/nv12_to_jpeg.c:435-490 | the units are coded in order with their own predictors, then flushed and ended by a marker |
| `JpegEncoder.EncodeScan` | tools/shm-reader/nv12_to_jpeg.c:413-494 | no marker inside the coded bytes; a T.81 decoder recovers all blocks exactly if the image is safe for the chrominance table |
| `JpegEncoder.AllCodableIffSafe` | tools/shm-reader/nv12_to_jpeg.c:70-104 | the shipped tables have codes for all symbols of an image exactly if it is safe |
| `JpegEncoder.UnsafeImage` | tools/shm-reader/nv12_to_jpeg.c:70-104 | an image within the coder's ranges that is not |
| `AnnexB.FindUnitEnd` | hal_v2/common/hal_udp_stream.cpp:87-99 | the inner loop finds the end of a unit |
| `AnnexB.SplitAnnexB` | hal_v2/common/hal_udp_stream.cpp:67-106 | the scan loops compute the splitting function on any input |
| `AnnexB.SplitInvertsStream` | hal_v2/common/hal_udp_stream.cpp:67-106 | splitting a well-formed byte stream, with start codes of either length, gives its units back in order |
| `Rtp.ParseInvertsPacket` | hal_v2/common/hal_udp_stream.cpp:50-65 | reading a built RTP packet gives its fields and the payload back, with the payload type in seven bits |
| `Rtp.PayloadShape` | hal_v2/common/hal_udp_stream.cpp:141-243 | every payload fits; a fragmented unit has at least two fragments, with the start flag on the first alone and the end flag on the last alone |
| `Rtp.FragmentsJoin` | hal_v2/common/hal_udp_stream.cpp:162-187 | a depacketiser joins the fragments to the unit behind its rebuilt header |
| `Rtp.NalRoundTripIff` | hal_v2/common/hal_udp_stream.cpp:141-243 | a unit comes back from its payloads exactly if its type and forbidden bit allow it |
| `Rtp.ForbiddenBitIsLost` | hal_v2/common/hal_udp_stream.cpp:163-175 | a long H.264 unit with its forbidden bit set comes back without it |
| `Rtp.PacketsArrive` | hal_v2/common/hal_udp_stream.cpp:141-243 | a receiver that checks sequence numbers and markers takes in all packets of a unit |
| `Rtp.BytesArrive` | hal_v2/common/hal_udp_stream.cpp:50-65 | receiving the bytes of packets is receiving the packets |
| `RtpStream.StreamSender.SendPayload` | hal_v2/common/hal_udp_stream.cpp:149-161 | numbering, building and sending one packet; a refused call still uses up its number |
| `RtpStream.StreamSender.SendH264Nal` | hal_v2/common/hal_udp_stream.cpp:141-188 | sends the unit's packets in order and gives up at the first refused call |
| `RtpStream.StreamSender.SendH264Fragments` | hal_v2/common/hal_udp_stream.cpp:162-187 | the fragmentation loop |
| `RtpStream.StreamSender.SendH265Nal` | hal_v2/common/hal_udp_stream.cpp:190-243 | the same for H.265; units below two bytes are passed over |
| `RtpStream.StreamSender.SendH265Fragments` | hal_v2/common/hal_udp_stream.cpp:216-242 | its fragmentation loop |
| `RtpStream.StreamSender.SendAccessUnit` | hal_v2/common/hal_udp_stream.cpp:297-324 | all units of an access unit, also after a refused one, with the marker offered to the last |
| `RtpStream.TransmitPrefix` | hal_v2/common/hal_udp_stream.cpp:141-189 | whatever is refused, a prefix of the packets goes out, all of them exactly if nothing is refused |
| `RtpStream.AuArrives` | hal_v2/common/hal_udp_stream.cpp:297-324 | the packets of an access unit complete exactly that access unit at the receiver |
| `RtpStream.SessionRoundTrip` | hal_v2/common/hal_udp_stream.cpp:297-324 | over any list of access units, splitting, packetising and depacketising gives each one back with its units in order |
| `RtpStream.SessionRoundTripInBytes` | hal_v2/common/hal_udp_stream.cpp:297-324 | the same on the bytes of the datagrams |
| `RtpLoss.NalHeard` | hal_v2/common/hal_udp_stream.cpp:141-243 | whatever is refused, a receiver with any history completes the unit if none of its packets was refused, and nothing otherwise; it ends the access unit exactly with the last packet of the last unit |
| `RtpLoss.RefusedSession` | hal_v2/common/hal_udp_stream.cpp:297-324 | whatever is refused over a whole session, from the bytes on the wire a receiver completes exactly the units none of whose packets was refused, unchanged and in order; it puts together the access units whose last packet was refused with the next ones, and sees all apart exactly if none was |
| `RtpLoss.GroupedUnits` | hal_v2/common/hal_udp_stream.cpp:297-324 | lost ends change how the units are put together and nothing else |
| `RtpLoss.ApartIff` | hal_v2/common/hal_udp_stream.cpp:297-324 | there are as many access units as were sent exactly if each of their last packets got through, and then each has what arrived of it |
| `RtpLoss.PrefixCompletesNothing` | hal_v2/common/hal_udp_stream.cpp:162-187 | fragments of a unit without the last one complete nothing |
| `RtpStream.AuHeader` | hal_v2/common/hal_udp_stream.cpp:297-324 | the k-th packet carries the k-th number, fits, and has the marker exactly if it is the last and the last unit was long enough to be sent |
| `RtpStream.MarkerIsLost` | hal_v2/common/hal_udp_stream.cpp:198-202 | a last H.265 unit of one byte takes the marker with it |
| `RtpStream.AdvanceIsSum` | hal_v2/common/hal_udp_stream.cpp:152 | sequence numbers count modulo 2^16 |
| `BlankChecksum.BlankDoesNotMatch` | hal_v2/common/devices/hal_factory_format.c:102-111 | an erased slot does not pass its checksum |
| `Ctfb.SealedParts` | hal_v2/common/devices/hal_factory_format.c:308-318 | a new record is valid and carries its number, flags and payload |
| `CtfbSafety.TornOutcome` | hal_v2/common/devices/hal_factory_format.c:102-111 | a slot write cut off at any byte leaves no record, the new one but for its number, or one that still counts as the old, unless a checksum collides |
| `CtfbSafety.CutWriteIsAtomic` | hal_v2/common/devices/hal_factory_format.c:125-161 | a cut-off change over a slot without a sleeping record leaves all fields old or makes all fields new, and keeps a sound store sound |
| `CtfbSafety.WriteTakesEffect` | hal_v2/common/devices/hal_factory_format.c:262-335 | a complete change puts the other slot in use with the next number and the new record exactly if there is a higher number, else it changes nothing that is read |
| `CtfbSafety.OnlyThatFieldChanges` | hal_v2/common/devices/hal_factory_format.c:287-318 | the field reads as written and every other one as before, the address exactly if it was flagged rightly |
| `CtfbSafety.HistoryKeepsSound` | hal_v2/common/devices/hal_factory_format.c:262-345 | over every history of erasures, changes and cut-off changes the store stays sound |
| `CtfbErase.CutEraseLeaves` | hal_v2/common/devices/hal_factory_format.c:337-345 | an erasure cut off within the first six bytes of a record leaves it sleeping, later only by accident |
| `CtfbErase.AtomicIff` | hal_v2/common/devices/hal_factory_format.c:125-161 | in any store whose slots can be read, every cut-off change shows the old or the new record exactly unless the target holds a sleeping record that would be in use and tells something else |
| `CtfbErase.PowerFailSafe` | hal_v2/common/devices/hal_factory_format.c:262-345 | the same after every history with cut-off erasures, and without them there is no such record |
| `CtfbErase.ErasedRecordReturns` | hal_v2/common/devices/hal_factory_format.c:337-345 | with both slots valid and A the newer, an erasure cut after three bytes and a change cut after five show A's record again |
| `CtfbErase.ErasedNumberReturns` | hal_v2/common/devices/hal_factory_format.c:337-345 | a history from an erased store that leads there |
| `CtfbUnread.SetAtomicIff` | hal_v2/common/devices/hal_factory_format.c:125-161 | in any store with one slot readable at least: cut-off changes show the old record or their own exactly if the record in use was seen and no sleeping record tells something else, or an older one was seen that tells the same with its address, or none was seen, with the one in use in slot B and no sleeping record in A |
| `CtfbUnread.OlderSeenIff` | hal_v2/common/devices/hal_factory_format.c:125-161 | the case of the older record |
| `CtfbUnread.NothingSeenIff` | hal_v2/common/devices/hal_factory_format.c:125-161 | the case of none |
| `CtfbUnread.UnreadOutcome` | hal_v2/common/devices/hal_factory_format.c:281-335 | what a complete change comes to that could not read the slot in use |
| `CtfbUnread.UnreadNumberReturns` | hal_v2/common/devices/hal_factory_format.c:281-335 | after three changes from an erased store, a cut-off change that cannot read slot A shows the second one again |
| `CtfbCount.NumberIsReached` | hal_v2/common/devices/hal_factory_format.c:287-300 | every number up to 2^32 - 1 is reached from an erased store by changes alone |
| `CtfbCount.ChangesAtLast` | hal_v2/common/devices/hal_factory_format.c:287-300 | in any store at the last number whose slot A is not as high, no list of changes, complete or cut off, has an effect on what is read |
| `CtfbCount.LastNumberIsFinal` | hal_v2/common/devices/hal_factory_format.c:287-300 | the last number is reached, and from then on this holds |
| `CtfbSafety.CutNumberIsNotAbove` | hal_v2/common/devices/hal_factory_format.c:113-116 | a cut-off sequence number is never above the intended one if the stale one is not |
| `CtfbSafety.SmallChangeNeverCollides` | hal_v2/common/devices/hal_factory_format.c:87-111 | no collision is possible when the payloads differ in two neighbouring bytes at most |
| `CtfbStore.MacComesBackIff` | hal_v2/common/devices/hal_factory_format.c:163-197 | an address prints back as given exactly if it is six lower-case pairs with colons |
| `CtfbStore.ComesBackIff` | hal_v2/common/devices/hal_factory_format.c:163-197 | which values read back as they were set |
| `CtfbStore.SetThenGet` | hal_v2/common/devices/hal_factory_format.c:234-335 | in any store with a higher number left: the value read is the value set exactly for those values, the other fields are as before exactly if the address was flagged rightly, the number rises by one and the slot flips; else nothing changes |
| `CtfbStore.SetChangesOneField` | hal_v2/common/devices/hal_factory_format.c:262-335 | after any history without cut-off erasures a set changes that field alone |
| `CtfbStore.AddressReadsEmpty` | hal_v2/common/devices/hal_factory_format.c:163-197 | every canonical address that starts with ff is accepted and reads back as empty |
| `CtfbStore.AddressThatReadsEmpty` | hal_v2/common/devices/hal_factory_format.c:163-197 | ff:00:00:00:00:01 is one |
| `CtfbDevice.FactoryStore.FindActive` | hal_v2/common/devices/hal_factory_format.c:125-161 | which slot is in use, with unreadable slots and ties |
| `CtfbDevice.FactoryStore.CheckSlot` | hal_v2/common/devices/hal_factory_format.c:102-111 | a slot is valid exactly with magic, version and checksum |
| `CtfbDevice.FactoryStore.DecodeText` | hal_v2/common/devices/hal_factory_format.c:169-178 | the trimming loop |
| `CtfbDevice.FactoryStore.Get` | hal_v2/common/devices/hal_factory_format.c:234-260 | the field's text cut to the caller's buffer, and the errors |
| `CtfbDevice.FactoryStore.ReadAll` | hal_v2/common/devices/hal_factory_format.c:199-232 | all fields of the slot in use |
| `CtfbDevice.FactoryStore.Set` | hal_v2/common/devices/hal_factory_format.c:262-335 | which bytes of which slot change for every outcome of the reads, the write and the read-back, and what is returned |
| `CtfbDevice.FactoryStore.BuildRecord` | hal_v2/common/devices/hal_factory_format.c:281-318 | the buffer filled in step by step is the new record |
| `CtfbDevice.FactoryStore.Write` | hal_v2/common/devices/hal_factory_format.c:320-323 | a storage write that stops after any number of bytes |
| `CtfbDevice.FactoryStore.Erase` | hal_v2/common/devices/hal_factory_format.c:337-345 | what an erasure cut off after any number of bytes leaves of both slots, and an erased store when it completes |
| `ModelPublish.BlobNeverChanges` | platform/modelload/runtime.go:164-219 | over every interleaving, also with temporary names used twice, the stored file keeps its inode and bytes |
| `ModelPublish.StepKeepsInv` | platform/modelload/runtime.go:164-219 | every step of every call keeps the state of all other calls right, with fresh temporary names |
| `ModelPublish.PublishedIsWhole` | platform/modelload/runtime.go:164-219 | with temporary names used once, the published path, once written, always holds the whole file |
| `ModelPublish.SharedNamesPublishPart` | platform/modelload/runtime.go:149-163 | why the names must be unique: three calls that share one publish part of the file |
| `ModelStore.FileSystem.CopyInto` | platform/modelload/runtime.go:204-219 | the copy opens nothing that existed and holds the whole file on success |
| `ModelStore.FileSystem.Materialize` | platform/modelload/runtime.go:164-199 | on success the path holds the file, and a temporary name is left exactly if the same-file test could not look, the path was the stored file already and a link succeeded; on failure the path is as it was |
| `Cpio.LaxSeesTheSame` | platform/osupgrade/extract.go:27-75 | on any bytes whose strict walk completes, the lax walk sees the same entries |
| `Cpio.HexParses` | platform/osupgrade/validate.go:278-280 | a printed size parses back |
| `Cpio.WalkReadsArchive` | platform/osupgrade/validate.go:86-169 | either walk over an encoded archive sees exactly its names and contents, in order, and stops at the trailer |
| `CpioWalk.Reader.Validate` | platform/osupgrade/validate.go:86-169 | the validator's loop completes with what the walk found, or not at all |
| `CpioWalk.Reader.Extract` | platform/osupgrade/extract.go:27-75 | the extractor's loop takes exactly the artifacts the walk saw, and needs both |
| `CpioWalk.Reader.DiscardPadding` | platform/osupgrade/validate.go:282-289 | padding up to a multiple of four, or failure at the end of the data |
| `CpioArtifacts.LatestIsLast` | platform/osupgrade/extract.go:27-75 | the last entry of a kind, by position |
| `CpioArtifacts.TakenFiles` | platform/osupgrade/extract.go:52-68 | a file is written exactly if an artifact has its base name, and holds the content of the last one |
| `CpioArtifacts.TakenFlags` | platform/osupgrade/extract.go:52-78 | both artifacts are reported as found exactly if they are there |
| `CpioArtifacts.Learned` | platform/osupgrade/validate.go:112-132 | the validator reports the number of entries, a signature, the last description and root image, and the marker in the last recovery image |
| `CpioArtifacts.RecoveryFileIsImage` | platform/osupgrade/validate.go:128-145 | what the extractor takes for a recovery image was decompressed by the validator exactly if its name does not end in a slash |
| `CpioArtifacts.RecoveryAgreesIff` | platform/osupgrade/validate.go:128-132 | for every name: validator and extractor agree on what is a recovery image exactly if it is none of three spellings, and what each of the three does |
| `CpioArtifacts.FolderMixesUp` | platform/osupgrade/extract.go:52-68 | every recovery image in a folder that is not called like one is a root image to the validator |
| `CpioArtifacts.FolderIsSkipped` | platform/osupgrade/validate.go:128-132 | every other image in a folder called like a recovery image, or one called so in capital letters, is passed over by the extractor |
| `CpioArtifacts.SkippedNames` | platform/osupgrade/validate.go:128-132 | three such names: by folder, by a capital letter, by a dotted capital I |
| `CpioArtifacts.ExtractedWasValidated` | platform/osupgrade/extract.go:27-75 | the files extracted from a validated package are the contents of the last validated entries with their base names, and recovery images among them decompress unless their name ends in a slash |
| `CpioArtifacts.CapableIff` | platform/osupgrade/validate.go:139-155 | a validated package is reported as able to recover exactly if its last recovery image has the marker behind an even number of copies of its first eight bytes |
| `CpioWalk.LearnEntry` | platform/osupgrade/validate.go:112-164 | the cases of the validator's loop: what one entry adds, and which entries it refuses |
| `MarkerSearch.MarkerWriter.Write` | platform/osupgrade/validate.go:242-263 | in whatever chunks the data comes, the writer is where the search over all of it is |
| `MarkerSearch.StateHasBegun` | platform/osupgrade/validate.go:242-261 | the bytes that match are an attempt that began and was not swallowed by an earlier one |
| `MarkerSearch.BegunIsState` | platform/osupgrade/validate.go:242-261 | conversely, an attempt that began is what the writer counts as long as it matches |
| `MarkerSearch.FindsIff` | platform/osupgrade/validate.go:242-261 | for every marker and all data: found exactly if the marker stands where an attempt begins |
| `MarkerSearch.FindsAllIff` | platform/osupgrade/validate.go:242-261 | nothing is found that is not there; everything that is there is found, in all data, exactly if the marker has no clash with itself |
| `MarkerSearch.ClashHides` | platform/osupgrade/validate.go:254-258 | for every clash, data in which the marker stands and is not found |
| `MarkerSearch.FindsByParity` | platform/osupgrade/validate.go:242-261 | a marker whose first byte comes again at any number of places, behind different bytes, is found exactly if an even number of its starts up to those places stands in front of it, one behind the other |
| `MarkerSearch.RecoveryMarkerIsFoundIff` | platform/osupgrade/validate.go:18 | this for the marker of the validator |
| `MarkerSearch.AnyModeMarkerIsFoundIff` | platform/osupgrade/recovery.go:296-324 | and for the second marker, with two such places |
| `MarkerSearch.DetectModes` | platform/osupgrade/recovery.go:296-324 | both markers searched in one pass, in whatever chunks: what is reported is what each search finds in the whole image |
| `MarkerSearch.DeployedMarkersAreHidden` | platform/osupgrade/recovery.go:306-307 | both markers in use are not seen directly behind "AIPC_LOC" |
| `Nms.IouSymmetric` | hal_v2/common/hal_postprocess_common.c:122-148 | overlap is symmetric |
| `Nms.IouRange` | hal_v2/common/hal_postprocess_common.c:122-148 | it lies in [0, 1], is positive exactly for boxes that overlap and one exactly for a proper box with itself |
| `Nms.SortByConfidence` | hal_v2/common/hal_postprocess_common.c:157-171 | the in-place sort is a permutation in descending confidence |
| `Nms.Suppress` | hal_v2/common/hal_postprocess_common.c:188-208 | what is kept is suppressed by nothing kept; unless the output is full, what is not kept is suppressed by a kept one before it |
| `Nms.Filter` | hal_v2/common/hal_postprocess_common.c:173-209 | drawn from the first 256, descending, pairwise below the threshold, and unless full every dropped one is covered by a kept one of at least its confidence |
| `Line.Walk` | hal_v2/common/hal_draw_cpu.cpp:106-135 | one point for each step of the longer axis, first and last point are the endpoints, each point within half a pixel of the ideal segment |
| `Line.AtEnd` | hal_v2/common/hal_draw_cpu.cpp:121-133 | a point whose longer extent is used up and whose error is within half of it is the end |

## Left out

- Single-copy recovery upgrades, bundled recovery staging and the U-Boot environment: not modelled; the upgrade model is the dual-copy mode without an explicit update mode.
- Partition layout detection and mount checks: a single step that passes or fails; that the target is the other copy is modelled.
- What an upload, a validation, a backup and the app compatibility check look at: outcomes are parameters; what the requests save is modelled.
- More than one upgrade job at a time is followed in `OsUpgradeJobs` alone, for what may be booted; the other upgrade results follow one job, and one reboot at a time. Deleting a package is not modelled.
- OsUpgradeJobs.JobsIntactIff: asks that requests take the active job, as they do when they name none; with other jobs named by their ids the condition is the one of WholeIffNeverSpoiled.
- SHA-256, gzip, metadata extraction and the checks after the validator's walk: gzip is a parameter of the walk, the rest is not modelled.
- Names in archives: lower-casing covers ASCII and the two other letters that become ASCII ones, the dotted capital I and the Kelvin sign; any further letter stays as it is, which no test of a start or an end of these names sees.
- Serial port, sockets, threads and clocks: replaced by actions, parameters and oracles; the RTP sender's queue, raw mode and timestamp conversion are not modelled.
- RtpStream.StreamSender.SendH264Nal: needs max_payload above 2 and RtpStream.StreamSender.SendH265Nal above 3; below that the source's unsigned subtraction wraps or its loop does not advance.
- HostLinkSession.DeinitLeavesOnlyHandedOut: asks that no thread is inside the link, as the caller of the end has to see to; asynchronous slots are dropped without a callback there.
- Host link responses, events and event acknowledgements as they are sent: easy members next to the request path; an event acknowledgement that is taken is an action of the session.
- JpegEncoder.EncodeScan: takes the quantised coefficients, within 11 bits for DC differences and 10 for AC values; the cosine transform, the quantiser and the header writer are floating point or plain output.
- CtfbSafety.CutWriteIsAtomic: excludes a checksum collision on the mixed slot, which sixteen bits cannot rule out; SmallChangeNeverCollides says when none is possible.
- CtfbStore.MacComesBackIff: scans numbers as the C standard says, where a bare "0x" is no number.
- ModelPublish.PublishedIsWhole: asks for temporary names that are used once, as process id and time make them.
- Nms.Filter: works over real numbers; rounding of float is not modelled.
- Line.Walk: works over unbounded integers, so overflow of 32-bit coordinates is not modelled, nor thickness and pixel writes.
- Null arguments, which several C functions refuse at once: the types exclude them.
- Shared-memory readers, drawing of text and overlays, the CLIP scorer, web console, tooling scripts and vendor glue: not modelled.
