# amd-ai: verified models of installer, overlay, output and fingerprint

A Dafny model of four parts of amd-ai, a tool that sets up AMD GPU machine-learning
environments, with proofs of what those parts are for. `dafny verify dfyconfig.toml`
checks everything.

- **Installer** (`Installer*.dfy`). A workflow of 17 stages (8 in container mode) saves a
  checkpoint after every stage and is resumed by later processes, perhaps of a newer installer,
  after a failure, a reboot or a crash. A process is a log of events, a function of what it is
  asked, what it can read and how the world answers; a crash is a log cut short anywhere; a
  history is any number of processes, each starting from the file the one before left. The state
  file is the persistent part, the plan and release caches and the boot the volatile one.
- **Command output** (`Utf8`, `TailBuffer`, `Records`, `StreamReader`, `Observation`). A buffer
  keeps the end of a command's output, a splitter turns chunks of text into records while they
  arrive, and two threads share one observer. Each incremental form is proved against a
  specification of the whole input; the threads are a state machine over all interleavings.
- **Overlay store** (`OverlayLock`, `OverlayStore`, `OverlaySafety`, `OverlayHealth`,
  `OverlayRepair`, `OverlayHistory`, `OverlayTransaction`). Package generations in fresh
  directories, one link to the current one, artifacts stored by digest, health marking with
  pruning and collection, and repair through a quarantine. Every operation is the sequence of
  directory states it goes through; a crash may leave any of them.
- **Kernel log, requirements and fingerprint** (`KernelLog`, `Requirements*`, `Fingerprint*`). The
  ordered multiset difference of two logs, includes with cycle detection, and the pruned walk and
  the bytes behind a project's fingerprint, which tell exactly the included files.

Code that changes things step by step is modelled by classes and loops (`InstallerWorkflow`,
`TailBuffer`, `StreamReader`, `OverlayTransaction`, `RequirementsInspector` and the methods of the
other modules), each proved equal to the function the theorems are about. Digests of stage inputs
and of plans are free constructors, so injective; the content hash of the overlay is any function.
Generation IDs are numbers, as only their order matters.

Where code and documentation could be read differently the code was followed: the truncation flag
is also set by one append of exactly `limit` bytes (`TailBuffer.FlagAndLoss`), wheels are sorted by
their raw names (`OverlayLock.RawOrderCanMislead`), a tuning plan read back is not compared by
phase because its digest already fixes it, and a retry after a crash before the quarantine status
was written ends at a good store but reports an error (`OverlayRepair.RetryFinishes`).

## Model

| member | source | states |
|---|---|---|
| InstallerPinning.EveryProcessIsPinned | src/amd_ai/installer/workflow.py:350-512 | For every state file and every answer of the world: in a full installation no stage after HOST_PLAN is dispatched unless the same process saw kernel verification pass on the very kernel HOST_PLAN was recorded for, and none after HOST_VERIFY unless it saw the host pass or stay unverified |
| InstallerAuthorisation.EveryApplyWasAccepted | src/amd_ai/installer/workflow.py:560-599 | Over any number of processes, installers and crashes: each host change uses a plan of its own phase whose digest and adapter were accepted at the matching confirmation since the last restart; the Docker group goes in exactly as granted and never with the kernel phase; the kernel plan is applied by the installer it was accepted under |
| InstallerAuthorisation.ContainerRunAppliesNothing | src/amd_ai/installer/models.py:76-85 | A container installation never changes the host, whatever state file it finds |
| InstallerReplay.NoStageIsReplayed | src/amd_ai/installer/workflow.py:350-375 | Over any number of processes cut short anywhere, a stage once saved as complete is not dispatched again before a restart, except the two guards |
| InstallerReboot.VerificationFollowsTheReboot | src/amd_ai/installer/workflow.py:1483-1494 | If boot identifiers never return: across any number of processes, whenever kernel verification is dispatched a boot is recorded exactly if the kernel plan needs a reboot, and it is not the present one |
| InstallerReboot.StepRecordsBoot | src/amd_ai/installer/workflow.py:979-996 | Completing KERNEL_APPLY records the present boot exactly if the plan needs a reboot; no other stage touches the record |
| InstallerReboot.RebootWaits | src/amd_ai/installer/workflow.py:1483-1494 | The reboot stage completes only under a boot other than the recorded one |
| InstallerKernelChange.InputChangesIffOtherKernel | src/amd_ai/installer/workflow.py:350-512 | One command is repeated on the same files, killed anywhere any number of times, each time on any kernel or on none. The next process finds a changed input exactly when HOST_PLAN is complete and this process passes kernel verification on another kernel than HOST_PLAN was recorded for; then the input is that of HOST_PLAN, and the recorded kernel is one an earlier process passed on |
| InstallerKernelChange.RefusalIsReachable | src/amd_ai/installer/state.py:278-290 | For any two kernels there is a command, a machine and a moment to stop the first process, so that the same command on the other kernel stops at HOST_PLAN |
| InstallerKernelChange.SameCommandAlwaysResumes | src/amd_ai/installer/workflow.py:723-895 | So repeating a command where kernel verification always names the same kernel never raises the input-changed error, however often it failed, was blocked or was killed before |
| InstallerKernelChange.OtherKernelIsRefused | src/amd_ai/installer/state.py:278-290 | One iteration at HOST_PLAN, recorded for one kernel while another passed, halts with the changed input; it goes on exactly when the two kernels are the same |
| InstallerKernelChange.RunIsRefused | src/amd_ai/installer/workflow.py:350-385 | A whole process on another kernel than HOST_PLAN was recorded for finds the inputs of HOST_PLAN changed and no others, and every state it saves on the way still recomputes for the recorded kernel |
| InstallerResume.ApplyFrame | src/amd_ai/installer/workflow.py:951-1093 | No stage changes what it or an earlier stage is hashed from, given that an adapter is recorded by the time HOST_PLAN runs |
| InstallerResume.GuardFrame | src/amd_ai/installer/workflow.py:466-512 | Re-running a guard changes nothing any stage but HOST_PLAN is hashed from, also when the guard blocks |
| InstallerResume.AdapterIsNeverLost | src/amd_ai/installer/workflow.py:951-1093 | No stage drops a recorded adapter identity and a kernel plan always records one, so HOST_PLAN can only confirm it |
| InstallerHistory.SavedStatesAreResumable | src/amd_ai/installer/workflow.py:1213-1263 | Whatever is on disk, every state a process saves passes the transition check of the next process of its mode, and the loop's illegal-transition branch is unreachable |
| InstallerHistory.SavedStateReadsBack | src/amd_ai/installer/state.py:313-388 | A saved state is decoded unchanged and is not taken for an older schema |
| InstallerHistory.MigrationForgets | src/amd_ai/installer/state.py:402-489 | A full-mode record of an older schema is read as a state with nothing completed and no approval, plan, adapter or verification left |
| InstallerHistory.MigrationKeepsContainers | src/amd_ai/installer/state.py:402-466 | A container record of an older schema keeps its progress, release and images |
| InstallerHistory.RestartsFirst | src/amd_ai/installer/workflow.py:164-178 | A process begins the installation again at most once, before anything else, and only when nothing is complete |
| InstallerHistory.LeftByLife | src/amd_ai/installer/state.py:128-160 | After a crash anywhere the state file is what was found, or nothing, or the last state saved, and reads back as that |
| InstallerCheckpoint.FreshIsResumable | src/amd_ai/installer/workflow.py:311-348 | A new state has completed nothing and is accepted by the transition check |
| InstallerCheckpoint.LoopSavesCheckpoints | src/amd_ai/installer/workflow.py:350-464 | From a state that completed a prefix of the order, every save of the loop has completed a prefix and names the first stage missing |
| InstallerCheckpoint.StepShape | src/amd_ai/installer/workflow.py:350-464 | One iteration dispatches its stage at most once and first, saves at most once and last, and changes the checkpoint only by completing its own stage with the digest of its inputs |
| InstallerCheckpoint.StepApplies | src/amd_ai/installer/workflow.py:951-1093 | One iteration changes the other fields only by applying one output of its own stage; a stage left incomplete leaves only a report's fields |
| InstallerCheckpoint.InBefore | src/amd_ai/installer/models.py:56-85 | A stage is among the first of the order exactly if its position says so |
| InstallerAdoption.AdoptionIsSafe | src/amd_ai/installer/workflow.py:1095-1136 | A state is taken over exactly when the installer is another compatible one and every other bootstrap input is unchanged; then only identity, time and bootstrap digest change, and the new digest is what the new installer computes |
| InstallerAdoption.OnlyThePatchIsAdoptedEarly | src/amd_ai/installer/workflow.py:1138-1168 | A full installation is taken over only after KERNEL_REBOOT_PENDING, and before HOST_VERIFY only from 0.3.0 to 0.3.1 |
| InstallerAdoption.OthersAreRefused | src/amd_ai/installer/state.py:278-290 | A process of an installer that may not take over stops at BOOTSTRAP and dispatches nothing |
| InstallerGates.EveryEventIsGated | src/amd_ai/installer/workflow.py:1410-1481 | In every process: unattended a plan is accepted only by its digest on the command line and the group granted exactly if asked for there; otherwise the operator agreed to both, and the group is never asked for root; the host is given only the plan the planner returned to this very process; images and projects are only started with enough disk |
| InstallerGates.ReportsAreKeptOnce | src/amd_ai/installer/workflow.py:1201-1211 | Whatever the state held, the reports are each kept once, where they first occur, and none is forgotten |
| InstallerWorkflow.Workflow.Run | src/amd_ai/installer/workflow.py:148-222 | A whole process leaves exactly the events and the state file of the run the theorems speak of |
| InstallerWorkflow.Workflow.RunStages | src/amd_ai/installer/workflow.py:350-464 | The stage loop, from whatever the object caches, leaves exactly the events and saves of the specified loop |
| InstallerWorkflow.Workflow.RerunCompletedGuard | src/amd_ai/installer/workflow.py:466-512 | A guard run again leaves exactly the specified events, state, caches and decision to halt |
| InstallerWorkflow.Workflow.ExecuteStage | src/amd_ai/installer/workflow.py:390-450 | A stage run for the first time dispatches, then saves, waits or fails exactly as specified |
| InstallerWorkflow.Workflow.Dispatch | src/amd_ai/installer/workflow.py:540-678 | The action behind each stage, with the plan and release caches it fills |
| InstallerWorkflow.Workflow.ReadKernelPlan | src/amd_ai/installer/workflow.py:1392-1408 | The cached or fresh kernel plan is given out only if digest, adapter and phase match the state; it stays cached either way |
| InstallerWorkflow.Workflow.ReadHostPlan | src/amd_ai/installer/workflow.py:1375-1390 | As for the kernel, the phase not being compared |
| InstallerWorkflow.Workflow.ReadRelease | src/amd_ai/installer/workflow.py:1365-1373 | The release is given out only if its identity matches the state |
| InstallerWorkflow.Workflow.CheckDisk | src/amd_ai/installer/workflow.py:1265-1323 | A stage starts only with enough disk; reading the release for the estimate caches it |
| Utf8.DecodeUndoesEncode | src/amd_ai/runner.py:224-264 | Decoding undoes encoding (RFC 3629, section 3) |
| Utf8.EncodedIsFirstChar | src/amd_ai/runner.py:244-262 | The bytes of a character are read as that character whatever follows |
| Utf8.FirstCharIsEncoded | src/amd_ai/runner.py:244-262 | A character is only read from its own, shortest encoding |
| Utf8.StrictReadsEncodings | src/amd_ai/project/build.py:384-385 | Strict decoding reads a text exactly from the encoding of that text, and refuses all other bytes |
| Utf8.DecodeFromByte | src/amd_ai/runner.py:250-262 | Decoding an encoding from any byte on, ignoring errors, gives the characters that start there or later |
| Utf8.DecodeUpToByte | src/amd_ai/runner.py:465-468 | Decoding the first bytes of an encoding, ignoring errors, gives the characters that end within them |
| TailBuffer.TailIsTheLongestSuffix | src/amd_ai/runner.py:224-264 | The kept tail is a suffix, fits, and every suffix that fits is a suffix of it |
| TailBuffer.TailForgets | src/amd_ai/runner.py:233-262 | Keeping only the tail of what came before gives the same tail in the end, however the output is cut into appends |
| TailBuffer.PartIsCut | src/amd_ai/runner.py:250-262 | A chunk that sticks out is cut at the byte, then at the next whole character, and the rest is the tail |
| TailBuffer.FlagAndLoss | src/amd_ai/runner.py:226-262 | A clear truncation flag means nothing was lost; the flag is set without loss exactly when the output is `limit` bytes that came in one append |
| TailBuffer.BoundedTextBuffer.Create | src/amd_ai/runner.py:225-231 | A limit that is not positive is refused; a new buffer is empty |
| TailBuffer.BoundedTextBuffer.Append | src/amd_ai/runner.py:233-261 | After any append the text is the tail of everything appended, the size is its length in bytes and at most the limit, and the flag says what it stands for |
| TailBuffer.BoundedTextBuffer.DropExcess | src/amd_ai/runner.py:246-261 | The eviction loop leaves the tail of what the chunks held, and sets the flag exactly if they were too long |
| TailBuffer.BoundedTextBuffer.Text | src/amd_ai/runner.py:263-264 | The text is the tail of everything appended |
| Records.RecordsAddUp | src/amd_ai/runner.py:379-468 | However a text is cut into chunks, its records add up to the text with CRLF and CR as LF, at most 64 KiB wait between chunks, and nothing waits at the end |
| Records.RecordsAreLinesIffLinesFit | src/amd_ai/runner.py:438-468 | The records are the lines for every cutting if and only if no line is too long; single characters are the cutting that tells |
| Records.ShortLinesAreRecords | src/amd_ai/runner.py:438-468 | Lines shorter than 64 KiB are delivered as they are, however the text arrives |
| Records.LinesAreUnique | src/amd_ai/runner.py:438-468 | Records that end at line feeds and nowhere else are determined by the text they add up to |
| Records.FittingGivesLines | src/amd_ai/runner.py:438-468 | If never more than the bound has to wait, any cutting gives the lines |
| Records.OverflowIsSeen | src/amd_ai/runner.py:457-460 | If too much has to wait at some moment, reading character by character gives other records than the lines |
| Records.CompleteIsBounded | src/amd_ai/runner.py:438-462 | What waits after a step fits 64 KiB and is of one line; nothing waits after the last step |
| Records.CompleteRecords | src/amd_ai/runner.py:438-462 | The index and splitting loops compute exactly the specified records and rest, and end |
| Records.SplitUtf8Prefix | src/amd_ai/runner.py:465-468 | The prefix is the whole characters within the first bytes, and the two parts are the text |
| Observation.CallsAreSafe | src/amd_ai/runner.py:379-487 | In every interleaving of the two reader threads observer calls never overlap, each stream is delivered as a prefix of its own records in order, and no call follows the first exception on either stream |
| Observation.BothPipesAreDrained | src/amd_ai/runner.py:379-435 | No schedule can go on for ever or get stuck before both pipes are read to their end and closed; without an exception every record was delivered and each buffer holds the observer's answers in order |
| Observation.NeverStuck | src/amd_ai/runner.py:471-487 | Until both pipes are closed some thread can take a step: the lock is always given back |
| Observation.ReachedKeeps | src/amd_ai/runner.py:379-487 | What every step keeps: nothing of a stream is lost or reordered, the lock has one holder, calls are in turn |
| StreamReader.Reader.DrainStream | src/amd_ai/runner.py:379-435 | An undisturbed reader hands its observer exactly the records of the stream, up to an exception; an unobserved stream goes to the buffer chunk by chunk |
| StreamReader.Reader.ObserveRecord | src/amd_ai/runner.py:471-487 | After an exception a record is skipped; otherwise it is handed over once and the answer goes to the buffer |
| StreamReader.ObserverSeesAPrefix | src/amd_ai/runner.py:471-487 | The observer sees the records in order up to the first call that raises, every other answer is shown, and without an exception it sees all |
| OverlayLock.ParseIsExact | src/amd_ai/overlay/lock.py:91-124 | A text parses to a list of wheels exactly if it consists of their lines and they are well-formed, of the identity their files have, unprotected and strictly ascending by name |
| OverlayLock.HeaderIsExact | src/amd_ai/overlay/lock.py:20-24 | A header line parses to exactly the header it prints, if that is well-formed |
| OverlayLock.HashIsExact | src/amd_ai/overlay/lock.py:25 | A hash line parses to exactly the digest it prints |
| OverlayLock.EntriesPrint | src/amd_ai/overlay/lock.py:41-88 | The printer accepts exactly the wheels it can print one by one, under distinct canonical names, and prints their lines |
| OverlayLock.PrintedLockParses | src/amd_ai/overlay/lock.py:41-124 | A printed lock of well-formed wheels parses exactly when the canonical names come in the order of the raw names sorted by, and then gives those wheels canonically named |
| OverlayLock.CanonicalLockRoundTrips | src/amd_ai/overlay/lock.py:41-124 | Canonically named wheels come back from their lock, sorted by name |
| OverlayLock.ParsedLockPrints | src/amd_ai/overlay/lock.py:41-124 | A parsed lock whose files are stored is printed again, as the same text exactly when that has LF endings only and a final LF |
| OverlayLock.RawOrderCanMislead | src/amd_ai/overlay/lock.py:41-52 | Sorting by raw names can print a lock that does not parse: a wheel named `B` beside one named `a` |
| OverlayLock.RenderLock | src/amd_ai/overlay/lock.py:41-88 | The printing loop returns exactly the specified text or error |
| OverlayLock.ParseLock | src/amd_ai/overlay/lock.py:91-124 | The parsing loop returns exactly the specified wheels or error |
| OverlayLock.ValidateLockArtifacts | src/amd_ai/overlay/lock.py:127-161 | All wheels are returned exactly if each is stored under its digest with that content; otherwise the first missing one is named |
| OverlaySafety.BuildIsCrashSafe | src/amd_ai/overlay/transaction.py:155-233 | After any step of a build, failures included, the old generations are untouched and the link names the old generation or the new one with its texts written, digests matching, wheels stored and the verifier passed |
| OverlaySafety.BuildEnds | src/amd_ai/overlay/transaction.py:155-233 | A build succeeds exactly if the ID is new, the lock is backed by the store, pip and the verifier agree; it then leaves link and mirror at the new generation |
| OverlaySafety.BuildIsSafe | src/amd_ai/overlay/transaction.py:155-263 | Every step of a build keeps the store-wide invariant |
| OverlaySafety.InitializeEnds | src/amd_ai/overlay/transaction.py:111-152 | An overlay with a current link is not changed, one with generations but no link is refused, and otherwise a complete first generation without requirements is left, linked and mirrored |
| OverlaySafety.InitializeIsSafe | src/amd_ai/overlay/transaction.py:111-152 | Every step of the first initialisation keeps the store-wide invariant |
| OverlaySafety.StoringOnlyAdds | src/amd_ai/overlay/resolver.py:477-543 | Storing a wheel never changes or removes a stored file, adds at most the one named by its content's digest, and on success the wheel is in the store |
| OverlaySafety.StoringAgain | src/amd_ai/overlay/resolver.py:506-535 | Storing the same content again changes nothing and succeeds |
| OverlayHealth.MarkingIsExact | src/amd_ai/overlay/transaction.py:314-356 | After a successful marking the healthy generations are the two with the largest IDs, the current one survives exactly if fewer than two healthy ones have larger IDs and changes in nothing but its health, other generations are untouched, and the digest directories left are those a kept lock names; a failed marking removes no artifact |
| OverlayHealth.PruneIsExact | src/amd_ai/overlay/transaction.py:330-355 | Pruning keeps the top two healthy generations and all that are not healthy; collection happens only if every kept lock is readable, and is exact |
| OverlayHealth.CollectIsExact | src/amd_ai/overlay/transaction.py:443-475 | Collection removes exactly the digest directories no retained lock names, and nothing at all if one of these locks cannot be read |
| OverlayHealth.LastTwoAreTop | src/amd_ai/overlay/transaction.py:346-347 | The last two of the sorted healthy generations are those with fewer than two larger IDs |
| OverlayHealth.CurrentIsKept | src/amd_ai/overlay/transaction.py:346-347 | When IDs grow the current generation is among the two kept |
| OverlayHealth.MarkingIsSafe | src/amd_ai/overlay/transaction.py:314-356 | Every step of a marking, of the pruning and of the collection keeps the store-wide invariant |
| OverlayRepair.RepairConserves | src/amd_ai/overlay/repair.py:75-204 | In every state a repair goes through, the link names a working generation with the original input and lock, or it dangles and exactly one quarantine of the same reason holds that generation with them |
| OverlayRepair.RetryFinishes | src/amd_ai/overlay/repair.py:75-130 | A repair or retry whose build succeeds ends at a working generation with the original texts; it reports success unless the interrupted repair had not written its status file yet |
| OverlayRepair.FailedRetryIsNoted | src/amd_ai/overlay/repair.py:113-126 | A retry whose build fails leaves link and quarantined texts as they were, and a status that says so if the quarantine has its state file |
| OverlayRepair.OtherReasonsWait | src/amd_ai/overlay/repair.py:178-204 | A quarantine made for one reason is not retried for another |
| OverlayRepair.QuarantineKeeps | src/amd_ai/overlay/repair.py:133-175 | Moving the current generation to quarantine conserves it in every step |
| OverlayHistory.EveryWheelStands | src/amd_ai/overlay/transaction.py:111-475 | After any sequence of initialising, building, storing, marking and repairing, each cut short anywhere, the generation the link names exists, in place or in quarantine, and every wheel of its lock is in the artifact store with its content |
| OverlayHistory.EveryStoreIsSafe | src/amd_ai/overlay/transaction.py:111-475 | The invariant behind it, from any store that has it |
| OverlayHistory.RepairsConserve | src/amd_ai/overlay/repair.py:75-204 | Any number of repairs of one reason, cut short anywhere, conserve the texts |
| OverlayTransaction.Overlay.BuildGeneration | src/amd_ai/overlay/transaction.py:155-233 | The object goes through exactly the specified states and returns the specified outcome |
| OverlayTransaction.Overlay.Initialize | src/amd_ai/overlay/transaction.py:111-152 | An initialised overlay of the same profile is returned as it is; otherwise the first generation goes through exactly the specified states, or is refused |
| OverlayTransaction.Overlay.ActivateGeneration | src/amd_ai/overlay/transaction.py:236-263 | The link is switched, then the metadata mirrored; a mirror that fails is only a warning |
| OverlayTransaction.Overlay.MarkGenerationHealthy | src/amd_ai/overlay/transaction.py:314-356 | Marking, mirroring, pruning and collecting go through exactly the specified states and return the specified outcome |
| OverlayTransaction.Overlay.FindHealthy | src/amd_ai/overlay/transaction.py:330-345 | The listing loop finds the healthy generations in listing order |
| OverlayTransaction.Overlay.CollectArtifacts | src/amd_ai/overlay/transaction.py:443-475 | The loops over retained locks and over the store remove exactly the specified directories in order, or report an unreadable lock first |
| OverlayTransaction.Overlay.StoreWheel | src/amd_ai/overlay/resolver.py:477-543 | A wheel is refused, found, or put in place under its digest through exactly the specified states |
| OverlayTransaction.Overlay.FindRetry | src/amd_ai/overlay/repair.py:178-204 | The search finds the one quarantine of the reason that holds the generation the dangling link names, or reports that there is not exactly one |
| OverlayTransaction.Overlay.QuarantineCurrent | src/amd_ai/overlay/repair.py:133-175 | The current generation is checked and moved through exactly the specified states: directory made, generation moved, status and report written |
| OverlayTransaction.Overlay.Repair | src/amd_ai/overlay/repair.py:75-130 | Retry or quarantine, then replay, go through exactly the specified states and return the specified outcome |
| KernelLog.NewLinesAreTheDifference | src/amd_ai/qualification/kernel_log.py:55-75 | The new lines are a subsequence of the later log that holds each line as often as the later log has it more, and of equal lines the last ones; a line is new exactly if it became more frequent |
| KernelLog.NoAnswerIffDisjoint | src/amd_ai/qualification/kernel_log.py:55-68 | There is no answer exactly if the earlier log has lines and shares none with the later one; otherwise the fast path and the counting path agree |
| KernelLog.FastPathAgrees | src/amd_ai/qualification/kernel_log.py:60-61 | For a log that only grew, counting gives what the fast path gives |
| KernelLog.RotatedLog | src/amd_ai/qualification/kernel_log.py:55-75 | A log that lost its beginning and gained new lines, none of them among the lost ones, gives exactly the new lines |
| KernelLog.FailuresAreFound | src/amd_ai/qualification/kernel_log.py:82-100 | A line makes a finding exactly if it matches a failure pattern and became more frequent; the finding has the code of the first pattern that matches |
| KernelLog.NewKernelLines | src/amd_ai/qualification/kernel_log.py:55-75 | The counting loop computes exactly the specified difference or error |
| KernelLog.ClassifyNewLines | src/amd_ai/qualification/kernel_log.py:82-100 | The nested loops compute exactly the specified findings |
| Requirements.AcceptedIffAcyclic | src/amd_ai/overlay/requirements.py:138-169 | A requirements file is accepted exactly if no chain of includes from it meets a file twice and every file reached is readable and holds nothing refused; a reported cycle really closes at the file it names |
| Requirements.AcceptedIsExpanded | src/amd_ai/overlay/requirements.py:138-169 | An accepted file is read as if every include stood for the lines of its file, in order; files included twice count twice |
| Requirements.ActiveDoesNotMatter | src/amd_ai/overlay/requirements.py:136-169 | Which files are being read makes no difference to what an accepted file gives |
| Requirements.ParentStaysOutside | src/amd_ai/overlay/requirements.py:49-181 | Over every line that includes reach from accepted lines: the resolver gets exactly the source options and the requirements that are none of the parent image, git and local paths likewise, and the names left outside are exactly those of the parent that a reached line with a holding marker requires; each such line gives no source and admits the parent's version |
| Requirements.EffectsAreReached | src/amd_ai/overlay/requirements.py:138-169 | Accepted lines have exactly the effects asked for by themselves and by the lines of the files a chain of their includes ends at |
| RequirementsInspector.GivenAre | src/amd_ai/overlay/requirements.py:171-174 | The lines inspected are the requirements given and an include for each file given |
| RequirementsInspector.Inspector.InspectFile | src/amd_ai/overlay/requirements.py:138-169 | Reading a file adds its effects to the shared lists in order, and always gives the set of files being read back as it was, errors included |
| RequirementsInspector.Inspector.InspectRequirements | src/amd_ai/overlay/requirements.py:49-181 | Given requirements, then given files: the lists hold the effects of all of them in order, or the first refusal is returned |
| FingerprintBytes.SerializeIsInjective | src/amd_ai/project/build.py:95-113 | Different lists of paths, modes and contents give different bytes to hash |
| FingerprintBytes.DeserializeUndoesSerialize | src/amd_ai/project/build.py:95-113 | The bytes decode to exactly the files they were made of |
| FingerprintBytes.HashEntries | src/amd_ai/project/build.py:100-113 | The loop hashes exactly these bytes, each file in pieces |
| FingerprintTrees.BytesTellTheFiles | src/amd_ai/project/build.py:95-113 | Two projects give the same bytes to hash exactly when the same files are included, with the same paths, modes and contents |
| FingerprintTrees.ListingOrderDoesNotMatter | src/amd_ai/project/build.py:403-433 | Listing the directories of a project in another order changes neither the rules nor the list of files nor the bytes |
| FingerprintTrees.FingerprintedAscends | src/amd_ai/project/build.py:433 | The list of files is in strict order of the joined paths |
| FingerprintTrees.JoinIsInjective | src/amd_ai/project/build.py:101 | Two paths of directory names are the same if their joined forms are |
| FingerprintFiles.FingerprintedAreExact | src/amd_ai/project/build.py:403-433 | The files hashed are, sorted by path and none twice, exactly the regular files reached through directories none of which is left out that are the top-level `.dockerignore` or not ignored; a directory is left out if it is ignored and no rule is negated |
| FingerprintFiles.MoreRulesFewerFiles | src/amd_ai/project/build.py:403-458 | Without negated rules, adding rules never adds a file |
| FingerprintFiles.NothingBelowAPlainRule | src/amd_ai/project/build.py:403-458 | Without negated rules, nothing with a part a plain rule matches is hashed, at any depth |
| FingerprintFiles.DefaultsStayOut | src/amd_ai/project/build.py:19-30 | Nothing below a default-ignored name at any depth is hashed unless `.dockerignore` negates |
| FingerprintFiles.DirectoryRules | src/amd_ai/project/build.py:436-458 | A plain rule for directories only applies to a file exactly if it matches a directory above it, and then keeps the file out unless rules are negated |
| FingerprintFiles.ParseRuleUndoesText | src/amd_ai/project/build.py:381-400 | Reading a written rule, with its marks for negation, anchor and directory, gives the rule back |
| FingerprintFiles.IgnoredWithoutNegation | src/amd_ai/project/build.py:436-458 | Without negations a path is ignored exactly if some rule applies to it |
| FingerprintFiles.IsIgnored | src/amd_ai/project/build.py:436-458 | The loop's flag ends as the verdict of the last rule that applies |
| FingerprintFiles.IgnoreRules | src/amd_ai/project/build.py:381-400 | The rules are those of the default lines followed by those of `.dockerignore` |
| FingerprintFiles.WalkFiles | src/amd_ai/project/build.py:403-433 | The walk with its list of directories to visit gives exactly the specified files, sorted, and ends |
| FingerprintFiles.BuildContextFingerprint | src/amd_ai/project/build.py:95-113 | The rules are read from the `.dockerignore` of the project itself, a link to a file included, which is refused if it is no UTF-8; the bytes hashed are those of exactly the specified files |

## Left out

- InstallerKernelChange.InputChangesIffOtherKernel: excludes a first state file that is a container record of an older schema, because migration keeps its digests and such a file may hold any.
- InstallerReboot.VerificationFollowsTheReboot: assumes that a machine never returns to a boot identifier it left, which is what boot identifiers are.
- OverlayHistory.EveryWheelStands: assumes that new generation IDs are larger than those in use, as time stamps are; without that, `OverlayHealth.MarkingIsExact` says exactly when the current generation survives a marking.
- OverlayRepair.RetryFinishes: assumes a quarantine name that is not taken; the source fails there with the directory's error.
- FingerprintBytes.SerializeIsInjective: path lengths and sizes below 2^64 and modes below 2^32, the room the format has, and files whose size does not change while they are read.
- FingerprintTrees.BytesTellTheFiles: the same room for every file hashed, and directories as file systems have them: each name not empty, without a slash and once in its directory.
- FingerprintFiles.FingerprintedAreExact: shell-style pattern matching is any function of name and pattern.
- Installer: the field patterns checked when a state or the options are constructed, the choice of the state path, the two locks (processes follow one another), prompts, progress and messages; a dry run is only a process that saves and dispatches nothing; doctor mode.
- Installer: the loop over registry candidates and the disk sizes are answers of the world; actions are taken to return values of their declared types; that a plan's digest is over its own payload is checked by the actions.
- Overlay: `fsync`, permissions, ownership, symlink checks, temporary files and links; writing a file, switching the link, moving a directory and removing a tree are one step each. The transaction lock makes operations follow one another.
- Overlay: pip, the verifier and the parsing of wheel file names are answers of the world; time stamps in state files and the text of notes are not kept; builds that skip artifact validation (no caller does) are not modelled.
- Overlay: recovery of a first initialisation that crashed, which the code refuses by design.
- Output: bytes are decoded before the splitter sees them, and lone surrogates in an observer's answer, which cannot be encoded; starting and waiting for the process, and what is live output.
- Requirements: parsing of requirement lines, comments, continuations and options; paths are resolved beforehand.
- Fingerprint: directories that change during the walk, files that cannot be read, names that are no UTF-8; the hash function itself; checks on images and the build itself.
- Host probing, GPU checks, publishing, registry access, SBOMs and reports: comparisons and I/O that would add only easy members.
