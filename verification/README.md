# Models of the JTS audio ring, renderer arbiter, microphone gate and USB name patcher

This project models the stateful cores of the JTS speaker software and proves what they promise
over all inputs, runs and interleavings.

* **The shared-memory slot ring** between audio processes: `RingSteps` at the grain of single loads,
  word copies and stores; `RingCalls` at the grain of whole calls, where a writer free-runs over a
  dead reader and a lapped reader resyncs; `RingOpen` for creating, attaching to and reclaiming the
  ring file under the open lock, with openers that fail or die before any system call or header
  store; `WriterLock` for the lock a writer holds for the life of its mapping, and the heartbeat guard
  behind it. `RingGrain` shows the first two to agree, `Slots` holds the slot arithmetic they share.
* **Position reports and their pacing governor**: `PaceTokens` (refill arithmetic with every 64-bit
  operation wrapping), `TokenBucket` (a bucket seen from outside, and when it never binds),
  `PointerCore` (the struct the C code updates, its per-call functions, and streams of calls),
  `PointerRing` (what a report says of the ring it samples).
* **The renderer arbiter**: `Arbitration` (latest-start-wins against a definition that reads only
  the observation history), `Course` (the same over every move of the selection, control verbs
  included), `FanIn` (the environment: a gate and a lane mute whose commands may be lost, and a
  clock), `Mux` (ticks, control verbs, the leased test gate, the USB mute), `GateCommands` (gate
  commands that overlap), `MuxLoop` (alerts and patrols).
* **Microphone input admission**: `InputGate`.
* **The UAC2 module patcher**: `NamePatch`.

Code that updates structs, objects or buffers is modelled by classes and methods, each proved against
a function of the old state or against the property itself; protocols whose steps interleave between
processes are step functions with an inductive invariant. Liveness samples, clocks, probe results,
lost replies, failing system calls, deaths and outsiders are parameters, scripts or arbitrary choices.

`dafny verify dfyconfig.toml` checks everything.

## What the code does not do

Five promises hold only under a condition. Each condition is exact: it is proved in both directions,
for all inputs or runs.

* The pacing governor uses clock value 0 as "not armed". Prepare replaces a zero sample by 1, but a
  pointer call stores its sample as it is, so a call that samples 0 switches the governor off for good
  and the stream can then advance without limit (`DisarmedIsUnbounded`). At any point a governed
  stream keeps within its bound whatever comes if and only if its first clock reading was not zero, or
  its buffer leaves no room to advance at all (`BoundedForeverIff`).
* Latest-start-wins acts on a fresh start only in the tick that records it, or through a pending retry.
  The course (the latest starter is selected, pending, or about to be picked) is lost by exactly these
  moves, all of them while the old winner plays on or a retry waits:
  a tick whose handoff to a fresh start throws before its commit; a tick held by a test claim, or a
  return to automatic mode that throws, that records a start; a manual selection that throws or is
  declined while a retry is pending, or is declined and records a start; and any recording of the end of
  a retry while a winner that is not the latest plays on (`Course.CourseLostIff`, over runs of the mux's
  events `Course.RunStaysOnCourseIff` and `Mux.Run`). No command need fail: `RecordedStartStrandsASource`
  holds for test claims and for declined selections. One exception (`ThrownHandoffStrandsASource`) or two
  declined handoffs (`DeclinedHandoffsStrandASource`) do it on their own; no later automatic tick on the
  same snapshot recovers (`StrandedStays`).
* The "gate is idle" flag is cleared before a selection and set after an answered idle command. The
  automatic idle command is sent outside the transition lock, so it can overlap a locked command. As
  fan-in serves commands in the order they came, also late, the flag can come to be wrong if and only if
  a selection begins while an automatic idle command may still be answered (`IdleBeliefIsRightIff`,
  `WrongIffRisky`).
* Writer exclusivity rests on the lock file. Removing it is harmless if and only if no writer mapping
  has it open, locked or not yet locked (`UnlinkIsSafeIffUnopened`). What protects an
  open writer then is its heartbeat: no other process gets past that guard within two seconds of its
  last publish (`HeartbeatKeepsOthersOut`).
* The mux forgets on restart that it had the USB lane muted, and fan-in does not. With reliable
  commands the lane of a USB winner is muted exactly if the mux found it muted at its start and neither
  a lane command nor a fan-in restart has touched it since (`Mux.Run`); `RestartOverMutedLane` is
  such a run: Spotify takes over from USB, the mux restarts, and USB alone plays, wins, is selected and
  stays silent.

## Model

| member | source | states |
|---|---|---|
| RingSteps.InterleavingsAreFifo | c/jts-ring-ioplug/jts_ring_shm.c:1035-1315 | In every interleaving of single writer and reader steps, crashes and re-attachments included and free-run excluded, occupancy stays within the ring, the two copies never share a slot, the resync never fires, and the n-th read of a reader returns exactly the slot given to the n-th publish call that stored after the reader's attach had loaded write_seq: in order, without loss, repetition or anything stored before. |
| RingSteps.RunAsAsked | c/jts-ring-ioplug/jts_ring_shm.c:1230-1244 | The state after a run is what its steps asked for: the payloads published are those of the publish calls that stored, and a reader attaches at the number of stores before its load, not at the read_seq it found. |
| RingSteps.StepKeepsInv | c/jts-ring-ioplug/jts_ring_shm.c:1035-1109 | The invariant behind it is kept by every step. |
| RingSteps.RunKeepsInv | c/jts-ring-ioplug/jts_ring_shm.c:1199-1315 | And so holds after every run from a fresh ring. |
| RingSteps.InvDisjoint | c/jts-ring-ioplug/jts_ring_shm.c:1094-1098 | A slot being filled and a slot being read are different slots. |
| RingSteps.CopyKeepsUnread | c/jts-ring-ioplug/jts_ring_shm.c:1094-1098 | A word copied into the slot of write_seq leaves every unread slot whole. |
| RingSteps.StorePublishes | c/jts-ring-ioplug/jts_ring_shm.c:1094-1101 | The write_seq store publishes exactly the payload copied. |
| RingSteps.ReadCopies | c/jts-ring-ioplug/jts_ring_shm.c:1283-1314 | What the reader has copied so far is a prefix of the published payload. |
| RingSteps.ReadDelivers | c/jts-ring-ioplug/jts_ring_shm.c:1283-1314 | The read_seq store delivers the payload of the reader's own sequence number. |
| RingSteps.HistoryIsStable | c/jts-ring-ioplug/jts_ring_shm.c:1094-1108 | What was published at k stays what was published at k. |
| RingGrain.PublishIsWholeCall | c/jts-ring-ioplug/jts_ring_shm.c:1035-1109 | The steps of one undisturbed publish, word by word, are the whole-call publish: stored exactly if there is room. |
| RingGrain.ConsumeIsWholeCall | c/jts-ring-ioplug/jts_ring_shm.c:1246-1315 | The steps of one undisturbed consume are the whole-call consume, from every state, a lapped reader included. |
| RingGrain.AttachIsWholeCall | c/jts-ring-ioplug/jts_ring_shm.c:1230-1244 | A reader that replaces a crashed one starts at the tip, whatever was left unread. |
| RingGrain.CrashedWriterIsReplaced | c/jts-ring-ioplug/jts_ring_shm.c:1094-1101 | A writer that dies anywhere in a publish leaves a ring on which its successor's publish is a whole one. |
| RingCalls.Ring.constructor | c/jts-ring-ioplug/jts_ring_shm.c:415-450 | A created ring has zero counters and zero slots. |
| RingCalls.Writer.Publish | c/jts-ring-ioplug/jts_ring_shm.c:1035-1109 | Publish stores unless the ring stays full under a reader that is live through the whole wait budget; a dead reader loses its oldest slot; the result says whether anything was dropped. |
| RingCalls.Writer.CanAccept | c/jts-ring-ioplug/jts_ring_shm.c:1122-1130 | A writer is told to go on exactly when a publish whose first liveness sample is the same is certain to store, whatever it samples afterwards. |
| RingCalls.Reader.constructor | c/jts-ring-ioplug/jts_ring_shm.c:1220-1244 | Attaching starts at the tip, publishes that position, stamps the claim and takes the writer epoch. |
| RingCalls.OpenReader | c/jts-ring-ioplug/jts_ring_shm.c:1180-1244 | Opening for reading is refused, with nothing written, exactly while another process is stamped as the reader with a heartbeat less than two seconds old, and otherwise attaches. |
| RingCalls.Reader.ResyncIfOverrun | c/jts-ring-ioplug/jts_ring_shm.c:1246-1261 | A reader lapped by more than the ring moves to the tip, any other stays. |
| RingCalls.Reader.Consume | c/jts-ring-ioplug/jts_ring_shm.c:1263-1315 | What a consume returns, the zero fill when it returns nothing, the new positions, the heartbeat and epoch it notes, the occupancy left and every counter. |
| RingCalls.PublishKeepsInv | c/jts-ring-ioplug/jts_ring_shm.c:1045-1108 | A publish, free-running or not, keeps every unread slot genuine and the reader in step or lapped by a full ring. |
| RingCalls.ConsumeReturnsOwnPayload | c/jts-ring-ioplug/jts_ring_shm.c:1263-1315 | A lapped reader returns nothing and moves to the tip; any other returns the payload of its own sequence number, or nothing when it has caught up. |
| RingCalls.CallKeepsInv | c/jts-ring-ioplug/jts_ring_shm.c:1035-1315 | The invariant is kept by every whole call under any liveness. |
| RingCalls.RunsNeverReturnOverwritten | c/jts-ring-ioplug/jts_ring_shm.c:1035-1315 | Over every run of whole calls with arbitrary liveness occupancy stays within the ring, returned payloads are genuine and in increasing order, and every number since the attach was returned or jumped by a counted resync, each of which jumped more than a ring. |
| RingCalls.NoSkipWhileLive | c/jts-ring-ioplug/jts_ring_shm.c:1045-1077 | While every publish into a full ring finds the reader live, nothing is skipped. |
| RingCalls.Drive | c/jts-ring-ioplug/jts_ring_shm.c:1035-1315 | The writer and reader objects, driven through any calls, end where the run of those calls ends, with the same positions, slots, resync counter and returned payloads. |
| RingOpen.AcceptedSizeIsExact | c/jts-ring-ioplug/jts_ring_shm.c:165-217 | Under wrapping size arithmetic an accepted geometry still asks for its exact file size. |
| RingOpen.AcceptedIff | c/jts-ring-ioplug/jts_ring_shm.c:187-219 | The wrapping validation accepts exactly what it should over the integers: 48 kHz, 2 to 8 channels of 2- or 4-byte samples, 2 to 16 slots of at most 64 KiB. |
| RingOpen.CompleteInOne | c/jts-ring-ioplug/jts_ring_shm.c:525-556 | A header is complete in one geometry only. |
| RingOpen.OwnedIffDirectChild | c/jts-ring-ioplug/jts_ring_shm.c:257-270 | A path is owned exactly if it is the owned directory, a slash and one non-empty slash-free name. |
| RingOpen.Fs.InitCreated | c/jts-ring-ioplug/jts_ring_shm.c:415-450 | The magic is stored only on a complete header in a file of its size; any other end leaves no magic. |
| RingOpen.AttachExisting | c/jts-ring-ioplug/jts_ring_shm.c:462-556 | A file is accepted only if it is a complete ring of the expected geometry, and called torn only if its creator never published it. |
| RingOpen.FinishCreate | c/jts-ring-ioplug/jts_ring_shm.c:562-707 | A creator succeeds only with its own complete inode still at the path, unlinks at most its own unpublished one, and does unlink one it could not size. |
| RingOpen.AttachAttempt | c/jts-ring-ioplug/jts_ring_shm.c:562-707 | An attacher takes the expected ring, reclaims a torn file only under an owned path that still names it, and otherwise changes nothing. |
| RingOpen.Open | c/jts-ring-ioplug/jts_ring_shm.c:562-707 | However an opener ends, success means the linked inode with a complete expected header, no published inode is altered or unlinked, nothing older is unlinked outside the owned directory, and from any absent or torn leftover at an owned path an undisturbed opener succeeds within two attempts. |
| RingOpen.RunOpeners | c/jts-ring-ioplug/jts_ring_shm.c:562-707 | Over any sequence of openers published rings stay whole, none is ever reclaimed, and every success is complete in its opener's geometry. |
| RingOpen.SoundAfter | c/jts-ring-ioplug/jts_ring_shm.c:562-707 | One opener keeps that soundness. |
| WriterLock.StepKeepsInv | c/jts-ring-ioplug/jts_ring_shm.c:912-1018 | Whoever is past the lock holds it, claims are on the file at the path, and, because the lock excludes everyone else, what a claimant has read of the header is still there when it stores, its pid until its own close clears it. |
| WriterLock.OnlyStampingWritersTouchHeader | c/jts-ring-ioplug/jts_ring_shm.c:912-1018 | Only the lock holder past both guards writes the header, so a refused open changes no field of it. |
| WriterLock.StepNeverRewinds | c/jts-ring-ioplug/jts_ring_shm.c:1004-1018 | No store takes a counter back: a publish raises write_seq, and an epoch store, of a value read earlier plus one, what is stored, by exactly one. |
| WriterLock.SharedEpoch | c/jts-ring-ioplug/jts_ring_shm.c:1007-1014 | After an unlink under an opener that has yet to stamp, that opener and a newcomer can share one epoch between two stamps. |
| WriterLock.RunKeepsInv | c/jts-ring-ioplug/jts_ring_shm.c:912-1149 | The invariant holds in every interleaving of opens, closes, crashes and harmless unlinks, each lock file opened and then locked. |
| WriterLock.AtMostOneWriter | c/jts-ring-ioplug/jts_ring_shm.c:760-880 | Then at most one mapping is stamped, it continues from the ring's own write_seq, and the epoch counts the stamps. |
| WriterLock.CountersNeverRewind | c/jts-ring-ioplug/jts_ring_shm.c:912-1149 | write_seq and writer_epoch never go back across writer generations. |
| WriterLock.UnlinkIsSafeIffUnopened | c/jts-ring-ioplug/jts_ring_shm.c:825-837 | Removing the lock file is harmless, whatever follows short of another such removal, if and only if no claimant has it open. |
| WriterLock.UnlinkVoidsExclusivity | c/jts-ring-ioplug/jts_ring_shm.c:825-837 | Removing it under a claimant, locked or only opened, lets the claimant and a newcomer both end up stamped. |
| WriterLock.PausedWriterKeepsRing | c/jts-ring-ioplug/jts_ring_shm.c:882-912 | With the lock file in place no opener gets past a holder, however stale its heartbeat; it is refused and leaves nothing behind. |
| WriterLock.HeartbeatKeepsOthersOut | c/jts-ring-ioplug/jts_ring_shm.c:901-912 | From the heartbeat store of an open on, and with the lock file removed however often, no other process gets past the guard as long as each comes there within the timeout of the writer's last publish. |
| WriterLock.ClosedRingIsFree | c/jts-ring-ioplug/jts_ring_shm.c:1132-1149 | Once a close has cleared its stamp the guard stops nobody. |
| WriterLock.CloseFreesRing | c/jts-ring-ioplug/jts_ring_shm.c:1132-1149 | A whole close clears its own stamp, frees the lock and leaves the counters. |
| WriterLock.DeathFreesLocks | c/jts-ring-ioplug/jts_ring_shm.c:760-880 | A process that dies holds nothing: whoever waits for its lock can take it. |
| PaceTokens.RefillIsExact | c/jts-ring-ioplug/jts_ring_shm.h:416-432 | At 48 kHz no operation of the refill wraps for any 64-bit elapsed time, and the result is the unsplit integer formula, 20 times below the limit. |
| PaceTokens.OneSecondOfCredit | c/jts-ring-ioplug/jts_ring_shm.h:405-432 | One second credits 48120 frames: the nominal rate and a quarter percent. |
| PaceTokens.RefillSplit | c/jts-ring-ioplug/jts_ring_shm.h:416-432 | Splitting an interval never creates credit and loses at most two tokens. |
| PaceTokens.PollingNeverCreatesCredit | c/jts-ring-ioplug/jts_ring_shm.h:405-432 | Nor does polling it in any number of pieces, which loses at most two tokens per extra poll. |
| TokenBucket.HeldIsTightest | c/jts-ring-ioplug/jts_ring_shm.h:575-602 | A bucket's content is the tightest of all windows ending now. |
| TokenBucket.GrantedIffConforms | c/jts-ring-ioplug/jts_ring_shm.h:575-602 | Every demand is granted in full if and only if every window between re-seeds fits one bucket plus its refills. |
| PointerCore.Pointer.Prepare | c/jts-ring-ioplug/jts_ring_shm.h:518-539 | Prepare clears the report and arms a governed playback PCM: a full bucket, a live reader assumed, the clock sample stored, or 1 for 0. |
| PointerCore.Pointer.PaceApply | c/jts-ring-ioplug/jts_ring_shm.h:575-602 | The in-place governor call is the function `Pace`. |
| PointerCore.GrantIsMaximal | c/jts-ring-ioplug/jts_ring_shm.h:590-601 | A governed advance is paid for exactly, granted in full if and only if the bucket holds it, and otherwise in whole periods, as many as the bucket holds, with the wait put on account. |
| PointerCore.Pointer.ClampForward | c/jts-ring-ioplug/jts_ring_shm.h:659-671 | A report moves towards the honest position, never back, never to within a period of a whole buffer, and no less far than that allows. |
| PointerCore.Pointer.ReportPlayback | c/jts-ring-ioplug/jts_ring_shm.h:675-694 | Of what the app has written nothing staged, and nothing unread before a live reader, is ever reported; ungoverned, all the rest is, as far as the clamp lets it. A call is the function `Report` that the theorems below are about. |
| PointerCore.Pointer.ReportCapture | c/jts-ring-ioplug/jts_ring_shm.h:743-780 | A capture report never offers more than what lies unread, if that is no more than a ring holds, the rest of a slot and the armed silence, and all of it as far as the clamp lets it. |
| PointerCore.CallSpends | c/jts-ring-ioplug/jts_ring_shm.h:575-602 | One governed call pays for every frame it reports out of the bucket it found. |
| PointerCore.AdvanceBound | c/jts-ring-ioplug/jts_ring_shm.h:575-602 | From any interior state and whatever the app demands, the advance is at most the bucket held there, one bucket per reader reattach, and the refill of the elapsed time. |
| PointerCore.AdvanceBoundFromPrepare | c/jts-ring-ioplug/jts_ring_shm.h:518-602 | From prepare, in frames: buffer times one plus the reattaches, plus the refill of the whole time, for calls that do not sample zero. |
| PointerCore.ReseededIsCapPerEdge | c/jts-ring-ioplug/jts_ring_shm.h:584-588 | The re-seeds of a run amount to one buffer per dead-to-live edge. |
| PointerCore.ArmedIffNoZeroSample | c/jts-ring-ioplug/jts_ring_shm.h:518-581 | The governor stays armed if and only if no call has sampled clock zero. |
| PointerCore.DisarmedIsUngoverned | c/jts-ring-ioplug/jts_ring_shm.h:579-581 | A disarmed stream reports exactly what an ungoverned one would, for ever. |
| PointerCore.DisarmedIsUnbounded | c/jts-ring-ioplug/jts_ring_shm.h:579-581 | A disarmed stream advances by more than any given amount without any passing of time. |
| PointerCore.BoundedForeverIff | c/jts-ring-ioplug/jts_ring_shm.h:518-602 | At any point a governed stream keeps within its bound, whatever calls and clock follow, if and only if its first clock reading was not zero or its buffer leaves no room to advance. |
| PointerCore.ZeroSampleDisarms | c/jts-ring-ioplug/jts_ring_shm.h:579-581 | A stream of two calls that exceeds the bound after a zero sample. |
| PointerCore.HonestIffConforming | c/jts-ring-ioplug/jts_ring_shm.h:575-694 | A stream is reported at its honest position on every call if and only if each call moves by at most one clamp step and every window's demand fits one bucket plus its refills; then the bound time stays put. |
| PointerCore.HonestIffGranted | c/jts-ring-ioplug/jts_ring_shm.h:575-694 | The same, call by call against the bucket. |
| PointerCore.AlsaRebuildsPosition | c/jts-ring-ioplug/jts_ring_shm.h:470-488 | Over every mix of playback and capture reports the position never moves back and the one ALSA rebuilds modulo the buffer is the raw one. |
| PointerCore.AliasFreeIffPeriod | c/jts-ring-ioplug/jts_ring_shm.h:659-671 | A single report can alias if and only if the period is zero. |
| PointerCore.CatchUpPrefix | c/jts-ring-ioplug/jts_ring_shm.h:659-694 | An ungoverned fixed target is approached by full steps and reached after ceil(gap / step) calls, not before. |
| PointerRing.ReportIsRingPosition | c/jts-ring-ioplug/jts_ring_shm.h:676-694 | A playback report never passes read_seq periods before a live reader, or write_seq periods without one; ungoverned and with room to move it is exactly there. |
| PointerRing.NeverAheadOfRing | c/jts-ring-ioplug/jts_ring_shm.h:676-694 | Over a whole stream, governed or not, the report never passes the furthest the ring had got at any call. |
| PointerRing.CaptureOffersWhatIsServed | c/jts-ring-ioplug/jts_ring_shm.h:724-780 | A capture position offers exactly what the next consumes will serve: nothing from the ring to a lapped reader, which jumps to the tip. |
| Arbitration.RecordTracks | jasper/mux.py:1005-1026 | Recording a snapshot keeps start numbers positive, distinct and ordered as the history orders the starts. |
| Arbitration.PickIsLatest | jasper/mux.py:1028-1047 | The winner picked by start number is the active source whose last start is latest in the history, ties going to registry order. |
| Arbitration.NewestIsLatest | jasper/mux.py:1016-1024 | The last fresh start of a snapshot is the one the winner rule would pick. |
| Arbitration.LatestIsUnique | jasper/mux.py:1028-1047 | The history determines the winner. |
| Arbitration.LatestSurvives | jasper/mux.py:590-596 | When nothing starts, a latest starter that is still active still is the latest. |
| Arbitration.TickKeepsSettled | jasper/mux.py:570-650 | One automatic tick whose handoff succeeds keeps the latest starter selected with no retry pending. |
| Arbitration.LatestStartWins | jasper/mux.py:570-650 | So it does over every run of such ticks. |
| Arbitration.OnCourseIffNextSettles | jasper/mux.py:570-650 | Being on course is exactly that the next successful tick on the same snapshot settles the policy. |
| Arbitration.CourseLostIff | jasper/mux.py:572-632 | From on course, one automatic tick, its handoff committed, declined or thrown, leaves the course exactly when a fresh start's handoff throws while the old winner plays on, or nothing is left to retry while a winner that is not the pick plays on. |
| Arbitration.StrandedStays | jasper/mux.py:584-596 | Off course with nothing to retry, no tick on the same snapshot changes anything. |
| Arbitration.RetrySettles | jasper/mux.py:572-586 | A pending retry is kept, whether its handoff is declined or throws, while its source stays the latest, and the first success settles the policy. |
| Arbitration.ThrownHandoffStrandsASource | jasper/mux.py:580-633 | From any settled state one thrown handoff to a fresh start leaves the new source unselected while the snapshot stays. |
| Arbitration.DeclinedHandoffsStrandASource | jasper/mux.py:580-596 | Two declined handoffs whose second source stops do the same to the first. |
| Course.CourseLostIff | jasper/mux.py:537-783 | Of all moves of the selection, ticks held or not, manual selections and returns to automatic mode that succeed, are declined or throw, and restarts, exactly those that stray lose the course; what ends a pin is on course. |
| Course.RunStaysOnCourseIff | jasper/mux.py:416-783 | Over every run of moves the course is kept throughout if and only if no move made while nothing was pinned strays. |
| Course.RecordedStartStrandsASource | jasper/mux.py:540-564 | A start recorded by a tick that a test claim holds, or by a declined manual selection, is lost while the old winner plays on, with no command failing, and no later automatic tick on that snapshot selects it. |
| Course.PickAfter | jasper/mux.py:1005-1047 | After a recording the pick is the newest start; with no start, what was the pick and still plays still is. |
| Mux.ProbeIsFresh | jasper/mux.py:486-519 | A source still active after a probe was positively observed less than five seconds before the round began. |
| Mux.ProbeKeepsSound | jasper/mux.py:486-519 | Every probe deadline is 0 or five seconds past the last known observation. |
| Mux.UnknownHolds | jasper/mux.py:486-519 | A source that does not answer stays active for five seconds after it was last known to be, is not believed seen, and is not deferred; an answer is taken over at once. |
| Mux.StrippedIsInside | jasper/mux.py:806-807 | Stripping a name takes only blanks, and only from its ends. |
| Mux.PolicyFollows | jasper/mux.py:570-650 | What the arbitration theorems give for one tick of the mux. |
| Mux.Mux.DeferrableProbes | jasper/mux.py:457-472 | A source an alert named is never deferred, nor one past its deadline. |
| Mux.Mux.ProbeSources | jasper/mux.py:474-519 | A probe round updates each source it did not defer, as its own answer says, and no other. |
| Mux.Mux.RecordObservation | jasper/mux.py:1005-1026 | The in-place loop is the recording the arbitration theorems are about. |
| Mux.Mux.TransitionTo | jasper/mux.py:1091-1251 | A handoff publishes a winner only with the gate on its lane, writes the mode of a manual one, and changes nothing but the gate otherwise, that only if the command's answer was lost. |
| Mux.Mux.UsbSetPreempt | jasper/mux.py:1497-1531 | The tracked mute moves only with the lane, and an untracked lane stays muted exactly if it was found so. |
| Mux.Mux.SettleLane | jasper/mux.py:652-670 | At the end of a tick the real lane mute equals the tracked one exactly if it was not inherited, and USB alone playing is not preempted. |
| Mux.Mux.SelectTest | jasper/mux.py:795-855 | Who may claim the test gate by stripped names, what the claim holds and until when, and when a failed first select rolls it back. |
| Mux.Mux.ReleaseTest | jasper/mux.py:869-908 | Only the owner releases, and a release leaves the gate on the pin, else the active winner, else silent. |
| Mux.Mux.Decide | jasper/mux.py:545-670 | A live claim, then the pin, then the automatic policy decides; each re-asserts its own lane at every tick, and with reliable commands has it: the claimed lane until the lease is over, the pin, the winner or silence. |
| Mux.Mux.Tick | jasper/mux.py:537-670 | One tick: the snapshot it acts on, unanswered sources held for five seconds; where it leaves the gate, however it ends: with reliable commands on the claimed lane, the pin, or the winner's lane or silent, unless the winner itself restarted; that its automatic half is exactly the policy step for its handoff's outcome and finishes on a smooth one; and the lane mute, a USB that lost silenced. |
| Mux.Mux.Reconcile | jasper/mux.py:416-472 | Whatever is still counted active was positively observed less than five seconds before, a source an alert named is counted as it answered, whoever owns the gate has it, and the selection makes exactly the move of the tick's end, held by a test claim or not. |
| Mux.Mux.SelectSource | jasper/mux.py:672-712 | Pinning is refused under a test claim, succeeds on a smooth handoff with reliable commands, is complete when it succeeds, otherwise leaves winner, pin, persisted mode and, unless an answer was lost or nothing was selected, the gate, and makes exactly the move of its reply. |
| Mux.Mux.AutoSelect | jasper/mux.py:714-783 | A finished return to automatic mode is settled at once, with the gate on the latest starter or silent, and a smooth one with reliable commands finishes; one that is declined or throws makes exactly the move of its reply. |
| Mux.Step | jasper/mux.py:545-908 | Every event is a move of the selection; a test claim goes only by its owner's release or by expiry, and pin and persisted mode stay while it is held. |
| Mux.Run | jasper/mux.py:252-321 | Over every run of reconciles, control verbs and restarts of fan-in or of the mux the idle belief is right, the claim is whole, start numbers agree with the history, with reliable mutes USB is never preempted as winner, its lane being muted then exactly if the mute was inherited, the persisted mode is the pin if its writes land, and latest-start-wins stays on course throughout if and only if none of the run's moves strays. |
| Mux.RestartThenTick | jasper/mux.py:1533-1551 | After a fan-in restart the next automatic tick to finish makes the real lane mute equal the tracked one. |
| Mux.RestartOverMutedLane | jasper/mux.py:282-285 | A whole run with every command reliable: a handoff from USB mutes its lane, the mux restarts, and USB, playing alone, is selected and stays silent. |
| GateCommands.WrongIffRisky | jasper/mux.py:1299-1312 | From any state the commands already given, served in order, late or lost, can make the idle belief wrong if and only if the flag is set or an awaited answer will set it, and a lane is open then or comes later. |
| GateCommands.RiskComesFromOvertaking | jasper/mux.py:643-650 | Only a selection begun while an automatic idle command may still be answered brings that about. |
| GateCommands.IdleBeliefIsRightIff | jasper/mux.py:1299-1339 | A run stays safe from a wrong idle belief throughout, whatever is lost or late, if and only if no selection begins so. |
| GateCommands.IdleBeliefIsRight | jasper/mux.py:1299-1339 | While gate commands do not overlap, a gate believed idle is silent, whatever is lost or late. |
| GateCommands.OverlapMisleads | jasper/mux.py:643-650 | Such a selection leaves a state from which the two commands alone can end with a lane open that is believed silent. |
| GateCommands.LoneCommand | jasper/mux.py:1299-1312 | On its own a command, answered, lost or unanswered, does to gate and flag what the mux's two commands promise. |
| MuxLoop.Loop.Notify | jasper/mux.py:404-414 | An alert marks its source and sets the wake event. |
| MuxLoop.Loop.Await | jasper/mux.py:349-376 | After the wait and the coalescing sleep the loop has woken exactly when something is dirty, and at least 50 ms after the last alert reconcile. |
| MuxLoop.Loop.CatchUp | jasper/mux.py:382-384 | The next patrol is the first instant of its phase after now. |
| MuxLoop.Loop.Pass | jasper/mux.py:336-397 | One turn hands over everything notified before it, reconciles at most once and never for nothing, and keeps the patrol's phase. |
| MuxLoop.Loop.Run | jasper/mux.py:336-397 | At the wait the wake event is set exactly when the dirty set is nonempty, in every run. |
| MuxLoop.EveryAlertIsReconciled | jasper/mux.py:376-393 | Each notification is taken by exactly one reconcile, which was told its source and knew it answered an alert. |
| MuxLoop.NothingIsInvented | jasper/mux.py:376-393 | A source named to a reconcile was notified since the one before. |
| InputGate.WakeLoop.CheckInputAdmission | jasper/voice_daemon.py:1558-1564 | Admission is open if and only if the microphone is neither muted nor in a measurement and the epoch is current. |
| InputGate.WakeLoop.InvalidateInput | jasper/voice_daemon.py:747-757 | An edge revokes what the live turn has queued, drops everything held, suspends every source and moves admission past every earlier epoch. |
| InputGate.WakeLoop.CaptureInput | jasper/voice_daemon.py:708-724 | A gap resets the leg's detector and drops what it had buffered, ring and pre-roll. |
| InputGate.WakeLoop.PrimaryFrame | jasper/voice_daemon.py:571-613 | Exactly where one frame of the room microphone goes: nowhere, the pre-roll, an acquisition, wake detection or the live turn, which takes what it is given. |
| InputGate.WakeLoop.ManualMicFrame | jasper/voice_daemon.py:636-654 | A push-to-talk frame reaches an acquisition or turn only if admitted and of the active source. |
| InputGate.WakeLoop.WakeLegFrame | jasper/voice_daemon.py:656-702 | A wake-only leg never adds to a turn's audio. |
| InputGate.WakeLoop.WakeFires | jasper/voice_daemon.py:809-813 | A fire freezes the pre-roll and takes the current epoch. |
| InputGate.WakeLoop.ManualSessionStart | jasper/voice_daemon.py:1254-1304 | Exactly when a press is taken; it moves admission but keeps the pre-roll. |
| InputGate.WakeLoop.PopAcquire | jasper/audio_control/audio_buffer.py:64-73 | A pop drops the aged prefix and returns the next frame. |
| InputGate.WakeLoop.DrainOne | jasper/voice_daemon.py:1172-1193 | Draining hands the turn the oldest frame that has not aged out, and nothing while the microphone is closed. |
| InputGate.WakeLoop.SendQueued | jasper/voice/openai_live_session.py:140-165 | The n-th frame an open turn puts on the wire is the n-th frame it heard, captured after the latest edge, with the microphone open. |
| InputGate.WakeLoop.SendMany | jasper/voice/openai_live_session.py:140-165 | So n sends of an open turn put the first n frames it heard on the wire, in order, and enough of them all. |
| InputGate.NewestKeepsTheLast | jasper/audio_control/audio_buffer.py:45-62 | A full buffer loses its oldest frames and nothing else. |
| InputGate.UnagedDropsTheAged | jasper/audio_control/audio_buffer.py:64-69 | What ages out is the longest run of aged frames at the front. |
| InputGate.WakeLoop.Run | jasper/voice_daemon.py:571-784 | Over every interleaving nothing held or queued predates the latest edge, every leg fed since has been reset, whatever a turn heard or sent was captured after the edge then latest, what the live turn has heard is what it sent and still has queued, an edge silences it for good, and an epoch taken before an edge is never admitted again. |
| InputGate.WakeLoop.SendPreRoll | jasper/voice/turn_lifecycle.py:246-253 | The pre-roll goes out frame by frame only while admission has not moved. |
| InputGate.WakeLoop.BeginTurn | jasper/voice_daemon.py:1519-1556 | A turn opens if and only if the output episode and connection come up, the microphone was open, the acquisition's epoch current, and admission has not moved by the end; then the whole pre-roll, all of it captured after the latest edge, has been handed over in order and, while the adopted turn is the live one, is on the wire or queued in order. One that does not open leaves no turn and no acquisition. |
| NamePatch.SanitizedIsLabel | deploy/usbsink/uac2_name_patch.py:81-91 | Every name becomes a non-empty label of at most 14 allowed characters, words kept apart by one space. |
| NamePatch.LabelsAreFixed | deploy/usbsink/uac2_name_patch.py:81-91 | The names left alone are exactly the labels. |
| NamePatch.DisallowedIsDropped | deploy/usbsink/uac2_name_patch.py:88 | Exactly the disallowed characters are dropped, wherever they stand, so the label does not depend on them. |
| NamePatch.WordsKeepCharacters | deploy/usbsink/uac2_name_patch.py:89 | Splitting a name into words loses nothing but spaces. |
| NamePatch.SanitizeIsIdempotent | deploy/usbsink/uac2_name_patch.py:81-91 | Sanitising twice is sanitising once. |
| NamePatch.SanitizeKeepsWords | deploy/usbsink/uac2_name_patch.py:81-91 | Collapsing keeps the words, and the label is the collapsed name, or its first 14 characters less a final space, or the default for an empty one. |
| NamePatch.MicrophoneIsLabel | deploy/usbsink/uac2_name_patch.py:94-108 | The capture label is the playback one, or its first 10 characters less a final space, followed by " Mic". |
| NamePatch.SlotsAreDisjoint | deploy/usbsink/uac2_name_patch.py:50-64 | Two different stock strings never share a byte. |
| NamePatch.PatchOne | deploy/usbsink/uac2_name_patch.py:155-179 | One stock string is classified by its occurrences in the stock blob and rewritten only if there is one. |
| NamePatch.PatchModuleBytes | deploy/usbsink/uac2_name_patch.py:141-188 | Length and every byte outside the once-occurring slots are kept, the three lists report exactly once, never and more often in order, and every once-occurring playback string reads back as the label, every capture string as the label's start and " Mic". |
| NamePatch.OkIffEachOnce | deploy/usbsink/uac2_name_patch.py:132-138 | A result is ok if and only if each of the four strings occurs exactly once. |
| NamePatch.ReportedIff | deploy/usbsink/uac2_name_patch.py:155-179 | A stock string is in the list of its own outcome and in no other. |

## Left out

- Sequence numbers and frame positions are unbounded: the 64-bit wrap after 2^64 publishes is not modelled, nor slot indexing across it when n_slots does not divide 2^64. Refill arithmetic and file sizes do wrap.
- Release/acquire pairs are atomic publications; weaker orderings, and the one torn slot of a reader resuming in the middle of a free-run store (documented at c/jts-ring-ioplug/jts_ring_shm.c:1065-1071), are not part of the step model.
- RingCalls.Writer.Publish: the waits are a sequence of liveness samples; sleeping and the heartbeat arithmetic behind a sample are not modelled.
- RingCalls.OpenReader: two readers that both pass the guard before either stamps are not modelled; the source calls that guard best-effort. Runs have one reader at a time.
- RingOpen: openers of one path run one after another, as the open lock makes them; the bounded lock wait and the waits for size and magic are single steps, and permission repair is left out.
- WriterLock.AtMostOneWriter: the path on which the lock file cannot be used at all, pid reuse, removal of the ring file itself, and writers of the Rust ring are not modelled.
- PointerCore: sampling occupancy from the ring, the pace log throttle (c/jts-ring-ioplug/jts_ring_shm.h:626) and the poll timer cadence are left out.
- RingSteps.InterleavingsAreFifo: the free-run branch is excluded here and is the subject of `RingCalls`.
- Mux.Mux.TransitionTo: what the volume coordinator does is environment; it may refuse or raise.
- The ALSA plugin, the Rust ring, fan-in internals and outputd are environment.
- Mux: renderer I/O, the AirPlay cleanup itself, volume coordination, persistence formats, socket serving, status payloads and logging. One tick or control verb is one step, so a manual pin landing between a tick's decision and its lock (jasper/mux.py:606-608), or a test claim taken between a return to automatic mode's observation and its lock (jasper/mux.py:719-726), is not interleaved; an observation itself does not raise; overlapping gate commands are the subject of `GateCommands`.
- MuxLoop.Loop.Pass: the reconcile is any call that may alert, take time or raise; shutdown and the control server are left out, and a wait may end early. An alert whose reconcile raises has been handed over and is not retried before the next alert or patrol.
- FanIn.Daemon.SetGate: a command whose answer is lost lands at once or never; one that lands late is part of `GateCommands`.
- GateCommands: commands reach fan-in in the order they begin.
- InputGate: the monotonic clock is taken to grow strictly between two readings, which the comparison of epochs rests on; frames carry true capture stamps and frame bodies are atomic, so an edge that lands in an await between a session frame's gate and its send (jasper/voice_daemon.py:1110-1148) is not interleaved; detection scores, endpointing, discontinuity marks and drop counters, audio conversion, output episodes and what ends a turn, the bound of a turn's queue at which a sender waits, and the silence a turn sends of its own (jasper/voice/openai_live_session.py:113-190) are left out, as are frames from a microphone that reports no stamp.
- NamePatch: reading and writing files, the exit codes and the summary line (deploy/usbsink/uac2_name_patch.py:191-236).
- Configuration parsing, correction and corpus scripts, packaging and documentation checks: no hard property.
