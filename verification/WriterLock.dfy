/**
  Writer exclusivity (c/jts-ring-ioplug/jts_ring_shm.c, jts_ring_writer_open and close): the lock
  file opened and then locked for the life of a mapping, the heartbeat guard behind it, and the
  attach stamps, one system call or header access at a time. Processes open, publish, close and die
  in any interleaving, and an outsider may remove the lock file at any moment.
 */
module WriterLock {
  const LIVENESS_TIMEOUT_NS: nat := 2_000_000_000

  type Handle = nat
  type Pid = x: int | x > 0 witness 1

  // Where one writer mapping stands.
  datatype Pc =
    | Mapped          // ring_mapping_open has returned; no claim yet
    | Opened          // the lock file is open, not yet locked
    | Locked          // holds the lock of the file it opened
    | Passed          // the heartbeat guard found no live foreign writer
    | SeqLoaded       // write_seq copied to the local mirror
    | EpochLoaded     // writer_epoch read
    | EpochStored     // and stored one higher
    | PidStored
    | Open
    | PidRead(mine: bool)   // close has compared the stamped pid with its own
    | PidCleared
    | Unmapped        // the mapping is gone, the lock still held

  datatype Mapping = Mapping(pid: Pid, pc: Pc, file: nat, writeSeq: nat, epoch: nat)

  datatype Header = Header(writeSeq: nat, epoch: nat, pid: nat, heartbeat: nat)

  // `lockFile` is the file the lock path names, made on demand; a lock belongs to a file.
  datatype State = State(
    header: Header, now: nat,
    lockFile: nat, holders: map<nat, Handle>,
    mappings: map<Handle, Mapping>,
    stamps: nat)      // history: how many opens have stored the epoch

  datatype Step =
    | Tick(ns: nat)
    | OpenMapping(h: Handle, pid: Pid)
    | OpenLockFile(h: Handle)
    | TakeLock(h: Handle)
    | RefuseLock(h: Handle)       // the bounded wait ran out against a holder
    | CheckHeartbeat(h: Handle)
    | LoadWriteSeq(h: Handle)
    | LoadEpoch(h: Handle)
    | StoreEpoch(h: Handle)
    | StorePid(h: Handle)
    | StoreHeartbeat(h: Handle)
    | Publish(h: Handle)
    | ReadPid(h: Handle)
    | ClearPid(h: Handle)
    | Unmap(h: Handle)
    | Release(h: Handle)
    | Crash(pid: Pid)
    | UnlinkLockFile              // an outsider removes the lock file

  predicate At(s: State, h: Handle, pc: Pc) { h in s.mappings && s.mappings[h].pc == pc }

  predicate Enabled(s: State, step: Step) {
    match step
    case Tick(_) => true
    case OpenMapping(h, _) => h !in s.mappings
    case OpenLockFile(h) => At(s, h, Mapped)
    case TakeLock(h) => At(s, h, Opened) && s.mappings[h].file !in s.holders
    case RefuseLock(h) => At(s, h, Opened) && s.mappings[h].file in s.holders
    case CheckHeartbeat(h) => At(s, h, Locked)
    case LoadWriteSeq(h) => At(s, h, Passed)
    case LoadEpoch(h) => At(s, h, SeqLoaded)
    case StoreEpoch(h) => At(s, h, EpochLoaded)
    case StorePid(h) => At(s, h, EpochStored)
    case StoreHeartbeat(h) => At(s, h, PidStored)
    case Publish(h) => At(s, h, Open)
    case ReadPid(h) => At(s, h, Open)
    case ClearPid(h) => h in s.mappings && s.mappings[h].pc.PidRead?
    case Unmap(h) => At(s, h, PidCleared)
    case Release(h) => At(s, h, Unmapped)
    case Crash(_) => true
    case UnlinkLockFile => true
  }

  predicate ForeignWriterLive(s: State, own: Pid) {
    && s.header.pid != 0 && s.header.pid != own && s.header.heartbeat != 0
    && (if s.now > s.header.heartbeat then s.now - s.header.heartbeat else 0) < LIVENESS_TIMEOUT_NS
  }

  function Put(s: State, h: Handle, m: Mapping): State { s.(mappings := s.mappings[h := m]) }

  function Move(s: State, h: Handle, pc: Pc): State
    requires h in s.mappings
  {
    Put(s, h, s.mappings[h].(pc := pc))
  }

  // A mapping goes, with whatever lock it held.
  function Drop(s: State, gone: set<Handle>): State {
    s.(mappings := map h | h in s.mappings && h !in gone :: s.mappings[h],
       holders := map f | f in s.holders && s.holders[f] !in gone :: s.holders[f])
  }

  function Apply(s: State, step: Step): State
    requires Enabled(s, step)
  {
    match step
    case Tick(ns) => s.(now := s.now + ns)
    case OpenMapping(h, pid) => Put(s, h, Mapping(pid, Mapped, 0, 0, 0))
    case OpenLockFile(h) => Put(s, h, s.mappings[h].(pc := Opened, file := s.lockFile))
    case TakeLock(h) => Move(s, h, Locked).(holders := s.holders[s.mappings[h].file := h])
    case RefuseLock(h) => Drop(s, {h})
    case CheckHeartbeat(h) =>
      if ForeignWriterLive(s, s.mappings[h].pid) then Drop(s, {h}) else Move(s, h, Passed)
    case LoadWriteSeq(h) => Put(s, h, s.mappings[h].(pc := SeqLoaded, writeSeq := s.header.writeSeq))
    case LoadEpoch(h) => Put(s, h, s.mappings[h].(pc := EpochLoaded, epoch := s.header.epoch))
    case StoreEpoch(h) =>
      var next := s.mappings[h].epoch + 1;
      Put(s, h, s.mappings[h].(pc := EpochStored, epoch := next)).(header := s.header.(epoch := next), stamps := s.stamps + 1)
    case StorePid(h) => Move(s, h, PidStored).(header := s.header.(pid := s.mappings[h].pid))
    case StoreHeartbeat(h) => Move(s, h, Open).(header := s.header.(heartbeat := s.now))
    case Publish(h) =>
      var next := s.mappings[h].writeSeq + 1;
      Put(s, h, s.mappings[h].(writeSeq := next)).(header := s.header.(writeSeq := next, heartbeat := s.now))
    case ReadPid(h) => Move(s, h, PidRead(s.header.pid == s.mappings[h].pid))
    case ClearPid(h) =>
      Move(s, h, PidCleared).(header := if s.mappings[h].pc.mine then s.header.(pid := 0) else s.header)
    case Unmap(h) => Move(s, h, Unmapped)
    case Release(h) => Drop(s, {h})
    case Crash(pid) => Drop(s, set h | h in s.mappings && s.mappings[h].pid == pid)
    case UnlinkLockFile => s.(lockFile := s.lockFile + 1)
  }

  // ----- the invariant --------------------------------------------------------------------

  // How far an open has come.
  function Rank(pc: Pc): nat {
    match pc
    case Mapped => 0 case Opened => 1 case Locked => 2 case Passed => 3 case SeqLoaded => 4 case EpochLoaded => 5
    case EpochStored => 6 case PidStored => 7 case Open => 8 case PidRead(_) => 9 case PidCleared => 10 case Unmapped => 11
  }

  predicate Holding(m: Mapping) { Rank(m.pc) >= 2 }

  // It has the lock file open and a mapping it may go on to write through, or already does.
  predicate Claiming(m: Mapping) { 1 <= Rank(m.pc) < 11 }

  // It has stamped itself the writer and still has the ring mapped.
  predicate Stamped(m: Mapping) { 6 <= Rank(m.pc) < 11 }

  predicate Holds(s: State, h: Handle)
    requires h in s.mappings
  {
    s.mappings[h].file in s.holders && s.holders[s.mappings[h].file] == h
  }

  // Locks and files: whoever is past its lock holds it, and every claim is on the file at the path.
  predicate Locking(s: State) {
    && (forall f :: f in s.holders ==> f <= s.lockFile)
    && (forall f :: f in s.holders ==> s.holders[f] in s.mappings)
    && (forall h :: h in s.mappings && Holding(s.mappings[h]) ==> Holds(s, h))
    && (forall f :: f in s.holders && s.holders[f] in s.mappings ==>
          s.mappings[s.holders[f]].file == f && Holding(s.mappings[s.holders[f]]))
    && (forall h :: h in s.mappings && Claiming(s.mappings[h]) ==> s.mappings[h].file == s.lockFile)
  }

  // What a claimant has read is still what the header says, and its pid stays stamped until its close
  // has cleared it.
  predicate Mirrored(header: Header, m: Mapping) {
    && (4 <= Rank(m.pc) < 11 ==> m.writeSeq == header.writeSeq)
    && (5 <= Rank(m.pc) < 11 ==> m.epoch == header.epoch)
    && (7 <= Rank(m.pc) < 10 ==> m.pid == header.pid) && (m.pc.PidRead? ==> m.pc.mine)
    && (m.pc.PidCleared? ==> header.pid == 0)
  }

  predicate Inv(s: State) {
    && Locking(s)
    && (forall h :: h in s.mappings ==> Mirrored(s.header, s.mappings[h]))
    && s.header.epoch == s.stamps
  }

  // The lock file is not removed while a claimant has it open.
  predicate LockFileKept(s: State, step: Step) {
    step.UnlinkLockFile? ==> forall h :: h in s.mappings && Claiming(s.mappings[h]) ==> s.mappings[h].file != s.lockFile
  }

  // The lock makes a claim past it exclusive.
  lemma OneClaim(s: State, g: Handle, h: Handle)
    requires Locking(s) && g in s.mappings && h in s.mappings
    requires 2 <= Rank(s.mappings[g].pc) < 11 && 2 <= Rank(s.mappings[h].pc) < 11
    ensures g == h
  {
    assert Holds(s, g) && Holds(s, h);
  }

  lemma PutKeepsLocking(s: State, h: Handle, m: Mapping)
    requires Locking(s) && (Claiming(m) ==> m.file == s.lockFile)
    requires if h in s.mappings && Holding(s.mappings[h]) then Holding(m) && m.file == s.mappings[h].file else !Holding(m)
    ensures Locking(Put(s, h, m))
  {
  }

  lemma DropKeepsLocking(s: State, gone: set<Handle>)
    requires Locking(s)
    ensures Locking(Drop(s, gone))
  {
  }

  lemma TakeKeepsLocking(s: State, h: Handle)
    requires Locking(s) && Enabled(s, TakeLock(h))
    ensures Locking(Apply(s, TakeLock(h)))
  {
  }

  lemma UnlinkKeepsLocking(s: State)
    requires Locking(s) && LockFileKept(s, UnlinkLockFile)
    ensures Locking(Apply(s, UnlinkLockFile))
  {
  }

  lemma SameLocks(s: State, e: State)
    requires Locking(s) && e.lockFile == s.lockFile && e.holders == s.holders && e.mappings == s.mappings
    ensures Locking(e)
  {
  }

  lemma StepKeepsLocking(s: State, step: Step)
    requires Locking(s) && Enabled(s, step) && LockFileKept(s, step)
    ensures Locking(Apply(s, step))
  {
    var e := Apply(s, step);
    match step
    case UnlinkLockFile => UnlinkKeepsLocking(s);
    case TakeLock(h) => TakeKeepsLocking(s, h);
    case RefuseLock(h) => DropKeepsLocking(s, {h});
    case Release(h) => DropKeepsLocking(s, {h});
    case Crash(pid) => DropKeepsLocking(s, set h | h in s.mappings && s.mappings[h].pid == pid);
    case CheckHeartbeat(h) =>
      DropKeepsLocking(s, {h});
      AdvanceKeepsLocking(s, h, Passed);
    case Tick(_) => SameLocks(s, e);
    case OpenMapping(h, pid) => PutKeepsLocking(s, h, Mapping(pid, Mapped, 0, 0, 0));
    case OpenLockFile(h) => PutKeepsLocking(s, h, s.mappings[h].(pc := Opened, file := s.lockFile));
    case _ => WorkKeepsLocking(s, step);
  }

  lemma AdvanceKeepsLocking(s: State, h: Handle, pc: Pc)
    requires Locking(s) && h in s.mappings && Holding(s.mappings[h]) && Claiming(s.mappings[h]) && Rank(pc) >= 2
    ensures Locking(Move(s, h, pc))
  {
    hide Locking;
    assert s.mappings[h].file == s.lockFile by { ClaimsThePath(s, h); }
    PutKeepsLocking(s, h, s.mappings[h].(pc := pc));
  }

  lemma ClaimsThePath(s: State, h: Handle)
    requires Locking(s) && h in s.mappings && Claiming(s.mappings[h])
    ensures s.mappings[h].file == s.lockFile
  {
  }

  // The steps a lock holder takes on its mapping and the header.
  lemma WorkKeepsLocking(s: State, step: Step)
    requires Locking(s) && Enabled(s, step)
    requires step.LoadWriteSeq? || step.LoadEpoch? || step.StoreEpoch? || step.StorePid? || step.StoreHeartbeat?
             || step.Publish? || step.ReadPid? || step.ClearPid? || step.Unmap?
    ensures Locking(Apply(s, step))
  {
    hide Locking;
    var e, h := Apply(s, step), step.h;
    ClaimsThePath(s, h);
    PutKeepsLocking(s, h, e.mappings[h]);
    SameLocks(Put(s, h, e.mappings[h]), e);
  }

  // A step that stores neither counter nor pid leaves the mirrors in step; a load only brings one there.
  lemma ReadersKeepMirrors(s: State, step: Step, h: Handle)
    requires Inv(s) && Enabled(s, step) && h in Apply(s, step).mappings
    requires !step.StoreEpoch? && !step.Publish? && !step.StorePid? && !step.ClearPid?
    ensures Mirrored(Apply(s, step).header, Apply(s, step).mappings[h])
  {
    hide Locking;
    assert h in s.mappings ==> Mirrored(s.header, s.mappings[h]);
  }

  // A step that stores one keeps its own mirror in step, and nobody else is past a lock.
  lemma StepKeepsMirrors(s: State, step: Step, h: Handle)
    requires Inv(s) && Enabled(s, step) && h in Apply(s, step).mappings
    ensures Mirrored(Apply(s, step).header, Apply(s, step).mappings[h])
  {
    if step.StoreEpoch? || step.Publish? || step.StorePid? || step.ClearPid? {
      assert h in s.mappings && Mirrored(s.header, s.mappings[h]);
      if 2 <= Rank(s.mappings[h].pc) < 11 { OneClaim(s, h, step.h); }
    } else {
      ReadersKeepMirrors(s, step, h);
    }
  }

  /** Exclusivity is what keeps the header in step with its one writer's mirror, and the epoch with
      the number of stamps: without the lock neither store is a step on what is stored. */
  lemma StepKeepsInv(s: State, step: Step)
    requires Inv(s) && Enabled(s, step) && LockFileKept(s, step)
    ensures Inv(Apply(s, step))
  {
    StepKeepsLocking(s, step);
    hide Locking, LockFileKept;
    var e := Apply(s, step);
    forall h | h in e.mappings ensures Mirrored(e.header, e.mappings[h]) {
      StepKeepsMirrors(s, step, h);
    }
    if step.StoreEpoch? { assert Mirrored(s.header, s.mappings[step.h]); }
  }

  /** Only the lock holder writes the header, and only after both guards: every step of an open that
      ends in a refusal leaves every header field alone. */
  lemma OnlyStampingWritersTouchHeader(s: State, step: Step)
    requires Inv(s) && Enabled(s, step)
    ensures Apply(s, step).header != s.header ==>
              && (step.StoreEpoch? || step.StorePid? || step.StoreHeartbeat? || step.Publish? || step.ClearPid?)
              && Holds(s, step.h) && Rank(s.mappings[step.h].pc) >= 5
  {
  }

  /** No store takes a counter back: a publish raises the one, an epoch store the other, by exactly one. */
  lemma StepNeverRewinds(s: State, step: Step)
    requires Inv(s) && Enabled(s, step)
    ensures var e := Apply(s, step);
            && e.header.writeSeq == s.header.writeSeq + (if step.Publish? then 1 else 0)
            && e.header.epoch == s.header.epoch + if step.StoreEpoch? then 1 else 0
  {
    if step.StoreEpoch? || step.Publish? { assert Mirrored(s.header, s.mappings[step.h]); }
  }

  // Two opens past the lock at once can share one epoch between two stamps.
  lemma TwoStores(s: State, g: Handle, h: Handle)
    requires g != h && At(s, g, EpochLoaded) && At(s, h, EpochLoaded)
    requires s.mappings[g].epoch == s.mappings[h].epoch == s.header.epoch
    ensures var e := Apply(Apply(s, StoreEpoch(g)), StoreEpoch(h));
            e.stamps == s.stamps + 2 && e.header.epoch == s.header.epoch + 1
  {
  }

  // ----- runs -----------------------------------------------------------------------------

  predicate Init(s: State) {
    s.header == Header(0, 0, 0, 0) && s.holders == map[] && s.mappings == map[] && s.stamps == 0
  }

  function Run(s: State, steps: seq<Step>): State {
    if steps == [] then s else
    var before := Run(s, steps[..|steps| - 1]);
    if Enabled(before, steps[|steps| - 1]) then Apply(before, steps[|steps| - 1]) else before
  }

  // No step of the run removes the lock file under a claimant.
  predicate LockFileSafe(s: State, steps: seq<Step>) {
    steps == [] || (LockFileSafe(s, steps[..|steps| - 1])
                    && LockFileKept(Run(s, steps[..|steps| - 1]), steps[|steps| - 1]))
  }

  predicate OneWriter(s: State) {
    forall g, h :: g in s.mappings && h in s.mappings && Stamped(s.mappings[g]) && Stamped(s.mappings[h]) ==> g == h
  }

  lemma {:induction false} RunKeepsInv(s: State, steps: seq<Step>)
    requires Inv(s) && LockFileSafe(s, steps)
    ensures Inv(Run(s, steps))
  {
    if steps != [] {
      var prefix, step := steps[..|steps| - 1], steps[|steps| - 1];
      RunKeepsInv(s, prefix);
      if Enabled(Run(s, prefix), step) { StepKeepsInv(Run(s, prefix), step); }
    }
  }

  lemma InvMeansOneWriter(s: State)
    requires Inv(s)
    ensures OneWriter(s)
  {
    forall g, h | g in s.mappings && h in s.mappings && Stamped(s.mappings[g]) && Stamped(s.mappings[h]) ensures g == h {
      OneClaim(s, g, h);
    }
  }

  /** In every interleaving whose unlinks spare claimants, at most one mapping is stamped; it continues
      from the ring's own write_seq, and the epoch counts the stamps. */
  lemma AtMostOneWriter(s: State, steps: seq<Step>)
    requires Init(s) && LockFileSafe(s, steps)
    ensures var e := Run(s, steps);
            && OneWriter(e) && e.header.epoch == e.stamps
            && (forall h :: h in e.mappings && Stamped(e.mappings[h]) ==>
                  e.mappings[h].writeSeq == e.header.writeSeq && e.mappings[h].epoch == e.stamps)
  {
    RunKeepsInv(s, steps);
    var e := Run(s, steps);
    InvMeansOneWriter(e);
    assert forall h :: h in e.mappings && Stamped(e.mappings[h]) ==> Mirrored(e.header, e.mappings[h]);
  }

  /** write_seq and writer_epoch never go back, across any number of writer generations. */
  lemma {:induction false} CountersNeverRewind(s: State, steps: seq<Step>, more: seq<Step>)
    requires Init(s) && LockFileSafe(s, steps + more)
    ensures Run(s, steps).header.writeSeq <= Run(s, steps + more).header.writeSeq
    ensures Run(s, steps).header.epoch <= Run(s, steps + more).header.epoch
  {
    if more == [] {
      assert steps + more == steps;
    } else {
      var all, shorter := steps + more, more[..|more| - 1];
      assert all[..|all| - 1] == steps + shorter;
      CountersNeverRewind(s, steps, shorter);
      RunKeepsInv(s, steps + shorter);
      if Enabled(Run(s, steps + shorter), all[|all| - 1]) {
        StepNeverRewinds(Run(s, steps + shorter), all[|all| - 1]);
      }
    }
  }

  /** With the lock file in place a paused holder keeps its ring for as long as it likes: no opener
      gets past the lock, whatever the heartbeat says; it is refused and leaves no trace. */
  lemma PausedWriterKeepsRing(s: State, h: Handle, g: Handle)
    requires Inv(s) && At(s, h, Open) && g in s.mappings && g != h && !s.mappings[g].pc.Unmapped?
    ensures Rank(s.mappings[g].pc) <= 1 && !Enabled(s, TakeLock(g))
    ensures At(s, g, Opened) ==>
              && Enabled(s, RefuseLock(g))
              && Apply(s, RefuseLock(g)) == s.(mappings := s.mappings - {g})
  {
    if Rank(s.mappings[g].pc) >= 2 { OneClaim(s, g, h); }
    assert Holds(s, h);
    if At(s, g, Opened) { HoldsNothing(s, g); }
  }

  lemma HoldsNothing(s: State, g: Handle)
    requires Locking(s) && g in s.mappings && !Holding(s.mappings[g])
    ensures Drop(s, {g}) == s.(mappings := s.mappings - {g})
  {
    assert Drop(s, {g}).holders == s.holders;
    assert Drop(s, {g}).mappings == s.mappings - {g};
  }

  /** A close clears its own stamp, frees the lock, and leaves the counters to the next writer. */
  lemma CloseFreesRing(s: State, h: Handle)
    requires Inv(s) && At(s, h, Open)
    ensures var read := Apply(s, ReadPid(h));
            var unmapped := Apply(Apply(read, ClearPid(h)), Unmap(h));
            var e := Apply(unmapped, Release(h));
            && e.header == s.header.(pid := 0)
            && e.mappings == s.mappings - {h} && s.mappings[h].file !in e.holders
  {
    assert Holds(s, h) && Mirrored(s.header, s.mappings[h]);
  }

  /** A process that dies holds nothing: its mappings are gone, everyone else's stay, and whoever waits for
      a lock of its can take it. */
  lemma DeathFreesLocks(s: State, pid: Pid, h: Handle, g: Handle)
    requires Inv(s) && h in s.mappings && s.mappings[h].pid == pid && Holding(s.mappings[h])
    requires At(s, g, Opened) && s.mappings[g].pid != pid && s.mappings[g].file == s.mappings[h].file
    ensures !Enabled(s, TakeLock(g)) && Enabled(Apply(s, Crash(pid)), TakeLock(g))
    ensures var e := Apply(s, Crash(pid));
            && e.header == s.header
            && forall k :: if k in e.mappings then k in s.mappings && e.mappings[k] == s.mappings[k] && e.mappings[k].pid != pid
                           else k !in s.mappings || s.mappings[k].pid == pid
  {
    assert Holds(s, h);
  }

  // ----- the heartbeat guard on its own ---------------------------------------------------

  /** A clean close leaves the ring free at once: the guard stops nobody. */
  lemma ClosedRingIsFree(s: State, h: Handle, own: Pid)
    requires Inv(s) && At(s, h, PidCleared)
    ensures s.header.pid == 0 && !ForeignWriterLive(s, own)
  {
    assert Mirrored(s.header, s.mappings[h]);
  }

  // h is the open writer of its process; everyone else is short of passing the guard, or on the way out.
  predicate Guarded(s: State, h: Handle) {
    && At(s, h, Open) && s.now > 0 && s.header.heartbeat > 0
    && s.header.pid == s.mappings[h].pid && s.header.writeSeq == s.mappings[h].writeSeq
    && forall g :: g in s.mappings && g != h ==> Outside(s.mappings[g], s.mappings[h].pid)
  }

  predicate Outside(m: Mapping, pid: Pid) { m.pid != pid && (Rank(m.pc) <= 2 || m.pc.Unmapped?) }

  // The step neither closes nor kills h, nor opens its ring again from within its process.
  predicate Spares(s: State, h: Handle, step: Step)
    requires h in s.mappings
  {
    && step != ReadPid(h) && step != Crash(s.mappings[h].pid)
    && (step.OpenMapping? ==> step.pid != s.mappings[h].pid)
  }

  lemma GuardHolds(s: State, h: Handle, step: Step)
    requires Guarded(s, h) && Enabled(s, step) && Spares(s, h, step)
    requires step.CheckHeartbeat? ==> s.now < s.header.heartbeat + LIVENESS_TIMEOUT_NS
    ensures Guarded(Apply(s, step), h)
    ensures Apply(s, step).header.heartbeat == if step == Publish(h) then s.now else s.header.heartbeat
  {
    var e, pid := Apply(s, step), s.mappings[h].pid;
    forall g | g in e.mappings && g != h ensures Outside(e.mappings[g], pid) {
      StaysOutside(s, h, step, g);
    }
    hide Outside;
  }

  lemma StaysOutside(s: State, h: Handle, step: Step, g: Handle)
    requires Guarded(s, h) && Enabled(s, step) && Spares(s, h, step) && g != h && g in Apply(s, step).mappings
    requires step.CheckHeartbeat? ==> s.now < s.header.heartbeat + LIVENESS_TIMEOUT_NS
    ensures Outside(Apply(s, step).mappings[g], s.mappings[h].pid)
  {
    if g in s.mappings { assert Outside(s.mappings[g], s.mappings[h].pid); }
  }

  // When h last published in a run, or `since` if it has not.
  function LastBeat(s: State, steps: seq<Step>, h: Handle, since: nat): nat {
    if steps == [] then since else
    var prefix, step := steps[..|steps| - 1], steps[|steps| - 1];
    if step == Publish(h) && Enabled(Run(s, prefix), step) then Run(s, prefix).now
    else LastBeat(s, prefix, h, since)
  }

  // h is left alone, and whoever comes to the guard comes within the timeout of its last beat.
  predicate Undisturbed(s: State, steps: seq<Step>, h: Handle, since: nat) {
    if steps == [] then true else
    var prefix, step := steps[..|steps| - 1], steps[|steps| - 1];
    && Undisturbed(s, prefix, h, since)
    && var before := Run(s, prefix);
       && h in before.mappings && Spares(before, h, step)
       && (step.CheckHeartbeat? ==> before.now < LastBeat(s, prefix, h, since) + LIVENESS_TIMEOUT_NS)
  }

  lemma {:induction false} GuardHoldsThroughout(s: State, steps: seq<Step>, h: Handle)
    requires Guarded(s, h) && Undisturbed(s, steps, h, s.header.heartbeat)
    ensures Guarded(Run(s, steps), h)
    ensures Run(s, steps).header.heartbeat == LastBeat(s, steps, h, s.header.heartbeat)
  {
    if steps != [] {
      var prefix, step := steps[..|steps| - 1], steps[|steps| - 1];
      GuardHoldsThroughout(s, prefix, h);
      hide Guarded, Apply, Spares;
      if Enabled(Run(s, prefix), step) { GuardHolds(Run(s, prefix), h, step); }
    }
  }

  lemma OpenIsGuarded(s: State, h: Handle)
    requires Inv(s) && At(s, h, PidStored) && s.now > 0
    requires forall g :: g in s.mappings && g != h ==> s.mappings[g].pid != s.mappings[h].pid
    ensures Guarded(Apply(s, StoreHeartbeat(h)), h)
    ensures Apply(s, StoreHeartbeat(h)).header.heartbeat == s.now
  {
    assert Mirrored(s.header, s.mappings[h]);
    forall g | g in s.mappings && g != h ensures Outside(s.mappings[g], s.mappings[h].pid) {
      if 2 <= Rank(s.mappings[g].pc) < 11 { OneClaim(s, g, h); }
    }
    hide Inv;
  }

  lemma GuardedIsOneWriter(s: State, h: Handle)
    requires Guarded(s, h)
    ensures At(s, h, Open) && OneWriter(s)
    ensures s.header.pid == s.mappings[h].pid && s.header.writeSeq == s.mappings[h].writeSeq
  {
    forall g | g in s.mappings && Stamped(s.mappings[g]) ensures g == h {
      assert g != h ==> Outside(s.mappings[g], s.mappings[h].pid);
    }
  }

  /** An open writer that keeps publishing keeps its ring even with the lock file gone, however often it
      is removed: from the heartbeat store of its open on, no other process gets past the guard as long
      as each comes there within the timeout of the writer's last publish. */
  lemma {:induction false} HeartbeatKeepsOthersOut(s: State, h: Handle, steps: seq<Step>)
    requires Inv(s) && At(s, h, PidStored) && s.now > 0
    requires forall g :: g in s.mappings && g != h ==> s.mappings[g].pid != s.mappings[h].pid
    requires Undisturbed(Apply(s, StoreHeartbeat(h)), steps, h, s.now)
    ensures var e := Run(Apply(s, StoreHeartbeat(h)), steps);
            && At(e, h, Open) && OneWriter(e)
            && e.header.pid == e.mappings[h].pid && e.header.writeSeq == e.mappings[h].writeSeq
  {
    OpenIsGuarded(s, h);
    hide Guarded, Apply, Inv, OneWriter, Run, Undisturbed;
    GuardHoldsThroughout(Apply(s, StoreHeartbeat(h)), steps, h);
    GuardedIsOneWriter(Run(Apply(s, StoreHeartbeat(h)), steps), h);
  }

  // ----- and no weaker condition will do --------------------------------------------------

  // e can be reached from s without any further removal of the lock file.
  ghost predicate Reaches(s: State, e: State) {
    exists steps :: Unlinkless(steps) && Run(s, steps) == e
  }

  predicate Unlinkless(steps: seq<Step>) { forall i :: 0 <= i < |steps| ==> !steps[i].UnlinkLockFile? }

  lemma ReachStep(s: State, m: State, step: Step)
    requires Reaches(s, m) && Enabled(m, step) && !step.UnlinkLockFile?
    ensures Reaches(s, Apply(m, step))
  {
    var steps :| Unlinkless(steps) && Run(s, steps) == m;
    assert (steps + [step])[..|steps|] == steps;
    assert Unlinkless(steps + [step]) && Run(s, steps + [step]) == Apply(m, step);
  }

  lemma ReachSelf(s: State)
    ensures Reaches(s, s)
  {
    assert Unlinkless([]) && Run(s, []) == s;
  }

  lemma {:induction false} UnlinklessIsSafe(s: State, steps: seq<Step>)
    requires Unlinkless(steps)
    ensures LockFileSafe(s, steps)
  {
    if steps != [] { UnlinklessIsSafe(s, steps[..|steps| - 1]); }
  }

  predicate HeartbeatStale(s: State) { s.now >= s.header.heartbeat + LIVENESS_TIMEOUT_NS }

  // The next step of an open.
  function NextStep(h: Handle, pc: Pc): Step
    requires 1 <= Rank(pc) < 6
  {
    match pc
    case Opened => TakeLock(h)
    case Locked => CheckHeartbeat(h)
    case Passed => LoadWriteSeq(h)
    case SeqLoaded => LoadEpoch(h)
    case _ => StoreEpoch(h)
  }

  // An opener whose lock is free, or already its own, gets as far as its stamp.
  lemma {:induction false} OpenGoesThrough(s0: State, s: State, h: Handle) returns (e: State)
    requires Reaches(s0, s) && HeartbeatStale(s) && h in s.mappings && 1 <= Rank(s.mappings[h].pc) < 11
    requires s.mappings[h].pc == Opened ==> s.mappings[h].file !in s.holders
    ensures Reaches(s0, e) && HeartbeatStale(e) && h in e.mappings && Stamped(e.mappings[h])
    ensures e.mappings == s.mappings[h := e.mappings[h]] && e.lockFile == s.lockFile
    ensures forall f :: f in e.holders ==> f in s.holders || f == s.mappings[h].file
    decreases 6 - Rank(s.mappings[h].pc)
  {
    if Rank(s.mappings[h].pc) >= 6 {
      e := s;
      assert s.mappings == s.mappings[h := s.mappings[h]];
    } else {
      var step := NextStep(h, s.mappings[h].pc);
      var m := Apply(s, step);
      ReachStep(s0, s, step);
      e := OpenGoesThrough(s0, m, h);
    }
  }

  // Or, short of its stamp, as far as having read the epoch.
  lemma {:induction false} OpenLoads(s0: State, s: State, h: Handle) returns (e: State)
    requires Reaches(s0, s) && HeartbeatStale(s) && h in s.mappings && 1 <= Rank(s.mappings[h].pc) < 6
    requires s.mappings[h].pc == Opened ==> s.mappings[h].file !in s.holders
    requires s.mappings[h].pc == EpochLoaded ==> s.mappings[h].epoch == s.header.epoch
    ensures Reaches(s0, e) && HeartbeatStale(e) && At(e, h, EpochLoaded) && e.mappings[h].epoch == e.header.epoch
    ensures e.mappings == s.mappings[h := e.mappings[h]]
    ensures e.lockFile == s.lockFile && e.header == s.header && e.stamps == s.stamps
    ensures forall f :: f in e.holders ==> f in s.holders || f == s.mappings[h].file
    decreases 6 - Rank(s.mappings[h].pc)
  {
    if s.mappings[h].pc == EpochLoaded {
      e := s;
      assert s.mappings == s.mappings[h := s.mappings[h]];
    } else {
      var step := NextStep(h, s.mappings[h].pc);
      ReachStep(s0, s, step);
      e := OpenLoads(s0, Apply(s, step), h);
    }
  }

  lemma FreshHandle(used: set<Handle>) returns (g: Handle)
    ensures forall h :: h in used ==> h < g
  {
    if used == {} {
      g := 0;
    } else {
      var h :| h in used;
      var above := FreshHandle(used - {h});
      g := if above > h then above else h + 1;
      assert forall k :: k in used ==> k == h || k in used - {h};
    }
  }

  // Someone is past the open of the file at the path, and nobody else's lock stands in its way.
  lemma UnblockedClaimant(s0: State, s: State, file: nat, h: Handle) returns (e: State, g: Handle)
    requires Reaches(s0, s) && HeartbeatStale(s) && h in s.mappings && Claiming(s.mappings[h]) && s.mappings[h].file == file
    requires file in s.holders ==>
               && s.holders[file] in s.mappings && s.mappings[s.holders[file]].file == file
               && Holding(s.mappings[s.holders[file]])
    ensures Reaches(s0, e) && HeartbeatStale(e) && e.lockFile == s.lockFile
    ensures g in e.mappings && Claiming(e.mappings[g]) && e.mappings[g].file == file
    ensures e.mappings[g].pc == Opened ==> file !in e.holders
    ensures forall f :: f in e.holders ==> f in s.holders
  {
    if file !in s.holders || s.mappings[h].pc != Opened {
      ReachSelf(s);
      e, g := s, h;
    } else if s.mappings[s.holders[file]].pc != Unmapped {
      e, g := s, s.holders[file];
    } else {
      var step := Release(s.holders[file]);
      ReachStep(s0, s, step);
      e, g := Apply(s, step), h;
    }
  }

  /** Removing the lock file under a claimant voids exclusivity, whether it has locked the file or only
      opened it: without further interference the claimant and a newcomer both end up stamped. */
  lemma UnlinkVoidsExclusivity(s: State, h: Handle)
    requires Inv(s) && h in s.mappings && Claiming(s.mappings[h])
    ensures exists e :: Reaches(Apply(s, UnlinkLockFile), e) && !OneWriter(e)
  {
    var s0 := Apply(s, UnlinkLockFile);
    ReachSelf(s0);
    var wait := Tick(s0.header.heartbeat + LIVENESS_TIMEOUT_NS);
    ReachStep(s0, s0, wait);
    var s1 := Apply(s0, wait);
    var s2, g := UnblockedClaimant(s0, s1, s.lockFile, h);
    var s3 := OpenGoesThrough(s0, s2, g);
    var k, s5 := Newcomer(s0, s3);
    assert s5.mappings[g] == s3.mappings[g] && s5.lockFile == s.lockFile + 1 && s5.lockFile !in s5.holders;
    var e := OpenGoesThrough(s0, s5, k);
    assert g != k && e.mappings[g] == s3.mappings[g];
    assert Reaches(s0, e) && !OneWriter(e);
  }

  // The epoch counts every stamp only as long as they exclude each other: after an unlink under an
  // opener that has yet to stamp, it and a newcomer can share one.
  lemma SharedEpoch(s: State, h: Handle) returns (e: State)
    requires Inv(s) && h in s.mappings && 1 <= Rank(s.mappings[h].pc) < 6
    requires s.mappings[h].pc == Opened ==> s.mappings[h].file !in s.holders
    ensures Reaches(Apply(s, UnlinkLockFile), e)
    ensures e.stamps == s.stamps + 2 && e.header.epoch == s.header.epoch + 1
  {
    var s0 := Apply(s, UnlinkLockFile);
    ReachSelf(s0);
    var wait := Tick(s0.header.heartbeat + LIVENESS_TIMEOUT_NS);
    ReachStep(s0, s0, wait);
    assert Mirrored(s.header, s.mappings[h]);
    var s2 := OpenLoads(s0, Apply(s0, wait), h);
    var k, s4 := Newcomer(s0, s2);
    var s5 := OpenLoads(s0, s4, k);
    assert s5.mappings[h] == s2.mappings[h];
    ReachStep(s0, s5, StoreEpoch(h));
    ReachStep(s0, Apply(s5, StoreEpoch(h)), StoreEpoch(k));
    TwoStores(s5, h, k);
    e := Apply(Apply(s5, StoreEpoch(h)), StoreEpoch(k));
  }

  // Another process opens the ring and the lock file.
  lemma Newcomer(s0: State, s: State) returns (k: Handle, e: State)
    requires Reaches(s0, s) && HeartbeatStale(s)
    ensures k !in s.mappings && Reaches(s0, e) && HeartbeatStale(e) && At(e, k, Opened) && e.mappings[k].file == s.lockFile
    ensures e.mappings == s.mappings[k := e.mappings[k]]
    ensures e.lockFile == s.lockFile && e.holders == s.holders && e.header == s.header && e.stamps == s.stamps
  {
    k := FreshHandle(s.mappings.Keys);
    ReachStep(s0, s, OpenMapping(k, 1));
    var m := Apply(s, OpenMapping(k, 1));
    ReachStep(s0, m, OpenLockFile(k));
    e := Apply(m, OpenLockFile(k));
  }

  /** The exact condition: removing the lock file is harmless, whatever follows short of another such
      removal, if and only if no claimant has it open. */
  lemma UnlinkIsSafeIffUnopened(s: State)
    requires Inv(s)
    ensures LockFileKept(s, UnlinkLockFile)
            <==> forall steps :: LockFileSafe(Apply(s, UnlinkLockFile), steps)
                                 ==> OneWriter(Run(Apply(s, UnlinkLockFile), steps))
  {
    hide Apply, Inv, OneWriter, LockFileSafe, LockFileKept, Run;
    if LockFileKept(s, UnlinkLockFile) {
      KeptUnlinkIsSafe(s);
    } else {
      UnkeptUnlinkIsNot(s);
    }
  }

  lemma UnkeptUnlinkIsNot(s: State)
    requires Inv(s) && !LockFileKept(s, UnlinkLockFile)
    ensures exists steps :: LockFileSafe(Apply(s, UnlinkLockFile), steps) && !OneWriter(Run(Apply(s, UnlinkLockFile), steps))
  {
    var h :| h in s.mappings && Claiming(s.mappings[h]) && s.mappings[h].file == s.lockFile;
    UnlinkVoidsExclusivity(s, h);
    hide Apply, Inv, OneWriter, LockFileSafe, LockFileKept, Run;
    var s0 := Apply(s, UnlinkLockFile);
    var e :| Reaches(s0, e) && !OneWriter(e);
    SafeRunTo(s0, e);
  }

  lemma SafeRunTo(s0: State, e: State)
    requires Reaches(s0, e)
    ensures exists steps :: LockFileSafe(s0, steps) && Run(s0, steps) == e
  {
    hide LockFileSafe, Run;
    var steps :| Unlinkless(steps) && Run(s0, steps) == e;
    UnlinklessIsSafe(s0, steps);
  }

  lemma KeptUnlinkIsSafe(s: State)
    requires Inv(s) && LockFileKept(s, UnlinkLockFile)
    ensures forall steps :: LockFileSafe(Apply(s, UnlinkLockFile), steps)
                            ==> OneWriter(Run(Apply(s, UnlinkLockFile), steps))
  {
    StepKeepsInv(s, UnlinkLockFile);
    hide Inv, OneWriter, LockFileSafe, LockFileKept, Apply;
    var s0 := Apply(s, UnlinkLockFile);
    forall steps | LockFileSafe(s0, steps) ensures OneWriter(Run(s0, steps)) {
      RunKeepsInv(s0, steps);
      InvMeansOneWriter(Run(s0, steps));
    }
  }
}
