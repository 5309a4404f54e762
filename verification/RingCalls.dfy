/**
  The slot ring at the grain of whole publish, consume, resync and attach calls, with a reader whose
  liveness flips arbitrarily (c/jts-ring-ioplug/jts_ring_shm.c). The classes hold the shared header
  and the two endpoint structs; the functions on `RingView` specify them, and the theorems range
  over all runs of calls.
 */
module RingCalls {
  import opened Slots
  import opened Options

  // How many live samples a blocked publish tolerates before it gives up.
  const MAX_FULL_WAIT_TICKS: nat := 32

  datatype RingView = RingView(nSlots: nat, writeSeq: nat, readSeq: nat, slots: seq<Payload>) {
    predicate Full() { writeSeq >= readSeq + nSlots }
  }

  datatype PublishResult = Published | Dropped

  // A reader found dead within the wait budget.
  predicate DeadInBudget(live: nat -> bool) {
    exists i :: 0 <= i <= MAX_FULL_WAIT_TICKS && !live(i)
  }

  // Publish stores unless the ring stays full under a live reader; a dead reader loses its oldest slot.
  function AfterPublish(v: RingView, slot: Payload, dead: bool): RingView
    requires |v.slots| == v.nSlots > 0
  {
    if v.Full() && !dead then v else
    v.(readSeq := if v.Full() then v.readSeq + 1 else v.readSeq,
       writeSeq := v.writeSeq + 1,
       slots := v.slots[Slot(v.nSlots, v.writeSeq) := slot])
  }

  lemma AcceptedIsStored(v: RingView, readerLive: bool)
    requires |v.slots| == v.nSlots > 0
    ensures !v.Full() || !readerLive
            <==> forall slot: Payload, live: nat -> bool :: live(0) == readerLive ==>
                   AfterPublish(v, slot, DeadInBudget(live)).writeSeq == v.writeSeq + 1
  {
    if !v.Full() || !readerLive {
      forall slot: Payload, live: nat -> bool | live(0) == readerLive
        ensures AfterPublish(v, slot, DeadInBudget(live)).writeSeq == v.writeSeq + 1
      {
        assert !readerLive ==> !live(0) && DeadInBudget(live);
      }
    } else {
      var always := (i: nat) => true;
      assert always(0) == readerLive && !DeadInBudget(always);
      assert AfterPublish(v, [], DeadInBudget(always)).writeSeq == v.writeSeq;
    }
  }

  predicate Lapped(v: RingView, mirror: nat) { v.writeSeq > mirror + v.nSlots }

  // The reader's position once an overrun has been resolved.
  function Resynced(v: RingView, mirror: nat): nat {
    if Lapped(v, mirror) then v.writeSeq else mirror
  }

  function AfterResync(v: RingView, mirror: nat): RingView {
    if Lapped(v, mirror) then v.(readSeq := v.writeSeq) else v
  }

  // What consume returns: the reader's own slot, or nothing when it has caught up.
  function Consumed(v: RingView, mirror: nat): Option<Payload>
    requires |v.slots| == v.nSlots > 0
  {
    var at := Resynced(v, mirror);
    if v.writeSeq == at then None else Some(v.slots[Slot(v.nSlots, at)])
  }

  function AfterConsume(v: RingView, mirror: nat): RingView
    requires |v.slots| == v.nSlots > 0
  {
    if Consumed(v, mirror).None? then AfterResync(v, mirror)
    else v.(readSeq := mirror + 1)
  }

  // ----- the shared ring and its two endpoints --------------------------------------------

  class Ring {
    const nSlots: nat
    const slotWords: nat
    var writeSeq: nat
    var readSeq: nat
    const slots: array<Payload>
    // The reader's claim, and the epoch of the latest writer.
    var readerPid: nat
    var readerHeartbeat: nat
    var writerEpoch: nat

    ghost predicate Valid()
      reads this, slots
    {
      nSlots >= 2 && slots.Length == nSlots && readSeq <= writeSeq <= readSeq + nSlots
    }

    ghost function View(): RingView
      reads this, slots
    {
      RingView(nSlots, writeSeq, readSeq, slots[..])
    }

    // A created ring file: zeroed header counters, zeroed slots.
    constructor (n: nat, words: nat)
      requires n >= 2
      ensures Valid() && View() == RingView(n, 0, 0, seq(n, _ => seq(words, _ => 0)))
      ensures fresh(slots) && slotWords == words && readerPid == readerHeartbeat == writerEpoch == 0
    {
      nSlots, slotWords, writeSeq, readSeq := n, words, 0, 0;
      readerPid, readerHeartbeat, writerEpoch := 0, 0, 0;
      slots := new Payload[n](_ => seq(words, _ => 0));
    }
  }

  class Writer {
    const ring: Ring
    var writeSeq: nat
    var publishedSlots: nat
    var dropNoReader: nat
    var fullWaits: nat

    ghost predicate Valid()
      reads this, ring, ring.slots
    {
      ring.Valid() && writeSeq == ring.writeSeq
    }

    // Attach continues from the stored write_seq and begins a new epoch.
    constructor (r: Ring)
      requires r.Valid()
      modifies r`writerEpoch
      ensures Valid() && ring == r && publishedSlots == dropNoReader == fullWaits == 0
      ensures r.View() == old(r.View()) && r.writerEpoch == old(r.writerEpoch) + 1
    {
      ring, writeSeq := r, r.writeSeq;
      publishedSlots, dropNoReader, fullWaits := 0, 0, 0;
      new;
      r.writerEpoch := r.writerEpoch + 1;
    }

    // `live(i)` is the reader-liveness sample of the i-th wait of this call.
    method Publish(slot: Payload, live: nat -> bool) returns (result: PublishResult)
      requires Valid()
      modifies this, ring`writeSeq, ring`readSeq, ring.slots
      ensures Valid()
      ensures ring.View() == AfterPublish(old(ring.View()), slot, DeadInBudget(live))
      // stored unless the ring stays full through the whole wait budget
      ensures writeSeq == old(writeSeq) + 1 <==>
                old(writeSeq - ring.readSeq) < ring.nSlots || exists i :: 0 <= i <= MAX_FULL_WAIT_TICKS && !live(i)
      ensures result == Published <==> !old(ring.View().Full())
      ensures publishedSlots == old(publishedSlots) + if result == Published then 1 else 0
      ensures dropNoReader == old(dropNoReader) + if result == Dropped then 1 else 0
      ensures fullWaits == old(fullWaits) + if old(ring.View().Full()) && live(0) then 1 else 0
    {
      var waited := 0;
      var droppedOldest := false;
      while true
        invariant 0 <= waited <= MAX_FULL_WAIT_TICKS
        invariant waited > 0 ==> old(ring.View().Full())
        invariant forall i :: 0 <= i < waited ==> live(i)
        invariant fullWaits == old(fullWaits) + if waited > 0 then 1 else 0
        invariant !droppedOldest && dropNoReader == old(dropNoReader) && ring.View() == old(ring.View())
        invariant publishedSlots == old(publishedSlots) && writeSeq == old(writeSeq)
        decreases MAX_FULL_WAIT_TICKS - waited
      {
        var rseq := ring.readSeq;
        if writeSeq - rseq < ring.nSlots { break; }
        if !live(waited) {
          ring.readSeq := rseq + 1;
          dropNoReader := dropNoReader + 1;
          droppedOldest := true;
          break;
        }
        if waited == 0 { fullWaits := fullWaits + 1; }
        waited := waited + 1;
        if waited > MAX_FULL_WAIT_TICKS {
          dropNoReader := dropNoReader + 1;
          return Dropped;
        }
      }
      ring.slots[writeSeq % ring.nSlots] := slot;
      ring.writeSeq := writeSeq + 1;
      writeSeq := writeSeq + 1;
      assert droppedOldest ==> !live(waited);
      if droppedOldest { return Dropped; }
      publishedSlots := publishedSlots + 1;
      return Published;
    }

    // A writer is told to go on exactly when a publish whose first liveness sample is this one is certain
    // to store, whatever it samples after.
    method CanAccept(readerLive: bool) returns (ok: bool)
      requires Valid()
      ensures ok <==> forall slot: Payload, live: nat -> bool :: live(0) == readerLive ==>
                        AfterPublish(ring.View(), slot, DeadInBudget(live)).writeSeq == writeSeq + 1
    {
      AcceptedIsStored(ring.View(), readerLive);
      ok := writeSeq - ring.readSeq < ring.nSlots || !readerLive;
    }
  }

  class Reader {
    const ring: Ring
    var readSeq: nat
    var lastEpoch: nat
    var attachResyncs: nat
    var epochResets: nat
    var occupancy: nat
    var sawFilled: bool
    var filledReads: nat
    var emptyReads: nat
    var startupEmptyReads: nat
    var resyncs: nat

    ghost predicate Valid()
      reads this, ring, ring.slots
    {
      ring.Valid() && readSeq <= ring.writeSeq
    }

    // Attach resyncs to the tip, publishes the position and stamps the claim.
    constructor (r: Ring, pid: nat, nowNs: nat)
      requires r.Valid()
      modifies r`readSeq, r`readerPid, r`readerHeartbeat
      ensures Valid() && ring == r && readSeq == r.writeSeq && lastEpoch == r.writerEpoch
      ensures r.View() == old(r.View()).(readSeq := old(r.writeSeq))
      ensures r.readerPid == pid && r.readerHeartbeat == nowNs
      ensures attachResyncs == (if r.writeSeq > 0 then 1 else 0)
      ensures !sawFilled && filledReads == emptyReads == startupEmptyReads == resyncs == epochResets == occupancy == 0
    {
      ring, readSeq, lastEpoch, sawFilled := r, r.writeSeq, r.writerEpoch, false;
      attachResyncs := if r.writeSeq > 0 then 1 else 0;
      epochResets, occupancy := 0, 0;
      filledReads, emptyReads, startupEmptyReads, resyncs := 0, 0, 0, 0;
      new;
      r.readSeq := r.writeSeq;
      r.readerPid := pid;
      r.readerHeartbeat := nowNs;
    }

    method ResyncIfOverrun() returns (resynced: bool)
      requires Valid()
      modifies this`readSeq, this`resyncs, ring`readSeq
      ensures Valid()
      ensures resynced <==> old(Lapped(ring.View(), readSeq))
      ensures readSeq == old(Resynced(ring.View(), readSeq))
      ensures ring.View() == old(AfterResync(ring.View(), readSeq))
      ensures resyncs == old(resyncs) + if resynced then 1 else 0
    {
      var wseq := ring.writeSeq;
      if wseq - readSeq > ring.nSlots {
        readSeq := wseq;
        ring.readSeq := wseq;
        resyncs := resyncs + 1;
        return true;
      }
      return false;
    }

    // The heartbeat of every consume, filled or not, and a look at the writer's epoch.
    method Beat(nowNs: nat)
      modifies this`lastEpoch, this`epochResets, ring`readerHeartbeat
      ensures ring.readerHeartbeat == nowNs && lastEpoch == ring.writerEpoch
      ensures epochResets == old(epochResets) + if ring.writerEpoch != old(lastEpoch) then 1 else 0
    {
      ring.readerHeartbeat := nowNs;
      if ring.writerEpoch != lastEpoch {
        lastEpoch := ring.writerEpoch;
        epochResets := epochResets + 1;
      }
    }

    // The filled flag and the bytes the caller's buffer holds afterwards.
    method Consume(nowNs: nat) returns (filled: bool, out: Payload)
      requires Valid()
      modifies this, ring`readSeq, ring`readerHeartbeat
      ensures Valid() && (filled || old(Lapped(ring.View(), readSeq)) ==> ring.readSeq == readSeq)
      ensures filled <==> old(Consumed(ring.View(), readSeq)).Some?
      ensures filled ==> Some(out) == old(Consumed(ring.View(), readSeq)) && readSeq == old(readSeq) + 1
      ensures !filled ==> out == seq(ring.slotWords, _ => 0) && readSeq == ring.writeSeq
      ensures ring.View() == old(AfterConsume(ring.View(), readSeq))
      ensures ring.readerHeartbeat == nowNs && occupancy == ring.writeSeq - readSeq
      ensures lastEpoch == ring.writerEpoch
      ensures epochResets == old(epochResets) + if ring.writerEpoch != old(lastEpoch) then 1 else 0
      ensures sawFilled == (old(sawFilled) || filled)
      ensures filledReads == old(filledReads) + if filled then 1 else 0
      ensures emptyReads == old(emptyReads) + if !filled && old(sawFilled) then 1 else 0
      ensures startupEmptyReads == old(startupEmptyReads) + if !filled && !old(sawFilled) then 1 else 0
      ensures resyncs == old(resyncs) + if old(Lapped(ring.View(), readSeq)) then 1 else 0
      ensures attachResyncs == old(attachResyncs)
    {
      Beat(nowNs);
      var _ := ResyncIfOverrun();
      var wseq := ring.writeSeq;
      if wseq == readSeq {
        if sawFilled { emptyReads := emptyReads + 1; } else { startupEmptyReads := startupEmptyReads + 1; }
        occupancy := 0;
        return false, seq(ring.slotWords, _ => 0);
      }
      out := ring.slots[readSeq % ring.nSlots];
      readSeq := readSeq + 1;
      ring.readSeq := readSeq;
      sawFilled := true;
      filledReads := filledReads + 1;
      occupancy := wseq - readSeq;
      return true, out;
    }
  }

  const LIVENESS_TIMEOUT_NS: nat := 2_000_000_000

  // Another process is stamped as the reader with a heartbeat inside the liveness window.
  predicate ForeignReaderLive(readerPid: nat, heartbeat: nat, pid: nat, nowNs: nat) {
    && readerPid != 0 && readerPid != pid && heartbeat != 0
    && (if nowNs > heartbeat then nowNs - heartbeat else 0) < LIVENESS_TIMEOUT_NS
  }

  /** Opening for reading: refused, with nothing written, exactly while another reader is live. */
  method OpenReader(ring: Ring, pid: nat, checkedNs: nat, stampedNs: nat) returns (r: Reader?)
    requires ring.Valid()
    modifies ring`readSeq, ring`readerPid, ring`readerHeartbeat
    // another process is stamped and beat less than the timeout ago, or later than the check
    ensures r == null <==>
              && old(ring.readerPid) != 0 && old(ring.readerPid) != pid
              && old(ring.readerHeartbeat) != 0 && checkedNs < old(ring.readerHeartbeat) + LIVENESS_TIMEOUT_NS
    ensures r == null ==> ring.View() == old(ring.View()) && unchanged(ring)
    ensures r != null ==>
              && fresh(r) && r.ring == ring && r.Valid() && r.readSeq == ring.writeSeq && r.resyncs == 0
              && ring.View() == old(ring.View()).(readSeq := ring.writeSeq)
              && ring.readerPid == pid && ring.readerHeartbeat == stampedNs
  {
    if ForeignReaderLive(ring.readerPid, ring.readerHeartbeat, pid, checkedNs) { return null; }
    r := new Reader(ring, pid, stampedNs);
  }

  // ----- runs of whole calls --------------------------------------------------------------

  datatype Call = Publish(slot: Payload, dead: bool) | Attach | Resync | Consume

  // `published` and `delivered` are history: the payload stored at each sequence number, and what
  // the present reader has returned, with its sequence numbers. `skipped` counts what its resyncs
  // jumped over, and `resyncs` those resyncs.
  datatype System = System(
    ring: RingView, reader: Option<nat>, published: seq<Payload>,
    attachedAt: nat, delivered: seq<(nat, Payload)>, skipped: nat, resyncs: nat)

  predicate WellFormed(s: System) { |s.ring.slots| == s.ring.nSlots > 0 }

  function Apply(s: System, call: Call): System
    requires WellFormed(s)
  {
    match call
    case Publish(slot, dead) =>
      var after := AfterPublish(s.ring, slot, dead);
      s.(ring := after,
         published := if after.writeSeq > s.ring.writeSeq then s.published + [slot] else s.published)
    case Attach =>
      s.(ring := s.ring.(readSeq := s.ring.writeSeq), reader := Some(s.ring.writeSeq),
         attachedAt := s.ring.writeSeq, delivered := [], skipped := 0, resyncs := 0)
    case Resync =>
      if s.reader.None? then s else
      var m := s.reader.value;
      s.(ring := AfterResync(s.ring, m), reader := Some(Resynced(s.ring, m)),
         skipped := s.skipped + Jump(s.ring, m), resyncs := s.resyncs + if Lapped(s.ring, m) then 1 else 0)
    case Consume =>
      if s.reader.None? then s else
      var m := s.reader.value;
      match Consumed(s.ring, m)
      case None =>
        s.(ring := AfterConsume(s.ring, m), reader := Some(Resynced(s.ring, m)),
           skipped := s.skipped + Jump(s.ring, m), resyncs := s.resyncs + if Lapped(s.ring, m) then 1 else 0)
      case Some(p) =>
        s.(ring := AfterConsume(s.ring, m), reader := Some(m + 1), delivered := s.delivered + [(m, p)])
  }

  // How many sequence numbers a resync jumps over.
  function Jump(v: RingView, mirror: nat): nat {
    if Lapped(v, mirror) then v.writeSeq - mirror else 0
  }

  predicate Inv(s: System) {
    && WellFormed(s) && s.ring.nSlots >= 2
    && |s.published| == s.ring.writeSeq
    && s.ring.readSeq <= s.ring.writeSeq <= s.ring.readSeq + s.ring.nSlots
    && Unread(s.ring, s.published)
    && (s.reader.Some? ==> MirrorOk(s.ring, s.reader.value) && Accounted(s))
  }

  // Every slot between read_seq and write_seq holds the payload of its sequence number.
  predicate Unread(v: RingView, published: seq<Payload>)
    requires |v.slots| == v.nSlots > 0
  {
    forall k :: v.readSeq <= k < v.writeSeq && k < |published| ==> Holds(v, published, k)
  }

  predicate Holds(v: RingView, published: seq<Payload>, k: nat)
    requires |v.slots| == v.nSlots > 0 && k < |published|
  {
    v.slots[Slot(v.nSlots, k)] == published[k]
  }

  // The reader agrees with the header, or it has been lapped and the ring is full.
  predicate MirrorOk(v: RingView, mirror: nat) {
    && mirror <= v.writeSeq
    && (mirror == v.readSeq || (v.Full() && Lapped(v, mirror)))
  }

  // Everything since the attach was delivered in order and unaltered, or jumped by a resync.
  predicate Accounted(s: System)
    requires s.reader.Some?
  {
    && s.attachedAt + |s.delivered| + s.skipped == s.reader.value
    && (s.resyncs == 0 ==> s.skipped == 0) && s.resyncs * (s.ring.nSlots + 1) <= s.skipped
    && (forall i :: 0 <= i < |s.delivered| ==> Genuine(s, i))
    && (forall i, j :: 0 <= i < j < |s.delivered| ==> s.delivered[i].0 < s.delivered[j].0)
  }

  predicate Genuine(s: System, i: nat)
    requires i < |s.delivered| && s.reader.Some?
  {
    var k := s.delivered[i].0;
    s.attachedAt <= k < s.reader.value && k < |s.published| && s.delivered[i].1 == s.published[k]
  }

  lemma PublishKeepsInv(s: System, slot: Payload, dead: bool)
    requires Inv(s)
    ensures Inv(Apply(s, Publish(slot, dead)))
  {
    var e := Apply(s, Publish(slot, dead));
    if e.ring != s.ring {
      var v, w := s.ring, e.ring;
      forall k | w.readSeq <= k < w.writeSeq && k < |e.published| ensures Holds(w, e.published, k) {
        if k < v.writeSeq {
          assert Holds(v, s.published, k);
          SlotsDiffer(v.nSlots, k, v.writeSeq);
        }
      }
      if s.reader.Some? {
        forall i | 0 <= i < |e.delivered| ensures Genuine(e, i) { assert Genuine(s, i); }
      }
    }
  }

  /** A consume never returns overwritten data: a lapped reader returns nothing and moves to the tip;
      any other returns the payload of its own sequence number, or nothing when it has caught up. */
  lemma ConsumeReturnsOwnPayload(s: System)
    requires Inv(s) && s.reader.Some?
    ensures var m, e := s.reader.value, Apply(s, Consume);
            if Lapped(s.ring, m) then
              e.delivered == s.delivered && e.reader == Some(s.ring.writeSeq) && e.ring.readSeq == s.ring.writeSeq
            else if m < s.ring.writeSeq then
              e.delivered == s.delivered + [(m, s.published[m])] && e.reader == Some(m + 1) && e.ring.readSeq == m + 1
            else e == s
  {
    var m := s.reader.value;
    if !Lapped(s.ring, m) && m < s.ring.writeSeq { assert Holds(s.ring, s.published, m); }
  }

  // A call that stores nothing and only frees slots keeps the rest unread, and the deliveries genuine.
  lemma StoreFree(s: System, e: System)
    requires Inv(s) && s.reader.Some? && e.reader.Some? && e.published == s.published && WellFormed(e)
    requires e.ring == s.ring.(readSeq := e.ring.readSeq) && s.ring.readSeq <= e.ring.readSeq
    requires s.delivered <= e.delivered && s.reader.value <= e.reader.value && e.attachedAt == s.attachedAt
    ensures Unread(e.ring, e.published)
    ensures forall i :: 0 <= i < |s.delivered| ==> Genuine(e, i)
  {
    hide Slot;
    forall k | e.ring.readSeq <= k < e.ring.writeSeq && k < |e.published| ensures Holds(e.ring, e.published, k) {
      assert Holds(s.ring, s.published, k);
    }
    forall i | 0 <= i < |s.delivered| ensures Genuine(e, i) { assert Genuine(s, i); }
  }

  lemma ConsumeKeepsInv(s: System)
    requires Inv(s) && s.reader.Some?
    ensures Inv(Apply(s, Consume))
  {
    hide Slot, Holds, Consumed;
    var e := Apply(s, Consume);
    ConsumeReturnsOwnPayload(s);
    StoreFree(s, e);
    forall i, j | 0 <= i < j < |e.delivered| ensures e.delivered[i].0 < e.delivered[j].0 {
      assert Genuine(s, i);
    }
  }

  lemma CallKeepsInv(s: System, call: Call)
    requires Inv(s)
    ensures Inv(Apply(s, call))
  {
    match call
    case Publish(slot, dead) => PublishKeepsInv(s, slot, dead);
    case Consume => if s.reader.Some? { ConsumeKeepsInv(s); }
    case Attach =>
    case Resync => if s.reader.Some? { StoreFree(s, Apply(s, Resync)); }
  }

  predicate Init(s: System) {
    && WellFormed(s) && s.ring.nSlots >= 2 && s.ring.writeSeq == s.ring.readSeq == 0
    && s.reader.None? && s.published == []
  }

  function Run(s: System, calls: seq<Call>): System
    requires WellFormed(s)
  {
    if calls == [] then s else
    var before := Run(s, calls[..|calls| - 1]);
    if WellFormed(before) then Apply(before, calls[|calls| - 1]) else before
  }

  lemma {:induction false} RunKeepsInv(s: System, calls: seq<Call>)
    requires Init(s)
    ensures Inv(Run(s, calls))
  {
    if calls != [] {
      RunKeepsInv(s, calls[..|calls| - 1]);
      CallKeepsInv(Run(s, calls[..|calls| - 1]), calls[|calls| - 1]);
    }
  }

  /** Over every run of whole calls with arbitrary liveness: occupancy stays within the ring; what
      the reader has returned are genuine payloads in increasing order of sequence number; and
      every number since it attached was either returned or jumped by a counted resync, each of which
      jumped more than a whole ring. */
  lemma RunsNeverReturnOverwritten(s: System, calls: seq<Call>)
    requires Init(s)
    ensures var e := Run(s, calls);
            && e.ring.writeSeq - e.ring.readSeq <= e.ring.nSlots
            && (e.reader.Some? ==>
                  && e.attachedAt + |e.delivered| + e.skipped == e.reader.value <= e.ring.writeSeq
                  && (e.resyncs == 0 ==> e.skipped == 0) && e.resyncs * (e.ring.nSlots + 1) <= e.skipped
                  && (forall i :: 0 <= i < |e.delivered| ==>
                        && e.attachedAt <= e.delivered[i].0 < |e.published|
                        && e.delivered[i].1 == e.published[e.delivered[i].0])
                  && (forall i, j :: 0 <= i < j < |e.delivered| ==> e.delivered[i].0 < e.delivered[j].0))
  {
    hide Slot, Apply;
    RunKeepsInv(s, calls);
    var e := Run(s, calls);
    if e.reader.Some? {
      forall i | 0 <= i < |e.delivered|
        ensures && e.attachedAt <= e.delivered[i].0 < |e.published|
                && e.delivered[i].1 == e.published[e.delivered[i].0]
      {
        assert Genuine(e, i);
      }
    }
  }

  // Whenever a publish of the run finds the ring full, it finds the reader live.
  predicate LiveWhenFull(s: System, calls: seq<Call>)
    requires WellFormed(s)
  {
    forall i :: 0 <= i < |calls| && calls[i].Publish? && calls[i].dead ==> !FullAt(s, calls, i)
  }

  predicate FullAt(s: System, calls: seq<Call>, i: nat)
    requires WellFormed(s) && i <= |calls|
  {
    Run(s, calls[..i]).ring.Full()
  }

  /** One reader of one writer is only ever lapped by a free-run: while every publish into a full ring
      finds the reader live, nothing is skipped. */
  lemma {:induction false} NoSkipWhileLive(s: System, calls: seq<Call>)
    requires Init(s) && LiveWhenFull(s, calls)
    ensures var e := Run(s, calls);
            e.reader.Some? ==> e.skipped == 0 && e.reader.value == e.ring.readSeq
  {
    if calls != [] {
      var n := |calls| - 1;
      var prefix, call := calls[..n], calls[n];
      forall i | 0 <= i < n && prefix[i].Publish? && prefix[i].dead ensures !FullAt(s, prefix, i) {
        assert prefix[..i] == calls[..i] && !FullAt(s, calls, i);
      }
      NoSkipWhileLive(s, prefix);
      RunKeepsInv(s, prefix);
      assert call.Publish? && call.dead ==> !FullAt(s, calls, n);
      hide Slot, LiveWhenFull, FullAt;
      assert Run(s, calls) == Apply(Run(s, prefix), call);
    }
  }

  // ----- the objects do what the runs say -------------------------------------------------

  function Payloads(delivered: seq<(nat, Payload)>): seq<Payload> {
    seq(|delivered|, i requires 0 <= i < |delivered| => delivered[i].1)
  }

  // The objects agree with a system state; `out` is what the present reader has returned.
  ghost predicate Agrees(w: Writer, r: Reader?, out: seq<Payload>, s: System)
    reads w, w.ring, w.ring.slots, r
  {
    && w.Valid() && w.ring.View() == s.ring && Inv(s)
    && (r == null <==> s.reader.None?)
    && (r != null ==>
          r.ring == w.ring && r.Valid() && Some(r.readSeq) == s.reader && r.resyncs == s.resyncs && out == Payloads(s.delivered))
  }

  /** A writer, and a reader whenever one attaches, driven through any calls, end where the run of
      those calls ends, resync counter and returned payloads included. */
  method Drive(w: Writer, ghost start: System, calls: seq<Call>) returns (r: Reader?, out: seq<Payload>)
    requires Init(start) && w.Valid() && w.ring.View() == start.ring
    modifies w, w.ring, w.ring.slots
    ensures Agrees(w, r, out, Run(start, calls))
  {
    r, out := null, [];
    assert calls[..0] == [] && Run(start, []) == start;
    for n := 0 to |calls|
      invariant Agrees(w, r, out, Run(start, calls[..n])) && (r == null || fresh(r))
    {
      ghost var before := Run(start, calls[..n]);
      CallKeepsInv(before, calls[n]);
      assert calls[..n + 1][..n] == calls[..n];
      r, out := DriveOne(w, r, out, before, calls[n]);
    }
    assert calls[..|calls|] == calls;
  }

  method DriveOne(w: Writer, r: Reader?, out: seq<Payload>, ghost before: System, call: Call)
    returns (r': Reader?, out': seq<Payload>)
    requires Agrees(w, r, out, before) && Inv(Apply(before, call))
    modifies w, w.ring, w.ring.slots, r
    ensures Agrees(w, r', out', Apply(before, call)) && (r' == r || fresh(r'))
  {
    hide Inv, Slot;
    r', out' := r, out;
    match call {
      case Publish(slot, dead) =>
        var live := (i: nat) => !dead;
        assert DeadInBudget(live) == dead by { assert live(0) == !dead; }
        var _ := w.Publish(slot, live);
      case Attach =>
        r' := new Reader(w.ring, 1, 0);
        out' := [];
      case Resync =>
        if r != null { var _ := r.ResyncIfOverrun(); }
      case Consume =>
        if r != null {
          var filled, payload := r.Consume(0);
          if filled { out' := out + [payload]; }
        }
    }
  }
}
