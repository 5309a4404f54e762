/**
  The slot ring at the grain of single loads, word copies and stores
  (c/jts-ring-ioplug/jts_ring_shm.c). One writer and one reader interleave freely; either may crash
  and be replaced. A slot copy is one step per word, so a torn read is expressible. The free-run
  branch of publish is not taken here; `RingCalls` covers it at the grain of whole calls.
 */
module RingSteps {
  import opened Slots

  // Where the writer stands inside jts_ring_writer_publish.
  datatype WriterPc =
    | WIdle
    | WChecking(slot: Payload)             // about to load read_seq
    | WCopying(slot: Payload, done: nat)   // space confirmed, done words copied

  // Where the reader stands inside jts_ring_reader_open or jts_ring_reader_consume. `w` is the
  // write_seq it loaded.
  datatype ReaderPc =
    | RDetached
    | RAttaching(w: nat)                   // open has loaded write_seq
    | RIdle
    | RResync                              // about to load write_seq for the overrun test
    | RLoading                             // about to load write_seq for the read
    | RCopying(buf: Payload)               // copying the oldest slot, |buf| words so far

  datatype State = State(
    nSlots: nat, slotWords: nat,
    writeSeq: nat, readSeq: nat,           // shared header
    slots: seq<Payload>,                   // shared slot bytes
    writer: WriterPc,
    reader: ReaderPc, mirror: nat,         // the reader's local read_seq
    resyncs: nat,                          // reader_resyncs
    published: seq<Payload>,               // history: the payload stored at each sequence number
    attachedAt: nat,                       // history: where the present reader attached
    delivered: seq<Payload>)               // history: what the present reader has returned

  datatype Step =
    | WBegin(slot: Payload)
    | WLoadReadSeq
    | WGiveUp                              // full-wait budget spent with a live reader
    | WCopyWord
    | WStoreWriteSeq
    | WCrash
    | RLoadAttach
    | RStoreAttach
    | RBegin
    | RLoadResync
    | RLoadWriteSeq
    | RCopyWord
    | RStoreReadSeq
    | RCrash

  predicate WellFormed(s: State) {
    && s.nSlots >= 2 && |s.slots| == s.nSlots
    && forall i :: 0 <= i < s.nSlots ==> |s.slots[i]| == s.slotWords
  }

  predicate Enabled(s: State, step: Step)
    requires WellFormed(s)
  {
    match step
    case WBegin(slot) => s.writer.WIdle? && |slot| == s.slotWords
    case WLoadReadSeq => s.writer.WChecking?
    case WGiveUp => s.writer.WChecking?
    case WCopyWord => s.writer.WCopying? && s.writer.done < s.slotWords
    case WStoreWriteSeq => s.writer.WCopying? && s.writer.done == s.slotWords
    case WCrash => true
    case RLoadAttach => s.reader.RDetached?
    case RStoreAttach => s.reader.RAttaching?
    case RBegin => s.reader.RIdle?
    case RLoadResync => s.reader.RResync?
    case RLoadWriteSeq => s.reader.RLoading?
    case RCopyWord => s.reader.RCopying? && |s.reader.buf| < s.slotWords
    case RStoreReadSeq => s.reader.RCopying? && |s.reader.buf| == s.slotWords
    case RCrash => true
  }

  function Apply(s: State, step: Step): State
    requires WellFormed(s) && Enabled(s, step)
  {
    match step
    case WBegin(slot) => s.(writer := WChecking(slot))
    case WLoadReadSeq =>
      // full: the writer naps and loads again
      if s.writeSeq - s.readSeq < s.nSlots then s.(writer := WCopying(s.writer.slot, 0)) else s
    case WGiveUp => s.(writer := WIdle)
    case WCopyWord =>
      var i, k := Slot(s.nSlots, s.writeSeq), s.writer.done;
      if k < |s.slots[i]| && k < |s.writer.slot| then
        s.(slots := s.slots[i := s.slots[i][k := s.writer.slot[k]]], writer := s.writer.(done := k + 1))
      else s
    case WStoreWriteSeq =>
      s.(writeSeq := s.writeSeq + 1, published := s.published + [s.writer.slot], writer := WIdle)
    case WCrash => s.(writer := WIdle)
    case RLoadAttach => s.(reader := RAttaching(s.writeSeq))
    case RStoreAttach =>
      s.(readSeq := s.reader.w, mirror := s.reader.w, attachedAt := s.reader.w, delivered := [], reader := RIdle)
    case RBegin => s.(reader := RResync)
    case RLoadResync =>
      if s.writeSeq - s.mirror > s.nSlots then
        s.(readSeq := s.writeSeq, mirror := s.writeSeq, resyncs := s.resyncs + 1, reader := RLoading)
      else s.(reader := RLoading)
    case RLoadWriteSeq => s.(reader := if s.writeSeq == s.mirror then RIdle else RCopying([]))
    case RCopyWord =>
      var i, k := Slot(s.nSlots, s.mirror), |s.reader.buf|;
      if k < |s.slots[i]| then s.(reader := RCopying(s.reader.buf + [s.slots[i][k]])) else s
    case RStoreReadSeq =>
      s.(readSeq := s.mirror + 1, mirror := s.mirror + 1, delivered := s.delivered + [s.reader.buf], reader := RIdle)
    case RCrash => s.(reader := RDetached)
  }

  // ----- the invariant --------------------------------------------------------------------

  predicate Attached(s: State) { !s.reader.RDetached? && !s.reader.RAttaching? }

  // Sequence k sits whole in its slot.
  predicate Intact(s: State, k: nat)
    requires WellFormed(s) && k < |s.published|
  {
    s.slots[Slot(s.nSlots, k)] == s.published[k]
  }

  predicate WriterOk(s: State)
    requires WellFormed(s)
  {
    match s.writer
    case WIdle => true
    case WChecking(slot) => |slot| == s.slotWords
    case WCopying(slot, done) =>
      && |slot| == s.slotWords && done <= s.slotWords
      && s.writeSeq - s.readSeq < s.nSlots
      && s.slots[Slot(s.nSlots, s.writeSeq)][..done] == slot[..done]
  }

  predicate ReaderOk(s: State) {
    match s.reader
    case RDetached => true
    case RAttaching(w) => s.readSeq <= w <= s.writeSeq
    case RCopying(buf) =>
      s.mirror < |s.published| && |buf| <= |s.published[s.mirror]| && buf == s.published[s.mirror][..|buf|]
    case _ => true
  }

  // What the present reader has returned is the published run since it attached.
  predicate Fifo(s: State) {
    && s.attachedAt + |s.delivered| == s.mirror <= |s.published|
    && s.delivered == s.published[s.attachedAt..s.mirror]
  }

  predicate Inv(s: State) {
    && WellFormed(s)
    && |s.published| == s.writeSeq
    && s.readSeq <= s.writeSeq <= s.readSeq + s.nSlots
    && (forall k :: 0 <= k < s.writeSeq ==> |s.published[k]| == s.slotWords)
    && (forall k :: s.readSeq <= k < s.writeSeq ==> Intact(s, k))
    && WriterOk(s) && ReaderOk(s)
    && (Attached(s) ==> s.mirror == s.readSeq && Fifo(s))
    && s.resyncs == 0
  }

  // The two copies never share a slot.
  predicate Disjoint(s: State)
    requires WellFormed(s)
  {
    s.writer.WCopying? && s.reader.RCopying? ==> Slot(s.nSlots, s.writeSeq) != Slot(s.nSlots, s.mirror)
  }

  lemma InvDisjoint(s: State)
    requires Inv(s)
    ensures Disjoint(s)
  {
    if s.writer.WCopying? && s.reader.RCopying? { SlotsDiffer(s.nSlots, s.mirror, s.writeSeq); }
  }

  // A word written into the slot of write_seq leaves every unread slot alone.
  lemma CopyKeepsUnread(s: State)
    requires Inv(s) && Enabled(s, WCopyWord)
    ensures Inv(Apply(s, WCopyWord))
  {
    var e := Apply(s, WCopyWord);
    forall k | e.readSeq <= k < e.writeSeq ensures Intact(e, k) {
      assert Intact(s, k);
      SlotsDiffer(s.nSlots, k, s.writeSeq);
    }
    var i, d := Slot(s.nSlots, s.writeSeq), s.writer.done;
    assert e.slots[i][..d + 1] == s.slots[i][..d] + [s.writer.slot[d]];
  }

  lemma StorePublishes(s: State)
    requires Inv(s) && Enabled(s, WStoreWriteSeq)
    ensures Inv(Apply(s, WStoreWriteSeq))
  {
    hide Slot;
    var e, i := Apply(s, WStoreWriteSeq), Slot(s.nSlots, s.writeSeq);
    assert s.slots[i][..s.slotWords] == s.slots[i] && s.writer.slot[..s.slotWords] == s.writer.slot;
    forall k | e.readSeq <= k < e.writeSeq ensures Intact(e, k) {
      assert k < s.writeSeq ==> Intact(s, k);
    }
  }

  // A step that touches neither slots nor history, and frees slots at most, keeps the rest unread.
  lemma UnreadStays(s: State, e: State)
    requires Inv(s) && WellFormed(e) && e.nSlots == s.nSlots && e.slots == s.slots && e.published == s.published
    requires s.readSeq <= e.readSeq && e.writeSeq == s.writeSeq
    ensures forall k :: e.readSeq <= k < e.writeSeq ==> Intact(e, k)
  {
    forall k | e.readSeq <= k < e.writeSeq ensures Intact(e, k) {
      assert Intact(s, k);
    }
  }

  lemma ReadCopies(s: State)
    requires Inv(s) && Enabled(s, RCopyWord)
    ensures Inv(Apply(s, RCopyWord))
  {
    hide Slot;
    assert Intact(s, s.mirror);
    UnreadStays(s, Apply(s, RCopyWord));
    var d := |s.reader.buf|;
    assert s.published[s.mirror][..d + 1] == s.published[s.mirror][..d] + [s.published[s.mirror][d]];
  }

  lemma ReadDelivers(s: State)
    requires Inv(s) && Enabled(s, RStoreReadSeq)
    ensures Inv(Apply(s, RStoreReadSeq))
  {
    hide Slot;
    var e := Apply(s, RStoreReadSeq);
    assert |s.published[s.mirror]| == s.slotWords;
    assert s.reader.buf == s.published[s.mirror];
    assert s.published[s.attachedAt..s.mirror + 1] == s.published[s.attachedAt..s.mirror] + [s.published[s.mirror]];
    UnreadStays(s, e);
  }

  lemma OtherStepsKeepInv(s: State, step: Step)
    requires Inv(s) && Enabled(s, step)
    requires !step.WCopyWord? && !step.WStoreWriteSeq? && !step.RCopyWord? && !step.RStoreReadSeq?
    ensures Inv(Apply(s, step))
  {
    hide Slot;
    UnreadStays(s, Apply(s, step));
    assert step.WLoadReadSeq? ==> s.slots[Slot(s.nSlots, s.writeSeq)][..0] == s.writer.slot[..0];
  }

  lemma StepKeepsInv(s: State, step: Step)
    requires Inv(s) && Enabled(s, step)
    ensures Inv(Apply(s, step))
  {
    match step
    case WCopyWord => CopyKeepsUnread(s);
    case WStoreWriteSeq => StorePublishes(s);
    case RCopyWord => ReadCopies(s);
    case RStoreReadSeq => ReadDelivers(s);
    case _ => OtherStepsKeepInv(s, step);
  }

  // ----- runs -----------------------------------------------------------------------------

  // A freshly created ring: all counters zero, slots zero-filled, nobody attached.
  predicate Init(s: State) {
    && WellFormed(s) && s.writeSeq == 0 && s.readSeq == 0 && s.mirror == 0 && s.resyncs == 0
    && s.writer.WIdle? && s.reader.RDetached? && s.published == [] && s.delivered == [] && s.attachedAt == 0
  }

  // The state after a run of steps; a step that is not enabled does not happen.
  function Run(s: State, steps: seq<Step>): State
    requires WellFormed(s)
  {
    if steps == [] then s
    else
      var step := steps[|steps| - 1];
      var before := Run(s, steps[..|steps| - 1]);
      if WellFormed(before) && Enabled(before, step) then Apply(before, step) else before
  }

  lemma {:induction false} RunKeepsInv(s: State, steps: seq<Step>)
    requires Init(s)
    ensures Inv(Run(s, steps))
  {
    hide Slot, Apply, Enabled;
    if steps != [] {
      var prefix := steps[..|steps| - 1];
      RunKeepsInv(s, prefix);
      if Enabled(Run(s, prefix), steps[|steps| - 1]) { StepKeepsInv(Run(s, prefix), steps[|steps| - 1]); }
    }
  }

  // ----- what a run was asked to do, read off its steps alone ------------------------------

  // The last step of a run happens.
  predicate Happens(s: State, steps: seq<Step>)
    requires WellFormed(s) && steps != []
  {
    var before := Run(s, steps[..|steps| - 1]);
    WellFormed(before) && Enabled(before, steps[|steps| - 1])
  }

  // The slot given to the latest publish call.
  function Offered(s: State, steps: seq<Step>): Payload
    requires WellFormed(s)
  {
    if steps == [] then [] else
    var step := steps[|steps| - 1];
    if step.WBegin? && Happens(s, steps) then step.slot else Offered(s, steps[..|steps| - 1])
  }

  // The slots of the publish calls that reached their write_seq store, in that order.
  function Stored(s: State, steps: seq<Step>): seq<Payload>
    requires WellFormed(s)
  {
    if steps == [] then [] else
    var prefix := steps[..|steps| - 1];
    Stored(s, prefix) + if steps[|steps| - 1].WStoreWriteSeq? && Happens(s, steps) then [Offered(s, prefix)] else []
  }

  // How many of those stores came before the present reader's attach loaded write_seq.
  function Tip(s: State, steps: seq<Step>): nat
    requires WellFormed(s)
  {
    if steps == [] then 0 else
    var prefix := steps[..|steps| - 1];
    if steps[|steps| - 1].RLoadAttach? && Happens(s, steps) then |Stored(s, prefix)| else Tip(s, prefix)
  }

  // How many read_seq stores the present reader has made since.
  function Taken(s: State, steps: seq<Step>): nat
    requires WellFormed(s)
  {
    if steps == [] then 0 else
    var prefix, step := steps[..|steps| - 1], steps[|steps| - 1];
    if !Happens(s, steps) then Taken(s, prefix)
    else if step.RLoadAttach? then 0
    else Taken(s, prefix) + if step.RStoreReadSeq? then 1 else 0
  }

  // The state and its history variables are what the steps asked for.
  predicate Asked(e: State, offered: Payload, stored: seq<Payload>, tip: nat, taken: nat) {
    && (e.writer.WIdle? || e.writer.slot == offered)
    && e.published == stored
    && (e.reader.RAttaching? ==> e.reader.w == tip && taken == 0)
    && (Attached(e) ==> e.attachedAt == tip && |e.delivered| == taken)
  }

  lemma StepAsAsked(s: State, step: Step, offered: Payload, stored: seq<Payload>, tip: nat, taken: nat)
    requires Inv(s) && Enabled(s, step) && Asked(s, offered, stored, tip, taken)
    ensures Asked(Apply(s, step), if step.WBegin? then step.slot else offered,
                  stored + if step.WStoreWriteSeq? then [offered] else [],
                  if step.RLoadAttach? then |stored| else tip,
                  if step.RLoadAttach? then 0 else taken + if step.RStoreReadSeq? then 1 else 0)
  {
    hide Slot, Intact, WriterOk;
  }

  lemma {:induction false} RunAsAsked(s: State, steps: seq<Step>)
    requires Init(s)
    ensures Asked(Run(s, steps), Offered(s, steps), Stored(s, steps), Tip(s, steps), Taken(s, steps))
  {
    if steps != [] {
      var prefix, step := steps[..|steps| - 1], steps[|steps| - 1];
      RunAsAsked(s, prefix);
      RunKeepsInv(s, prefix);
      hide Apply, Enabled, Asked, Slot, Intact, WriterOk, ReaderOk, Fifo;
      if Happens(s, steps) {
        StepAsAsked(Run(s, prefix), step, Offered(s, prefix), Stored(s, prefix), Tip(s, prefix), Taken(s, prefix));
      }
    }
  }

  // The invariant and what was asked, put together.
  lemma FifoAsAsked(e: State, offered: Payload, stored: seq<Payload>, tip: nat, taken: nat)
    requires Inv(e) && Asked(e, offered, stored, tip, taken)
    ensures WellFormed(e)
    ensures 0 <= e.writeSeq - e.readSeq <= e.nSlots && Disjoint(e) && e.resyncs == 0 && e.writeSeq == |stored|
    ensures Attached(e) ==>
              && |e.delivered| == taken && tip + |e.delivered| == e.readSeq <= |stored|
              && forall i :: 0 <= i < |e.delivered| ==> e.delivered[i] == stored[tip + i]
  {
    hide Slot, Intact;
    InvDisjoint(e);
  }

  /** In every interleaving, crashes and re-attachments included: occupancy stays within the ring, the
      two copies never share a slot, the overrun resync never fires, and the n-th read of a reader
      returns the slot given to the n-th publish call that stored after its attach had loaded
      write_seq, never one stored before. */
  lemma {:induction false} InterleavingsAreFifo(s: State, steps: seq<Step>)
    requires Init(s)
    ensures var e, stored, tip := Run(s, steps), Stored(s, steps), Tip(s, steps);
            && 0 <= e.writeSeq - e.readSeq <= e.nSlots
            && WellFormed(e) && Disjoint(e)
            && e.resyncs == 0 && e.writeSeq == |stored|
            && (Attached(e) ==>
                  && |e.delivered| == Taken(s, steps) && tip + |e.delivered| == e.readSeq <= |stored|
                  && forall i :: 0 <= i < |e.delivered| ==> e.delivered[i] == stored[tip + i])
  {
    RunKeepsInv(s, steps);
    RunAsAsked(s, steps);
    hide Run, Stored, Tip, Taken, Offered, Asked, Inv, Disjoint;
    FifoAsAsked(Run(s, steps), Offered(s, steps), Stored(s, steps), Tip(s, steps), Taken(s, steps));
  }

  // History is only ever extended: what was published at k stays what was published at k.
  lemma {:induction false} HistoryIsStable(s: State, steps: seq<Step>, more: seq<Step>)
    requires Init(s)
    ensures Run(s, steps).published <= Run(s, steps + more).published
  {
    if more == [] {
      assert steps + more == steps;
    } else {
      var shorter := more[..|more| - 1];
      HistoryIsStable(s, steps, shorter);
      assert (steps + more)[..|steps + more| - 1] == steps + shorter;
    }
  }
}
