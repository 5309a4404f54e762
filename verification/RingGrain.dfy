/**
  The two models of the ring agree: a call of `RingSteps` that nothing interrupts is the whole call of
  `RingCalls`, from every well-formed state, a lapped reader included; and a crash leaves the shared
  memory alone and lets a successor in.
 */
module RingGrain {
  import opened Slots
  import opened Options
  import opened S = RingSteps
  import C = RingCalls

  function View(s: State): C.RingView { C.RingView(s.nSlots, s.writeSeq, s.readSeq, s.slots) }

  // One step, if it is enabled; k of them.
  function Do(s: State, step: Step): (e: State)
    requires WellFormed(s)
    ensures WellFormed(e)
  {
    if Enabled(s, step) then Apply(s, step) else s
  }

  function Repeat(s: State, step: Step, k: nat): (e: State)
    requires WellFormed(s)
    ensures WellFormed(e)
  {
    if k == 0 then s else Do(Repeat(s, step, k - 1), step)
  }

  // The steps of one publish call on its own, given up if the ring stays full.
  function PublishCall(s: State, slot: Payload): State
    requires WellFormed(s)
  {
    var copied := Repeat(Do(Do(s, WBegin(slot)), WLoadReadSeq), WCopyWord, s.slotWords);
    Do(Do(copied, WStoreWriteSeq), WGiveUp)
  }

  // And of one consume call.
  function ConsumeCall(s: State): State
    requires WellFormed(s)
  {
    var loaded := Do(Do(Do(s, RBegin), RLoadResync), RLoadWriteSeq);
    Do(Repeat(loaded, RCopyWord, s.slotWords), RStoreReadSeq)
  }

  lemma {:induction false} CopiedWords(b: State, k: nat)
    requires WellFormed(b) && b.writer.WCopying? && b.writer.done == 0 && |b.writer.slot| == b.slotWords && k <= b.slotWords
    ensures var i := Slot(b.nSlots, b.writeSeq);
            Repeat(b, WCopyWord, k)
            == b.(slots := b.slots[i := b.writer.slot[..k] + b.slots[i][k..]], writer := b.writer.(done := k))
  {
    hide Slot;
    var i := Slot(b.nSlots, b.writeSeq);
    if k == 0 {
      assert b.writer.slot[..0] + b.slots[i][0..] == b.slots[i];
    } else {
      CopiedWords(b, k - 1);
      CopiedWord(b.writer.slot, b.slots[i], k - 1);
    }
  }

  lemma CopiedWord(from: Payload, to: Payload, k: nat)
    requires |from| == |to| && k < |from|
    ensures (from[..k] + to[k..])[k := from[k]] == from[..k + 1] + to[k + 1..]
  {
  }

  // A call that is not copying has no use for the copy step.
  lemma {:induction false} IdleWords(s: State, step: Step, k: nat)
    requires WellFormed(s) && !Enabled(s, step)
    ensures Repeat(s, step, k) == s
  {
    hide Apply, Enabled;
    if k > 0 { IdleWords(s, step, k - 1); }
  }

  /** An undisturbed publish stores its slot, and nothing else, exactly if there is room. */
  lemma PublishIsWholeCall(s: State, slot: Payload)
    requires WellFormed(s) && s.writer.WIdle? && |slot| == s.slotWords
    ensures var e := PublishCall(s, slot);
            && View(e) == C.AfterPublish(View(s), slot, false)
            && e == s.(slots := e.slots, writeSeq := e.writeSeq,
                       published := if View(s).Full() then s.published else s.published + [slot])
  {
    hide Slot, Repeat;
    var b := Do(Do(s, WBegin(slot)), WLoadReadSeq);
    if View(s).Full() {
      IdleWords(b, WCopyWord, s.slotWords);
    } else {
      CopiedWords(b, s.slotWords);
      assert slot[..s.slotWords] + s.slots[Slot(s.nSlots, s.writeSeq)][s.slotWords..] == slot;
    }
  }

  lemma {:induction false} ReadWords(b: State, k: nat)
    requires WellFormed(b) && b.reader == RCopying([]) && k <= b.slotWords
    ensures Repeat(b, RCopyWord, k) == b.(reader := RCopying(b.slots[Slot(b.nSlots, b.mirror)][..k]))
  {
    hide Slot;
    var slot := b.slots[Slot(b.nSlots, b.mirror)];
    if k > 0 {
      ReadWords(b, k - 1);
      assert slot[..k] == slot[..k - 1] + [slot[k - 1]];
    }
  }

  /** An undisturbed consume returns the oldest unread slot, or nothing, and moves the reader just so; a
      lapped reader jumps to the tip first. */
  lemma ConsumeIsWholeCall(s: State)
    requires WellFormed(s) && s.reader.RIdle?
    ensures var e, r := ConsumeCall(s), C.Consumed(View(s), s.mirror);
            && View(e) == C.AfterConsume(View(s), s.mirror)
            && e == s.(readSeq := e.readSeq,
                       mirror := C.Resynced(View(s), s.mirror) + if r.Some? then 1 else 0,
                       resyncs := s.resyncs + if C.Lapped(View(s), s.mirror) then 1 else 0,
                       delivered := if r.Some? then s.delivered + [r.value] else s.delivered)
  {
    hide Slot, Repeat;
    var b := Do(Do(Do(s, RBegin), RLoadResync), RLoadWriteSeq);
    if b.reader.RIdle? {
      IdleWords(b, RCopyWord, s.slotWords);
    } else {
      ReadWords(b, s.slotWords);
      var slot := s.slots[Slot(s.nSlots, s.mirror)];
      assert slot[..s.slotWords] == slot;
    }
  }

  /** A new reader starts at the tip, whatever an earlier one left unread. */
  lemma AttachIsWholeCall(s: State)
    requires WellFormed(s)
    ensures Do(Do(Do(s, RCrash), RLoadAttach), RStoreAttach)
            == s.(readSeq := s.writeSeq, mirror := s.writeSeq, attachedAt := s.writeSeq, delivered := [], reader := RIdle)
  {
    hide Slot;
  }

  /** A writer may die anywhere: its successor's publish is a whole one. */
  lemma CrashedWriterIsReplaced(s: State, slot: Payload)
    requires WellFormed(s) && |slot| == s.slotWords
    ensures Do(s, WCrash) == s.(writer := WIdle)
    ensures View(PublishCall(Do(s, WCrash), slot)) == C.AfterPublish(View(s), slot, false)
  {
    hide Slot, PublishCall;
    PublishIsWholeCall(s.(writer := WIdle), slot);
  }
}
