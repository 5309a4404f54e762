/**
  Position reports against the ring they describe (c/jts-ring-ioplug/jts_ring_shm.h): what a report says
  in terms of the sequence numbers and stages of a `RingCalls` ring.
 */
module PointerRing {
  import opened Options
  import opened PaceTokens
  import opened PointerCore
  import C = RingCalls

  // A playback call samples the ring: the app has filled the published slots and part of one more.
  predicate Samples(s: Sample, c: Config, v: C.RingView) {
    && v.readSeq <= v.writeSeq && s.occupancySlots == v.writeSeq - v.readSeq
    && s.applFrames == v.writeSeq * c.periodFrames + s.stageFrames
  }

  // Where the frames have got to: read by a live reader, or only published if there is none.
  function Position(c: Config, v: C.RingView, live: bool): nat {
    (if live then v.readSeq else v.writeSeq) * c.periodFrames
  }

  lemma UnreadFrames(c: Config, v: C.RingView)
    requires v.readSeq <= v.writeSeq
    ensures v.readSeq * c.periodFrames + (v.writeSeq - v.readSeq) * c.periodFrames == v.writeSeq * c.periodFrames
  {
    Distribute(v.readSeq, v.writeSeq - v.readSeq, c.periodFrames);
  }

  /** A playback report never passes what the reader has read, or what has been published if no reader is
      live; ungoverned and with room to move it is exactly there. */
  lemma ReportIsRingPosition(c: Config, st: PointerState, s: Sample, v: C.RingView)
    requires Samples(s, c, v)
    ensures var e, at := Report(c, st, s), Position(c, v, s.readerLive);
            && (e.lastReported > st.lastReported ==> e.lastReported <= at)
            && (!c.paceNominal && st.lastReported <= at && at + c.periodFrames <= st.lastReported + c.bufferSize ==>
                  e.lastReported == at)
  {
    ReportConserves(c, st, s);
    UnreadFrames(c, v);
    hide Report;
  }

  /** Over a whole stream of calls, governed or not, the report never passes the furthest the ring had got
      at any of them. */
  lemma {:induction false} NeverAheadOfRing(c: Config, st: PointerState, samples: seq<Sample>, views: seq<C.RingView>,
                                            k: nat, limit: nat)
    requires |views| == |samples| && k <= |samples| && st.lastReported <= limit
    requires forall i :: 0 <= i < |samples| ==> Samples(samples[i], c, views[i])
    requires forall i :: 0 <= i < k ==> Position(c, views[i], samples[i].readerLive) <= limit
    ensures StateAt(c, st, samples, k).lastReported <= limit
  {
    hide Report, Samples, Position;
    if k > 0 {
      NeverAheadOfRing(c, st, samples, views, k - 1, limit);
      ReportIsRingPosition(c, StateAt(c, st, samples, k - 1), samples[k - 1], views[k - 1]);
      assert Position(c, views[k - 1], samples[k - 1].readerLive) <= limit;
    }
  }

  /** A capture report offers exactly what the next consumes will serve, besides what is already staged: a
      lapped reader, which jumps to the tip, is offered nothing from the ring. */
  lemma CaptureOffersWhatIsServed(c: Config, s: CaptureSample, v: C.RingView, mirror: nat)
    requires c.periodFrames > 0 && c.bufferSize == v.nSlots * c.periodFrames
    requires mirror <= v.writeSeq && s.occupancySlots == v.writeSeq - mirror
    ensures CaptureHonest(c, s)
            == s.applFrames + (v.writeSeq - C.Resynced(v, mirror)) * c.periodFrames + s.destageFrames + s.pendingSilence
  {
    FitsIff(s.occupancySlots, c.bufferSize, c.periodFrames);
    DivUnique(c.bufferSize, v.nSlots, 0, c.periodFrames);
  }
}
