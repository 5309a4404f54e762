/**
  The ioplug position reports and their pacing governor (c/jts-ring-ioplug/jts_ring_shm.h).
  `Report` and `CaptureReport` are the specification functions of one pointer call; the class
  `Pointer` is the struct the C code updates in place. The theorems range over whole streams of
  calls.
 */
module PointerCore {
  import opened PaceTokens
  import TokenBucket

  // What stays fixed for one PCM.
  datatype Config = Config(periodFrames: nat, bufferSize: nat, paceNominal: bool, rate: nat) {
    function Cap(): nat { bufferSize * TOKENS_PER_FRAME }

    function MaxAdvance(): nat {
      if bufferSize > periodFrames then bufferSize - periodFrames else 0
    }

    // A governed PCM at the one rate a ring carries.
    predicate Governed() { paceNominal && rate == RATE_HZ }
  }

  // What one playback call samples.
  datatype Sample = Sample(applFrames: nat, occupancySlots: nat, stageFrames: nat, readerLive: bool, nowNs: nat)

  // What one capture call samples.
  datatype CaptureSample =
    CaptureSample(applFrames: nat, occupancySlots: nat, destageFrames: nat, pendingSilence: nat)

  datatype PointerState = PointerState(
    lastReported: nat, paceLastNs: nat, paceTokens: nat, paceBoundNs: nat, prevReaderLive: bool)

  // ----- one call -------------------------------------------------------------------------

  function Prepared(c: Config, playback: bool, nowNs: nat): PointerState {
    if !c.paceNominal || !playback then PointerState(0, 0, 0, 0, false)
    else PointerState(0, if nowNs == 0 then 1 else nowNs, c.Cap(), 0, true)
  }

  function Honest(c: Config, s: Sample): nat {
    var inFlight := s.stageFrames + if s.readerLive then s.occupancySlots * c.periodFrames else 0;
    if s.applFrames >= inFlight then s.applFrames - inFlight else 0
  }

  function Elapsed(st: PointerState, s: Sample): nat {
    if s.nowNs > st.paceLastNs then s.nowNs - st.paceLastNs else 0
  }

  predicate Reattached(st: PointerState, s: Sample) { s.readerLive && !st.prevReaderLive }

  // The bucket as one call finds it: re-seeded on a reattach, refilled, capped.
  function Held(c: Config, st: PointerState, s: Sample): nat {
    var seeded := if Reattached(st, s) then c.Cap() else st.paceTokens;
    var filled := seeded + RefillTokens(Elapsed(st, s), c.rate);
    if filled > c.Cap() then c.Cap() else filled
  }

  function WholePeriods(frames: nat, period: nat): nat {
    if period > 0 then frames - frames % period else frames
  }

  lemma GrantFits(frames: nat, period: nat)
    ensures WholePeriods(frames, period) <= frames && (period > 0 ==> 0 <= frames % period <= frames)
  {
  }

  function Pace(c: Config, st: PointerState, honest: nat, s: Sample): (PointerState, nat) {
    if !c.paceNominal || st.paceLastNs == 0 then (st, honest) else
    var held := Held(c, st, s);
    var st1 := st.(paceLastNs := s.nowNs, prevReaderLive := s.readerLive, paceTokens := held);
    if honest <= st.lastReported then (st1, honest) else
    var want := honest - st.lastReported;
    if want <= held / TOKENS_PER_FRAME then
      (st1.(paceTokens := held - want * TOKENS_PER_FRAME), honest)
    else
      var grant := WholePeriods(held / TOKENS_PER_FRAME, c.periodFrames);
      (st1.(paceTokens := held - grant * TOKENS_PER_FRAME,
            paceBoundNs := st.paceBoundNs + Elapsed(st, s)),
       st.lastReported + grant)
  }

  function Clamp(c: Config, st: PointerState, honest: nat): PointerState {
    var advance := if honest > st.lastReported then honest - st.lastReported else 0;
    st.(lastReported := st.lastReported + if advance > c.MaxAdvance() then c.MaxAdvance() else advance)
  }

  function Report(c: Config, st: PointerState, s: Sample): PointerState {
    var (st1, target) := Pace(c, st, Honest(c, s), s);
    Clamp(c, st1, target)
  }

  function BoundedOccupancy(occupancySlots: nat, nSlots: nat): nat {
    if occupancySlots > nSlots then 0 else occupancySlots
  }

  function CaptureHonest(c: Config, s: CaptureSample): nat {
    var nSlots := if c.periodFrames > 0 then c.bufferSize / c.periodFrames else 0;
    s.applFrames + BoundedOccupancy(s.occupancySlots, nSlots) * c.periodFrames
    + s.destageFrames + s.pendingSilence
  }

  function CaptureReport(c: Config, st: PointerState, s: CaptureSample): PointerState {
    Clamp(c, st, CaptureHonest(c, s))
  }

  // One playback report against its own inputs.
  lemma ReportConserves(c: Config, st: PointerState, s: Sample)
    ensures var e, inFlight := Report(c, st, s), s.stageFrames + if s.readerLive then s.occupancySlots * c.periodFrames else 0;
            && (e.lastReported > st.lastReported ==> e.lastReported + inFlight <= s.applFrames)
            && (!c.paceNominal && st.lastReported + inFlight <= s.applFrames
                && s.applFrames + c.periodFrames <= st.lastReported + inFlight + c.bufferSize ==>
                  e.lastReported + inFlight == s.applFrames)
  {
    hide Held, Elapsed;
    PaceIsBelow(c, st, Honest(c, s), s);
    hide Pace;
  }

  lemma PaceIsBelow(c: Config, st: PointerState, honest: nat, s: Sample)
    ensures var (e, target) := Pace(c, st, honest, s);
            e.lastReported == st.lastReported && target <= honest && (!c.paceNominal ==> target == honest)
  {
    GrantFits(Held(c, st, s) / TOKENS_PER_FRAME, c.periodFrames);
    hide Held, Elapsed;
  }

  lemma FitsIff(slots: nat, buffer: nat, period: nat)
    requires period > 0
    ensures slots * period <= buffer <==> slots <= buffer / period
  {
    var q := buffer / period;
    assert q * period <= buffer < q * period + period;
    Distribute(q, 1, period);
    MulMono(slots, q, period);
    MulMono(q + 1, slots, period);
  }

  /** A governed advance is paid for exactly. It is granted in full if and only if the bucket holds it;
      otherwise in whole periods, as many as the bucket holds, and the wait is put on account. */
  lemma GrantIsMaximal(c: Config, st: PointerState, honest: nat, s: Sample)
    requires c.paceNominal && st.paceLastNs > 0 && honest > st.lastReported
    ensures var (e, target) := Pace(c, st, honest, s);
            && st.lastReported <= target <= honest
            && (target - st.lastReported) * TOKENS_PER_FRAME + e.paceTokens == Held(c, st, s)
            && (target == honest <==> (honest - st.lastReported) * TOKENS_PER_FRAME <= Held(c, st, s))
            && (target == honest ==> e.paceBoundNs == st.paceBoundNs)
            && (target < honest ==>
                  && e.paceTokens < (if c.periodFrames > 0 then c.periodFrames else 1) * TOKENS_PER_FRAME
                  && (c.periodFrames > 0 ==> (target - st.lastReported) % c.periodFrames == 0)
                  && e.paceBoundNs == st.paceBoundNs + if s.nowNs > st.paceLastNs then s.nowNs - st.paceLastNs else 0)
  {
    var held, period := Held(c, st, s), c.periodFrames;
    hide Held;
    var frames := held / TOKENS_PER_FRAME;
    GrantFits(frames, period);
    if period > 0 { WholeMultiple(frames, period); }
  }

  lemma WholeMultiple(frames: nat, period: nat)
    requires period > 0
    ensures (frames - frames % period) % period == 0 && frames % period < period
  {
    DivUnique(frames - frames % period, frames / period, 0, period);
    assert frames - frames % period == frames / period * period;
  }

  /** The struct as the C code keeps it: five fields updated in place. */
  class Pointer {
    var lastReported: nat
    var paceLastNs: nat
    var paceTokens: nat
    var paceBoundNs: nat
    var prevReaderLive: bool

    ghost function View(): PointerState
      reads this
    {
      PointerState(lastReported, paceLastNs, paceTokens, paceBoundNs, prevReaderLive)
    }

    method Prepare(c: Config, playback: bool, nowNs: nat)
      modifies this
      ensures View() == Prepared(c, playback, nowNs)
      ensures lastReported == paceBoundNs == 0
      ensures c.paceNominal && playback ==>
                Armed(c, View()) && paceTokens == c.Cap() && prevReaderLive && (nowNs > 0 ==> paceLastNs == nowNs)
    {
      lastReported, paceLastNs, paceTokens, paceBoundNs, prevReaderLive := 0, 0, 0, 0, false;
      Arm(c, playback, nowNs);
    }

    method Arm(c: Config, playback: bool, nowNs: nat)
      modifies this`paceLastNs, this`paceTokens, this`prevReaderLive
      ensures !c.paceNominal || !playback ==> View() == old(View())
      ensures c.paceNominal && playback ==>
                paceLastNs > 0 && paceTokens == c.Cap() && prevReaderLive && (nowNs > 0 ==> paceLastNs == nowNs)
      ensures nowNs == 0 && c.paceNominal && playback ==> paceLastNs == 1
    {
      if !c.paceNominal || !playback { return; }
      paceLastNs := if nowNs == 0 then 1 else nowNs;
      paceTokens := c.bufferSize * TOKENS_PER_FRAME;
      prevReaderLive := true;
    }

    // The refill half of the governor: re-seed on a reattach, credit the elapsed time, cap.
    method Refill(c: Config, s: Sample) returns (dt: nat)
      modifies this`paceLastNs, this`paceTokens, this`prevReaderLive
      ensures dt == old(Elapsed(View(), s))
      ensures View() == old(View()).(paceLastNs := s.nowNs, prevReaderLive := s.readerLive,
                                     paceTokens := Held(c, old(View()), s))
    {
      dt := if s.nowNs > paceLastNs then s.nowNs - paceLastNs else 0;
      paceLastNs := s.nowNs;
      var cap := c.bufferSize * TOKENS_PER_FRAME;
      if s.readerLive && !prevReaderLive { paceTokens := cap; }
      prevReaderLive := s.readerLive;
      paceTokens := paceTokens + RefillTokens(dt, c.rate);
      if paceTokens > cap { paceTokens := cap; }
    }

    method PaceApply(c: Config, honest: nat, s: Sample) returns (target: nat)
      modifies this`paceLastNs, this`paceTokens, this`paceBoundNs, this`prevReaderLive
      ensures (View(), target) == Pace(c, old(View()), honest, s)
    {
      if !c.paceNominal || paceLastNs == 0 { return honest; }
      hide Held, Elapsed, RefillTokens;
      var dt := Refill(c, s);
      var want := if honest > lastReported then honest - lastReported else 0;
      if want == 0 { return honest; }
      var affordable := paceTokens / TOKENS_PER_FRAME;
      if want <= affordable {
        paceTokens := paceTokens - want * TOKENS_PER_FRAME;
        return honest;
      }
      GrantFits(affordable, c.periodFrames);
      var grant := affordable;
      if c.periodFrames > 0 { grant := grant - grant % c.periodFrames; }
      assert grant == WholePeriods(affordable, c.periodFrames);
      hide WholePeriods;
      paceTokens := paceTokens - grant * TOKENS_PER_FRAME;
      paceBoundNs := paceBoundNs + dt;
      return lastReported + grant;
    }

    method ClampForward(c: Config, honest: nat) returns (reported: nat)
      modifies this`lastReported
      ensures View() == Clamp(c, old(View()), honest) && reported == lastReported
      // towards the honest position, but always a period short of a whole buffer, and no shorter
      ensures reported >= old(lastReported)
      ensures reported > old(lastReported) ==>
                reported <= honest && reported + c.periodFrames <= old(lastReported) + c.bufferSize
      ensures reported < honest ==> reported + c.periodFrames >= old(lastReported) + c.bufferSize
    {
      var advance := if honest > lastReported then honest - lastReported else 0;
      var maxAdvance := if c.bufferSize > c.periodFrames then c.bufferSize - c.periodFrames else 0;
      if advance > maxAdvance { advance := maxAdvance; }
      lastReported := lastReported + advance;
      return lastReported;
    }

    method ReportPlayback(c: Config, s: Sample) returns (reported: nat)
      modifies this
      ensures View() == Report(c, old(View()), s) && reported == lastReported
      // What the app has written is reported, staged, or lies unread before a live reader; nothing in
      // flight is ever reported, and ungoverned all the rest is, as far as the clamp lets it.
      ensures var inFlight := s.stageFrames + if s.readerLive then s.occupancySlots * c.periodFrames else 0;
              && (reported > old(lastReported) ==> reported + inFlight <= s.applFrames)
              && (!c.paceNominal && old(lastReported) + inFlight <= s.applFrames
                  && s.applFrames + c.periodFrames <= old(lastReported) + inFlight + c.bufferSize ==>
                    reported + inFlight == s.applFrames)
    {
      ReportConserves(c, View(), s);
      var inFlight := s.stageFrames;
      if s.readerLive { inFlight := s.occupancySlots * c.periodFrames + s.stageFrames; }
      var honest := if s.applFrames >= inFlight then s.applFrames - inFlight else 0;
      honest := PaceApply(c, honest, s);
      reported := ClampForward(c, honest);
    }

    method ReportCapture(c: Config, s: CaptureSample) returns (reported: nat)
      modifies this`lastReported
      ensures View() == CaptureReport(c, old(View()), s) && reported == lastReported
      // The app may read what lies unread in the ring, if that is no more than a ring holds, the rest of
      // its slot, and the silence armed for it; never more, and all of it as far as the clamp lets it.
      ensures var unread := s.occupancySlots * c.periodFrames;
              var readable := s.destageFrames + s.pendingSilence + if unread <= c.bufferSize then unread else 0;
              && (reported > old(lastReported) ==> reported <= s.applFrames + readable)
              && (old(lastReported) <= s.applFrames + readable
                  && s.applFrames + readable + c.periodFrames <= old(lastReported) + c.bufferSize ==>
                    reported == s.applFrames + readable)
    {
      if c.periodFrames > 0 { FitsIff(s.occupancySlots, c.bufferSize, c.periodFrames); }
      var occupancy :=
        BoundedOccupancy(s.occupancySlots, if c.periodFrames > 0 then c.bufferSize / c.periodFrames else 0);
      var readable := occupancy * c.periodFrames + s.destageFrames + s.pendingSilence;
      reported := ClampForward(c, s.applFrames + readable);
    }
  }

  // ----- streams of governed calls --------------------------------------------------------

  // The state after the first k playback calls.
  function StateAt(c: Config, st: PointerState, samples: seq<Sample>, k: nat): PointerState
    requires k <= |samples|
  {
    if k == 0 then st else Report(c, StateAt(c, st, samples, k - 1), samples[k - 1])
  }

  function TimeAt(start: nat, samples: seq<Sample>, k: nat): nat
    requires k <= |samples|
  {
    if k == 0 then start else samples[k - 1].nowNs
  }

  // 64-bit clock samples that never go back.
  predicate ClockFrom(start: nat, samples: seq<Sample>) {
    forall i {:trigger TimeAt(start, samples, i)} ::
      0 <= i < |samples| ==> TimeAt(start, samples, i) <= samples[i].nowNs < U64
  }

  // The time the first k calls span.
  function Span(start: nat, samples: seq<Sample>, k: nat): nat
    requires ClockFrom(start, samples) && k <= |samples|
  {
    ClockGrows(start, samples, k);
    TimeAt(start, samples, k) - start
  }

  lemma ClockGrows(start: nat, samples: seq<Sample>, k: nat)
    requires ClockFrom(start, samples) && k <= |samples|
    ensures start <= TimeAt(start, samples, k)
  {
    if k > 0 {
      ClockGrows(start, samples, k - 1);
      assert TimeAt(start, samples, k - 1) <= samples[k - 1].nowNs;
    }
  }

  function LiveAt(start: bool, samples: seq<Sample>, k: nat): bool
    requires k <= |samples|
  {
    if k == 0 then start else samples[k - 1].readerLive
  }

  // Reader dead-to-live edges among the first k calls.
  function Edges(start: bool, samples: seq<Sample>, k: nat): nat
    requires k <= |samples|
  {
    if k == 0 then 0
    else Edges(start, samples, k - 1)
         + if samples[k - 1].readerLive && !LiveAt(start, samples, k - 1) then 1 else 0
  }

  // The tokens those edges re-seed.
  function Reseeded(c: Config, start: bool, samples: seq<Sample>, k: nat): nat
    requires k <= |samples|
  {
    if k == 0 then 0
    else Reseeded(c, start, samples, k - 1)
         + if samples[k - 1].readerLive && !LiveAt(start, samples, k - 1) then c.Cap() else 0
  }

  lemma {:induction false} ReseededIsCapPerEdge(c: Config, start: bool, samples: seq<Sample>, k: nat)
    requires k <= |samples|
    ensures Reseeded(c, start, samples, k) == c.bufferSize * Edges(start, samples, k) * TOKENS_PER_FRAME
  {
    if k > 0 {
      ReseededIsCapPerEdge(c, start, samples, k - 1);
      OneMoreCap(c.bufferSize, Edges(start, samples, k - 1));
    }
  }

  lemma OneMoreCap(buffer: nat, n: nat)
    ensures buffer * (n + 1) * TOKENS_PER_FRAME == buffer * n * TOKENS_PER_FRAME + buffer * TOKENS_PER_FRAME
  {
    Distribute(n, 1, buffer);
  }

  predicate Armed(c: Config, st: PointerState) {
    st.paceLastNs > 0 && st.paceTokens <= c.Cap()
  }

  // One governed call pays for every frame it reports out of the bucket it found.
  lemma ReportSpends(c: Config, st: PointerState, s: Sample)
    requires c.paceNominal && Armed(c, st)
    ensures var e := Report(c, st, s);
            && e.paceLastNs == s.nowNs && e.prevReaderLive == s.readerLive && e.lastReported >= st.lastReported
            && (e.lastReported - st.lastReported) * TOKENS_PER_FRAME + e.paceTokens <= Held(c, st, s) <= c.Cap()
  {
  }

  // The governor's inputs survive a run: nothing but the calls themselves moves them.
  lemma {:induction false} RunTracksClock(c: Config, st: PointerState, samples: seq<Sample>, k: nat)
    requires c.Governed() && Armed(c, st) && ClockFrom(st.paceLastNs, samples) && k <= |samples|
    ensures var e := StateAt(c, st, samples, k);
            && Armed(c, e) && e.paceLastNs == TimeAt(st.paceLastNs, samples, k)
            && e.paceLastNs >= st.paceLastNs && e.prevReaderLive == LiveAt(st.prevReaderLive, samples, k)
  {
    if k > 0 {
      RunTracksClock(c, st, samples, k - 1);
      ReportSpends(c, StateAt(c, st, samples, k - 1), samples[k - 1]);
    }
  }

  // What call k adds to the bucket.
  function CreditOf(c: Config, st: PointerState, samples: seq<Sample>, k: nat): nat
    requires k < |samples|
  {
    if samples[k].readerLive && !LiveAt(st.prevReaderLive, samples, k) then c.Cap()
    else if samples[k].nowNs < TimeAt(st.paceLastNs, samples, k) then 0
    else ExactRefill(samples[k].nowNs - TimeAt(st.paceLastNs, samples, k), RATE_HZ)
  }

  lemma {:induction false} CallSpends(c: Config, st: PointerState, samples: seq<Sample>, k: nat)
    requires c.Governed() && Armed(c, st) && ClockFrom(st.paceLastNs, samples) && k < |samples|
    ensures var e, e1 := StateAt(c, st, samples, k), StateAt(c, st, samples, k + 1);
            && e.lastReported <= e1.lastReported
            && (e1.lastReported - e.lastReported) * TOKENS_PER_FRAME + e1.paceTokens
               <= e.paceTokens + CreditOf(c, st, samples, k)
  {
    RunTracksClock(c, st, samples, k);
    var e := StateAt(c, st, samples, k);
    assert TimeAt(st.paceLastNs, samples, k) <= samples[k].nowNs < U64;
    ReportSpends(c, e, samples[k]);
    RefillIsExact(Elapsed(e, samples[k]));
  }

  lemma {:induction false} CreditBound(c: Config, st: PointerState, samples: seq<Sample>, credits: seq<nat>, k: nat)
    requires ClockFrom(st.paceLastNs, samples) && k <= |samples| == |credits|
    requires forall i :: 0 <= i < |samples| ==> credits[i] == CreditOf(c, st, samples, i)
    ensures TokenBucket.Total(credits, k)
            <= Reseeded(c, st.prevReaderLive, samples, k) + ExactRefill(Span(st.paceLastNs, samples, k), RATE_HZ)
  {
    hide ExactRefill;
    if k > 0 {
      CreditBound(c, st, samples, credits, k - 1);
      assert TimeAt(st.paceLastNs, samples, k - 1) <= samples[k - 1].nowNs;
      RefillSplit(Span(st.paceLastNs, samples, k - 1),
                  samples[k - 1].nowNs - TimeAt(st.paceLastNs, samples, k - 1), RATE_HZ);
    }
  }

  /** Whatever the app demands, the tokens a stream has spent never exceed the bucket it started
      with, one bucket per reader reattach, and the refill of the whole elapsed time. */
  lemma {:induction false} AdvanceBound(c: Config, st: PointerState, samples: seq<Sample>, k: nat)
    requires c.Governed() && Armed(c, st) && ClockFrom(st.paceLastNs, samples) && k <= |samples|
    ensures var e := StateAt(c, st, samples, k);
            (e.lastReported - st.lastReported) * TOKENS_PER_FRAME + e.paceTokens
            <= st.paceTokens + Reseeded(c, st.prevReaderLive, samples, k)
               + ExactRefill(Span(st.paceLastNs, samples, k), RATE_HZ)
  {
    hide Report, RefillTokens, ExactRefill;
    var n := |samples|;
    var spent := seq(n + 1, i requires 0 <= i <= n => StateAt(c, st, samples, i).lastReported * TOKENS_PER_FRAME);
    var left := seq(n + 1, i requires 0 <= i <= n => StateAt(c, st, samples, i).paceTokens);
    var credits := seq(n, i requires 0 <= i < n => CreditOf(c, st, samples, i));
    forall i | 0 <= i < n ensures spent[i + 1] - spent[i] + left[i + 1] <= left[i] + credits[i] {
      CallSpends(c, st, samples, i);
    }
    TokenBucket.RunSpends(spent, left, credits, k);
    CreditBound(c, st, samples, credits, k);
  }

  /** From prepare, in frames: one buffer, one more per reader reattach, and the nominal rate plus
      headroom. The clock must not read zero, see `BoundedForeverIff`. */
  lemma {:induction false} AdvanceBoundFromPrepare(c: Config, nowNs: nat, samples: seq<Sample>, k: nat)
    requires c.Governed() && ClockFrom(nowNs, samples) && k <= |samples|
    requires forall i :: 0 <= i < |samples| ==> samples[i].nowNs > 0
    ensures StateAt(c, Prepared(c, true, nowNs), samples, k).lastReported
            <= c.bufferSize * (1 + Edges(true, samples, k))
               + ExactRefill(Span(nowNs, samples, k), RATE_HZ) / TOKENS_PER_FRAME
  {
    hide Report, RefillTokens, ExactRefill;
    var st := Prepared(c, true, nowNs);
    forall i | 0 <= i < |samples| ensures TimeAt(st.paceLastNs, samples, i) <= samples[i].nowNs < U64 {
      assert TimeAt(nowNs, samples, i) <= samples[i].nowNs;
    }
    AdvanceBound(c, st, samples, k);
    RunTracksClock(c, st, samples, k);
    ReseededIsCapPerEdge(c, true, samples, k);
    var e, span := StateAt(c, st, samples, k), Span(nowNs, samples, k);
    var used := e.paceLastNs - st.paceLastNs;
    assert used <= span;
    RefillSplit(used, span - used, RATE_HZ);
    BoundInFrames(e.lastReported, c.bufferSize, Edges(true, samples, k), ExactRefill(span, RATE_HZ));
  }

  lemma BoundInFrames(frames: nat, buffer: nat, n: nat, refill: nat)
    requires frames * TOKENS_PER_FRAME
             <= buffer * TOKENS_PER_FRAME + buffer * n * TOKENS_PER_FRAME + refill
    ensures frames <= buffer * (1 + n) + refill / TOKENS_PER_FRAME
  {
    assert buffer * (1 + n) == buffer + buffer * n;
  }

  /** On a clock that starts at zero the governor stays armed exactly as long as no call samples
      zero: prepare refuses the zero sentinel, a call stores it. */
  lemma {:induction false} ArmedIffNoZeroSample(c: Config, nowNs: nat, samples: seq<Sample>, k: nat)
    requires c.Governed() && ClockFrom(nowNs, samples) && k <= |samples|
    ensures StateAt(c, Prepared(c, true, nowNs), samples, k).paceLastNs > 0
            <==> forall i :: 0 <= i < k ==> samples[i].nowNs > 0
  {
    if k > 0 {
      ArmedIffNoZeroSample(c, nowNs, samples, k - 1);
      var before := StateAt(c, Prepared(c, true, nowNs), samples, k - 1);
      assert StateAt(c, Prepared(c, true, nowNs), samples, k) == Report(c, before, samples[k - 1]);
      hide Report, StateAt, ClockFrom, Prepared;
      ReportClock(c, before, samples[k - 1]);
    }
  }

  // A governed call stores its clock sample as it is; one that finds the governor disarmed stores none.
  lemma ReportClock(c: Config, st: PointerState, s: Sample)
    requires c.paceNominal
    ensures Report(c, st, s).paceLastNs == if st.paceLastNs == 0 then 0 else s.nowNs
  {
    hide Held, Honest, RefillTokens, WholePeriods;
  }

  /** Once disarmed, a governed stream reports exactly what an ungoverned one would, forever. */
  lemma {:induction false} DisarmedIsUngoverned(c: Config, st: PointerState, samples: seq<Sample>, k: nat)
    requires st.paceLastNs == 0 && k <= |samples|
    ensures StateAt(c, st, samples, k) == StateAt(c.(paceNominal := false), st, samples, k)
    ensures StateAt(c, st, samples, k).paceLastNs == 0
  {
    if k > 0 { DisarmedIsUngoverned(c, st, samples, k - 1); }
  }

  /** The bound of `AdvanceBoundFromPrepare` fails for a stream prepared and called at clock zero. */
  lemma ZeroSampleDisarms()
    ensures var c, s := Config(128, 2048, true, RATE_HZ), Sample(100_000, 0, 0, true, 0);
            && ClockFrom(0, [s, s])
            && StateAt(c, Prepared(c, true, 0), [s, s], 2).lastReported
               > c.bufferSize * (1 + Edges(true, [s, s], 2)) + ExactRefill(0, RATE_HZ) / TOKENS_PER_FRAME
  {
    var c, s := Config(128, 2048, true, RATE_HZ), Sample(100_000, 0, 0, true, 0);
    var st := Prepared(c, true, 0);
    assert Held(c, st, s) == c.Cap();
    assert StateAt(c, st, [s, s], 1) == Report(c, st, s);
    assert Report(c, st, s).lastReported == 1920 && Report(c, st, s).paceLastNs == 0;
    assert StateAt(c, st, [s, s], 2).lastReported == 3840;
    assert Edges(true, [s, s], 1) == 0;
  }

  // ----- conforming streams ---------------------------------------------------------------

  // The honest position before call i.
  function PosAt(c: Config, start: nat, samples: seq<Sample>, i: nat): nat
    requires i <= |samples|
  {
    if i == 0 then start else Honest(c, samples[i - 1])
  }

  // Call i moves the honest position forward by at most one clamp step.
  predicate StepFits(c: Config, start: nat, samples: seq<Sample>, i: nat)
    requires i < |samples|
  {
    PosAt(c, start, samples, i) <= PosAt(c, start, samples, i + 1) <= PosAt(c, start, samples, i) + c.MaxAdvance()
  }

  predicate InStep(c: Config, start: nat, samples: seq<Sample>, n: nat)
    requires n <= |samples|
  {
    forall i :: 0 <= i < n ==> StepFits(c, start, samples, i)
  }

  // The stream's honest demand as a demand curve against the governor's refills and re-seeds.
  ghost function DemandOf(c: Config, st: PointerState, samples: seq<Sample>): (d: TokenBucket.Stream)
    ensures d.Valid() && |d.refill| == |samples|
  {
    var n := |samples|;
    TokenBucket.Stream(
      c.Cap(),
      seq(n + 1, i requires 0 <= i <= n => PosAt(c, st.lastReported, samples, i) * TOKENS_PER_FRAME),
      seq(n, i requires 0 <= i < n => RefillTokens(GapAt(st, samples, i), c.rate)),
      seq(n, i requires 0 <= i < n => samples[i].readerLive && !LiveAt(st.prevReaderLive, samples, i)))
  }

  function GapAt(st: PointerState, samples: seq<Sample>, i: nat): nat
    requires i < |samples|
  {
    var before := TimeAt(st.paceLastNs, samples, i);
    if samples[i].nowNs > before then samples[i].nowNs - before else 0
  }

  predicate HonestAt(c: Config, st: PointerState, samples: seq<Sample>, k: nat)
    requires k <= |samples|
  {
    StateAt(c, st, samples, k).lastReported == PosAt(c, st.lastReported, samples, k)
  }

  // Every one of the first n reports is the honest position.
  predicate AllHonest(c: Config, st: PointerState, samples: seq<Sample>, n: nat)
    requires n <= |samples|
  {
    forall k :: 0 <= k <= n ==> HonestAt(c, st, samples, k)
  }

  lemma ReportHonestIff(c: Config, st: PointerState, s: Sample)
    requires c.paceNominal && Armed(c, st)
    ensures Report(c, st, s).lastReported == Honest(c, s)
            <==> && st.lastReported <= Honest(c, s) <= st.lastReported + c.MaxAdvance()
                 && (Honest(c, s) - st.lastReported) * TOKENS_PER_FRAME <= Held(c, st, s)
    ensures Report(c, st, s).lastReported == Honest(c, s) ==>
              && Report(c, st, s).paceBoundNs == st.paceBoundNs
              && Report(c, st, s).paceTokens == Held(c, st, s) - (Honest(c, s) - st.lastReported) * TOKENS_PER_FRAME
  {
  }

  predicate FullAndArmed(c: Config, st: PointerState, samples: seq<Sample>) {
    c.Governed() && Armed(c, st) && st.paceTokens == c.Cap() && ClockFrom(st.paceLastNs, samples)
  }

  // As long as the reports are honest, the C bucket is the bucket of the demand curve.
  lemma {:induction false} HeldIsBucket(c: Config, st: PointerState, samples: seq<Sample>, j: nat)
    requires FullAndArmed(c, st, samples) && j < |samples| && AllHonest(c, st, samples, j)
    ensures Held(c, StateAt(c, st, samples, j), samples[j]) == DemandOf(c, st, samples).Held(j)
    ensures StateAt(c, st, samples, j).paceBoundNs == st.paceBoundNs
  {
    hide Report, RefillTokens, Honest, Held;
    if j == 0 {
      FullHeld(c, st, samples[0]);
    } else {
      HeldIsBucket(c, st, samples, j - 1);
      RunTracksClock(c, st, samples, j - 1);
      var e := StateAt(c, st, samples, j - 1);
      assert HonestAt(c, st, samples, j - 1) && HonestAt(c, st, samples, j);
      AfterHonestReport(c, e, samples[j - 1], samples[j]);
    }
  }

  lemma FullHeld(c: Config, st: PointerState, s: Sample)
    requires st.paceTokens == c.Cap()
    ensures Held(c, st, s) == c.Cap()
  {
  }

  // The bucket one call after an honest report.
  lemma AfterHonestReport(c: Config, st: PointerState, s: Sample, next: Sample)
    requires c.paceNominal && Armed(c, st) && Report(c, st, s).lastReported == Honest(c, s)
    ensures var e := Report(c, st, s);
            && e.paceBoundNs == st.paceBoundNs
            && Held(c, e, next) == if next.readerLive && !s.readerLive then c.Cap()
                                   else TokenBucket.Min(c.Cap(), Held(c, st, s)
                                          - (Honest(c, s) - st.lastReported) * TOKENS_PER_FRAME
                                          + RefillTokens(if next.nowNs > s.nowNs then next.nowNs - s.nowNs else 0, c.rate))
  {
    ReportHonestIff(c, st, s);
    ReportSpends(c, st, s);
  }

  /** Token-bucket conformance, exactly: a stream that starts with a full bucket is reported
      honestly at every call if and only if it moves forward by at most one clamp step per call and
      the demand of every window between re-seeds fits one bucket plus the window's refills. */
  lemma {:induction false} HonestIffConforming(c: Config, st: PointerState, samples: seq<Sample>, n: nat)
    requires FullAndArmed(c, st, samples) && n <= |samples|
    ensures AllHonest(c, st, samples, n)
            <==> InStep(c, st.lastReported, samples, n) && DemandOf(c, st, samples).Conforms(n)
    ensures AllHonest(c, st, samples, n) ==> StateAt(c, st, samples, n).paceBoundNs == st.paceBoundNs
  {
    HonestIffGranted(c, st, samples, n);
    TokenBucket.GrantedIffConforms(DemandOf(c, st, samples), n);
  }

  lemma {:induction false} HonestIffGranted(c: Config, st: PointerState, samples: seq<Sample>, n: nat)
    requires FullAndArmed(c, st, samples) && n <= |samples|
    ensures AllHonest(c, st, samples, n)
            <==> InStep(c, st.lastReported, samples, n) && DemandOf(c, st, samples).AllGranted(n)
    ensures AllHonest(c, st, samples, n) ==> StateAt(c, st, samples, n).paceBoundNs == st.paceBoundNs
  {
    assert HonestAt(c, st, samples, 0);
    if n == 0 {
      assert AllHonest(c, st, samples, 0) && InStep(c, st.lastReported, samples, 0);
    } else {
      HonestIffGranted(c, st, samples, n - 1);
      OneMoreCall(c, st, samples, n - 1);
      hide HonestAt, AllHonest, InStep, StepFits, DemandOf, FullAndArmed, StateAt;
      hide TokenBucket.Stream.Granted, TokenBucket.Stream.AllGranted;
      if AllHonest(c, st, samples, n - 1) { NextCallHonestIff(c, st, samples, n - 1); }
    }
  }

  lemma {:induction false} OneMoreCall(c: Config, st: PointerState, samples: seq<Sample>, n: nat)
    requires n < |samples|
    ensures AllHonest(c, st, samples, n + 1) <==> AllHonest(c, st, samples, n) && HonestAt(c, st, samples, n + 1)
    ensures InStep(c, st.lastReported, samples, n + 1)
            <==> InStep(c, st.lastReported, samples, n) && StepFits(c, st.lastReported, samples, n)
    ensures var d := DemandOf(c, st, samples); d.AllGranted(n + 1) <==> d.AllGranted(n) && d.Granted(n)
  {
    hide HonestAt, StepFits, DemandOf, TokenBucket.Stream.Granted;
  }

  lemma {:induction false} NextCallHonestIff(c: Config, st: PointerState, samples: seq<Sample>, j: nat)
    requires FullAndArmed(c, st, samples) && j < |samples| && AllHonest(c, st, samples, j)
    ensures HonestAt(c, st, samples, j + 1)
            <==> StepFits(c, st.lastReported, samples, j) && DemandOf(c, st, samples).Granted(j)
    ensures HonestAt(c, st, samples, j + 1) ==> StateAt(c, st, samples, j + 1).paceBoundNs == st.paceBoundNs
  {
    hide Report, Honest, RefillTokens, Held;
    var e, d := StateAt(c, st, samples, j), DemandOf(c, st, samples);
    RunTracksClock(c, st, samples, j);
    HeldIsBucket(c, st, samples, j);
    ReportHonestIff(c, e, samples[j]);
    assert HonestAt(c, st, samples, j);
    assert d.pos[j + 1] - d.pos[j] == (Honest(c, samples[j]) - e.lastReported) * TOKENS_PER_FRAME;
  }

  // ----- what ALSA rebuilds ---------------------------------------------------------------

  datatype Call = Playback(sample: Sample) | Capture(capture: CaptureSample)

  function CallStep(c: Config, st: PointerState, call: Call): PointerState {
    match call
    case Playback(s) => Report(c, st, s)
    case Capture(s) => CaptureReport(c, st, s)
  }

  function CallsAt(c: Config, st: PointerState, calls: seq<Call>, k: nat): PointerState
    requires k <= |calls|
  {
    if k == 0 then st else CallStep(c, CallsAt(c, st, calls, k - 1), calls[k - 1])
  }

  // ALSA sees positions modulo the buffer and adds the apparent forward motion.
  function AlsaDelta(buffer: nat, before: nat, after: nat): int {
    if after >= before then after - before else buffer + after - before
  }

  function AlsaAt(c: Config, st: PointerState, calls: seq<Call>, k: nat): int
    requires k <= |calls| && c.bufferSize > 0
  {
    if k == 0 then st.lastReported
    else AlsaAt(c, st, calls, k - 1)
         + AlsaDelta(c.bufferSize, CallsAt(c, st, calls, k - 1).lastReported % c.bufferSize,
                     CallsAt(c, st, calls, k).lastReported % c.bufferSize)
  }

  lemma CallMovesForward(c: Config, st: PointerState, call: Call)
    ensures st.lastReported <= CallStep(c, st, call).lastReported <= st.lastReported + c.MaxAdvance()
  {
  }

  // A forward motion below one buffer is what its residues show; a whole buffer shows as nothing.
  lemma ResidueDelta(buffer: nat, before: nat, advance: nat)
    requires buffer > 0 && advance <= buffer
    ensures AlsaDelta(buffer, before % buffer, (before + advance) % buffer) == if advance < buffer then advance else 0
  {
    AddedResidue(buffer, before, advance);
  }

  lemma AddedResidue(buffer: nat, before: nat, advance: nat)
    requires buffer > 0 && advance <= buffer
    ensures var r := before % buffer;
            (before + advance) % buffer == if r + advance < buffer then r + advance else r + advance - buffer
  {
    var q, r := before / buffer, before % buffer;
    assert before == q * buffer + r;
    Distribute(q, 1, buffer);
    if r + advance < buffer {
      DivUnique(before + advance, q, r + advance, buffer);
    } else {
      DivUnique(before + advance, q + 1, r + advance - buffer, buffer);
    }
  }

  /** Over every mix of playback and capture reports the position never moves back, and the position
      ALSA rebuilds from residues is the raw reported one. */
  lemma {:induction false} AlsaRebuildsPosition(c: Config, st: PointerState, calls: seq<Call>, k: nat)
    requires c.bufferSize > c.periodFrames >= 1 && k <= |calls|
    ensures AlsaAt(c, st, calls, k) == CallsAt(c, st, calls, k).lastReported
    ensures k > 0 ==> CallsAt(c, st, calls, k - 1).lastReported <= CallsAt(c, st, calls, k).lastReported
  {
    if k > 0 {
      AlsaRebuildsPosition(c, st, calls, k - 1);
      var e := CallsAt(c, st, calls, k - 1);
      CallMovesForward(c, e, calls[k - 1]);
      ResidueDelta(c.bufferSize, e.lastReported, CallsAt(c, st, calls, k).lastReported - e.lastReported);
    }
  }

  /** A zero period is the one setting under which a single report can alias: some demand then
      moves a whole buffer, which ALSA reads as no motion. */
  lemma AliasFreeIffPeriod(c: Config, st: PointerState)
    requires c.bufferSize > 0
    ensures (forall honest: nat ::
               AlsaDelta(c.bufferSize, st.lastReported % c.bufferSize, Clamp(c, st, honest).lastReported % c.bufferSize)
               == Clamp(c, st, honest).lastReported - st.lastReported)
            <==> c.periodFrames >= 1
  {
    var B, last := c.bufferSize, st.lastReported;
    if c.periodFrames >= 1 {
      forall honest: nat
        ensures AlsaDelta(B, last % B, Clamp(c, st, honest).lastReported % B) == Clamp(c, st, honest).lastReported - last
      {
        ResidueDelta(B, last, Clamp(c, st, honest).lastReported - last);
      }
    } else {
      assert Clamp(c, st, last + B).lastReported == last + B;
      ResidueDelta(B, last, B);
    }
  }

  /** A fixed target is approached by full clamp steps and reached after ceil(gap / step) calls. */
  lemma {:induction false} CatchUp(c: Config, st: PointerState, s: Sample, k: nat)
    requires !c.paceNominal && c.bufferSize > c.periodFrames && st.lastReported <= Honest(c, s)
    ensures var gap, step := Honest(c, s) - st.lastReported, c.MaxAdvance();
            StateAt(c, st, seq(k, _ => s), k).lastReported
            == if k * step >= gap then Honest(c, s) else st.lastReported + k * step
  {
    CatchUpPrefix(c, st, s, seq(k, _ => s), k);
  }

  lemma {:induction false} CatchUpPrefix(c: Config, st: PointerState, s: Sample, calls: seq<Sample>, k: nat)
    requires !c.paceNominal && c.MaxAdvance() > 0 && st.lastReported <= Honest(c, s)
    requires k <= |calls| && forall i :: 0 <= i < |calls| ==> calls[i] == s
    ensures var gap, step := Honest(c, s) - st.lastReported, c.MaxAdvance();
            StateAt(c, st, calls, k).lastReported
            == if k * step >= gap then Honest(c, s) else st.lastReported + k * step
  {
    if k > 0 {
      CatchUpPrefix(c, st, s, calls, k - 1);
      assert k * c.MaxAdvance() == (k - 1) * c.MaxAdvance() + c.MaxAdvance();
    }
  }

  // ----- when the bound holds for good ----------------------------------------------------

  // The bound of `AdvanceBoundFromPrepare` at the end of a stream.
  function Bound(c: Config, nowNs: nat, samples: seq<Sample>): nat
    requires ClockFrom(nowNs, samples)
  {
    c.bufferSize * (1 + Edges(true, samples, |samples|))
    + ExactRefill(Span(nowNs, samples, |samples|), RATE_HZ) / TOKENS_PER_FRAME
  }

  predicate WithinBound(c: Config, nowNs: nat, samples: seq<Sample>)
    requires ClockFrom(nowNs, samples)
  {
    StateAt(c, Prepared(c, true, nowNs), samples, |samples|).lastReported <= Bound(c, nowNs, samples)
  }

  // Whatever the app and the clock do from here, the stream keeps within its bound.
  ghost predicate BoundedForever(c: Config, nowNs: nat, samples: seq<Sample>) {
    forall more: seq<Sample> :: ClockFrom(nowNs, samples + more) ==> WithinBound(c, nowNs, samples + more)
  }

  // The first call's reading, or prepare's while there is none.
  function FirstReading(nowNs: nat, samples: seq<Sample>): nat {
    if samples == [] then nowNs else samples[0].nowNs
  }

  lemma {:induction false} ClockAboveFirst(nowNs: nat, samples: seq<Sample>, i: nat)
    requires ClockFrom(nowNs, samples) && i < |samples|
    ensures samples[i].nowNs >= samples[0].nowNs >= nowNs
  {
    assert TimeAt(nowNs, samples, i) <= samples[i].nowNs && TimeAt(nowNs, samples, 0) <= samples[0].nowNs;
    if i > 0 { ClockAboveFirst(nowNs, samples, i - 1); }
  }

  lemma {:induction false} StuckWithoutRoom(c: Config, st: PointerState, samples: seq<Sample>, k: nat)
    requires c.MaxAdvance() == 0 && k <= |samples|
    ensures StateAt(c, st, samples, k).lastReported == st.lastReported
  {
    if k > 0 { StuckWithoutRoom(c, st, samples, k - 1); }
  }

  lemma {:induction false} StateAtConcat(c: Config, st: PointerState, a: seq<Sample>, b: seq<Sample>, k: nat)
    requires k <= |b|
    ensures StateAt(c, st, a + b, |a| + k) == StateAt(c, StateAt(c, st, a, |a|), b, k)
  {
    hide Report;
    if k > 0 {
      StateAtConcat(c, st, a, b, k - 1);
    } else {
      StateAtPrefix(c, st, a, b, |a|);
    }
  }

  lemma {:induction false} StateAtPrefix(c: Config, st: PointerState, a: seq<Sample>, b: seq<Sample>, k: nat)
    requires k <= |a|
    ensures StateAt(c, st, a + b, k) == StateAt(c, st, a, k)
  {
    hide Report;
    if k > 0 { StateAtPrefix(c, st, a, b, k - 1); }
  }

  /** A disarmed stream is unbounded: for every n, some calls without any passing of time advance it by
      more than n. */
  lemma {:induction false} DisarmedIsUnbounded(c: Config, st: PointerState, s: Sample, n: nat)
    requires st.paceLastNs == 0 && c.MaxAdvance() > 0
    requires s.occupancySlots == s.stageFrames == 0 && s.applFrames > st.lastReported + n
    ensures StateAt(c, st, seq(n + 1, _ => s), n + 1).lastReported > st.lastReported + n
  {
    var free, calls := c.(paceNominal := false), seq(n + 1, _ => s);
    assert Honest(free, s) == s.applFrames && free.MaxAdvance() == c.MaxAdvance();
    hide Report, Honest, StateAt, Config.MaxAdvance;
    DisarmedIsUngoverned(c, st, calls, n + 1);
    CatchUpPrefix(free, st, s, calls, n + 1);
    AtLeastAsMany(n + 1, c.MaxAdvance());
  }

  lemma AtLeastAsMany(k: nat, step: nat)
    requires step > 0
    ensures k * step >= k
  {
  }

  // Calls that repeat the last time and the last reader state leave the bound where it is.
  lemma {:induction false} BoundIsSteady(nowNs: nat, samples: seq<Sample>, s: Sample, n: nat)
    requires nowNs < U64 && ClockFrom(nowNs, samples)
    requires s.nowNs == TimeAt(nowNs, samples, |samples|) && s.readerLive == LiveAt(true, samples, |samples|)
    ensures var all := samples + seq(n, _ => s);
            && ClockFrom(nowNs, all) && TimeAt(nowNs, all, |all|) == s.nowNs && LiveAt(true, all, |all|) == s.readerLive
            && Edges(true, all, |all|) == Edges(true, samples, |samples|)
  {
    if n == 0 {
      assert samples + seq(n, _ => s) == samples;
    } else {
      BoundIsSteady(nowNs, samples, s, n - 1);
      var before, all := samples + seq(n - 1, _ => s), samples + seq(n, _ => s);
      assert all == before + [s];
      forall i | 0 <= i < |all| ensures TimeAt(nowNs, all, i) <= all[i].nowNs < U64 {
        assert i < |before| ==> TimeAt(nowNs, before, i) <= before[i].nowNs < U64;
        assert TimeAt(nowNs, all, i) == TimeAt(nowNs, before, i);
        if |samples| > 0 { assert TimeAt(nowNs, samples, |samples| - 1) <= samples[|samples| - 1].nowNs < U64; }
      }
      EdgesPrefix(before, [s], |before|);
    }
  }

  lemma {:induction false} EdgesPrefix(a: seq<Sample>, b: seq<Sample>, k: nat)
    requires k <= |a|
    ensures Edges(true, a + b, k) == Edges(true, a, k)
  {
    if k > 0 { EdgesPrefix(a, b, k - 1); }
  }

  // A stream that has met a zero, or may yet meet one, has a continuation beyond its bound.
  lemma {:induction false} ZeroBreaksBound(c: Config, nowNs: nat, samples: seq<Sample>)
    requires c.Governed() && nowNs < U64 && ClockFrom(nowNs, samples)
    requires FirstReading(nowNs, samples) == 0 && c.MaxAdvance() > 0
    ensures !BoundedForever(c, nowNs, samples)
  {
    hide Report, ExactRefill;
    var st, b := Prepared(c, true, nowNs), Bound(c, nowNs, samples);
    var last := StateAt(c, st, samples, |samples|).lastReported;
    var s := Sample(last + c.MaxAdvance() + b + 1, 0, 0, LiveAt(true, samples, |samples|), TimeAt(nowNs, samples, |samples|));
    var first, rest := samples + [s], seq(b + 1, _ => s);
    BoundIsSteady(nowNs, samples, s, 1);
    BoundIsSteady(nowNs, samples, s, b + 2);
    assert seq(1, _ => s) == [s] && seq(b + 2, _ => s) == [s] + rest;
    assert samples + seq(b + 2, _ => s) == first + rest;
    ArmedIffNoZeroSample(c, nowNs, first, |first|);
    assert first[0].nowNs == 0;
    var disarmed := StateAt(c, st, first, |first|);
    OneCallMoves(c, st, samples, s);
    DisarmedIsUnbounded(c, disarmed, s, b);
    StateAtConcat(c, st, first, rest, b + 1);
    assert Bound(c, nowNs, first + rest) == b;
    assert !WithinBound(c, nowNs, samples + seq(b + 2, _ => s));
  }

  lemma {:induction false} OneCallMoves(c: Config, st: PointerState, samples: seq<Sample>, s: Sample)
    ensures StateAt(c, st, samples + [s], |samples| + 1).lastReported
            <= StateAt(c, st, samples, |samples|).lastReported + c.MaxAdvance()
  {
    StateAtPrefix(c, st, samples, [s], |samples|);
  }

  /** The exact condition, at any point of a governed stream: it keeps within its bound whatever comes
      if and only if its first clock reading was not zero, or its buffer leaves no room to advance. */
  lemma {:induction false} BoundedForeverIff(c: Config, nowNs: nat, samples: seq<Sample>)
    requires c.Governed() && nowNs < U64 && ClockFrom(nowNs, samples)
    ensures BoundedForever(c, nowNs, samples) <==> FirstReading(nowNs, samples) > 0 || c.MaxAdvance() == 0
  {
    if FirstReading(nowNs, samples) > 0 || c.MaxAdvance() == 0 {
      forall more: seq<Sample> | ClockFrom(nowNs, samples + more) ensures WithinBound(c, nowNs, samples + more) {
        KeepsBound(c, nowNs, samples, more);
      }
    } else {
      ZeroBreaksBound(c, nowNs, samples);
    }
  }

  lemma {:induction false} KeepsBound(c: Config, nowNs: nat, samples: seq<Sample>, more: seq<Sample>)
    requires c.Governed() && ClockFrom(nowNs, samples + more)
    requires FirstReading(nowNs, samples) > 0 || c.MaxAdvance() == 0
    ensures WithinBound(c, nowNs, samples + more)
  {
    hide Report, ExactRefill;
    var all := samples + more;
    if c.MaxAdvance() == 0 {
      StuckWithoutRoom(c, Prepared(c, true, nowNs), all, |all|);
    } else {
      forall i | 0 <= i < |all| ensures all[i].nowNs > 0 { ClockAboveFirst(nowNs, all, i); }
      AdvanceBoundFromPrepare(c, nowNs, all, |all|);
    }
  }
}
