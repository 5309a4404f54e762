/**
  Microphone input admission (jasper/voice_daemon.py, class WakeLoop): mute, measurement windows, the
  pre-roll and its frozen prefix, the acquire buffer, the capture rings, and the epoch check that
  closes a turn acquisition overtaken by a mute. Frame bodies and control edges are single steps;
  opening a turn is not, and anything may happen between its checks.
 */
module InputGate {
  import opened Options

  const PRE_ROLL_FRAMES: nat := 7
  const ACQUIRE_BUFFER_MAX_FRAMES: nat := 250
  const ACQUIRE_BUFFER_MAX_AGE_SEC: real := 20.0

  const PRIMARY: string := "on"

  // Why admission is closed.
  datatype Reason = Muted | Measuring

  // A microphone frame with its true capture time.
  datatype Frame = Frame(at: real, id: nat)

  // A frame handed to the live turn: the latest mute or measurement edge at that moment, and whether
  // the microphone was open.
  datatype Delivery = Delivery(frame: Frame, edge: real, open: bool)

  datatype Press = Began | UnknownSource | NoRoomMic | Busy | Closed(reason: Reason) | Capped | NotReady

  // The input an opening turn takes: its admission epoch and the audio from before it.
  datatype TurnInput = TurnInput(epoch: real, prefix: seq<Frame>)

  datatype Event =
    | Primary(frame: Frame, gap: bool, fires: bool, forwards: bool)
    | Leg(leg: string, frame: Frame, gap: bool, fires: bool)
    | Held(source: string, frame: Frame, gap: bool, forwards: bool)
    | Mute
    | Unmute
    | Measure(active: bool)
    | ManualStart(button: Option<string>, known: bool, allowed: bool, ready: bool)
    | Drain(forwards: bool)
    | AcquireEnds
    | Session(live: bool)     // another turn opens or ends
    | Send                    // the live turn puts its oldest queued frame on the wire

  // The provider's turn, with the frames it has taken and not yet sent.
  datatype Turn = NoTurn | Live(admits: bool, queue: seq<Frame>)

  // How opening a turn ends.
  datatype Opening = Opened | Refused(reason: Reason) | Failed

  // deque(maxlen=n): the newest n.
  function Newest<T>(s: seq<T>, n: nat): seq<T> { if |s| <= n then s else s[|s| - n..] }

  /** A full buffer loses its oldest entries and nothing else. */
  lemma NewestKeepsTheLast<T>(s: seq<T>, n: nat)
    ensures var r := Newest(s, n); |r| <= n && exists lost :: lost + r == s && (lost == [] || |r| == n)
  {
    assert s[..|s| - |Newest(s, n)|] + Newest(s, n) == s;
  }

  // What is left once the oldest frames past their age are dropped.
  function Unaged(frames: seq<Frame>, t: real): seq<Frame> {
    if frames != [] && t - frames[0].at > ACQUIRE_BUFFER_MAX_AGE_SEC then Unaged(frames[1..], t) else frames
  }

  /** What ages out is the longest run of aged frames at the front, and nothing behind it. */
  lemma {:induction false} UnagedDropsTheAged(frames: seq<Frame>, t: real) returns (n: nat)
    ensures n <= |frames| && Unaged(frames, t) == frames[n..]
    ensures forall i :: 0 <= i < n ==> t - frames[i].at > ACQUIRE_BUFFER_MAX_AGE_SEC
    ensures n < |frames| ==> t - frames[n].at <= ACQUIRE_BUFFER_MAX_AGE_SEC
  {
    n := 0;
    if frames != [] && t - frames[0].at > ACQUIRE_BUFFER_MAX_AGE_SEC {
      var rest := frames[1..];
      n := UnagedDropsTheAged(rest, t);
      n := n + 1;
      assert rest[n - 1..] == frames[n..];
      forall i | 0 <= i < n ensures t - frames[i].at > ACQUIRE_BUFFER_MAX_AGE_SEC {
        assert i > 0 ==> frames[i] == rest[i - 1];
      }
    }
  }

  predicate Since(frames: seq<Frame>, t: real) { forall f :: f in frames ==> f.at >= t }

  lemma NewestSince(frames: seq<Frame>, f: Frame, n: nat, t: real)
    requires Since(frames, t) && f.at >= t
    ensures Since(Newest(frames + [f], n), t)
  {
    var all := frames + [f];
    forall g | g in Newest(all, n) ensures g in all {}
  }

  // Nothing held was captured before the latest edge.
  ghost predicate Private(preRoll: seq<Frame>, frozen: Option<seq<Frame>>, acquireBuffer: seq<Frame>,
                          rings: map<string, seq<Frame>>, edge: real) {
    && Since(preRoll, edge) && Since(acquireBuffer, edge) && (frozen.Some? ==> Since(frozen.value, edge))
    && forall leg :: leg in rings ==> Since(rings[leg], edge)
  }

  // Nor was anything a turn has queued, and a closed microphone leaves nothing queued.
  predicate Revoked(turn: Turn, edge: real, closed: bool) {
    turn.Live? ==> Since(turn.queue, edge) && (closed || !turn.admits ==> turn.queue == [])
  }

  // A leg that is fed again after an edge has had its detector reset since.
  ghost predicate Rearmed(legs: set<string>, suspended: set<string>, resetAt: map<string, real>, edge: real) {
    forall leg :: leg in legs && leg !in suspended ==> leg in resetAt && resetAt[leg] >= edge
  }

  // Whatever a turn heard was captured after the edge then latest, with the microphone open.
  ghost predicate HeardOpenly(heard: seq<Delivery>) {
    forall d :: d in heard ==> d.frame.at >= d.edge && d.open
  }

  // A leg's ring after one more frame, and after a gap.
  function Ringed(rings: map<string, seq<Frame>>, leg: string, frame: Frame, size: nat): map<string, seq<Frame>> {
    if leg in rings then rings[leg := Newest(rings[leg] + [frame], size)] else rings
  }

  /** A ring gains the frame at its end, losing only from its front; the other rings stay. */
  lemma RingTakesFrame(rings: map<string, seq<Frame>>, leg: string, frame: Frame, size: nat)
    ensures var r := Ringed(rings, leg, frame, size);
            && r.Keys == rings.Keys && (forall l :: l in rings && l != leg ==> r[l] == rings[l])
            && (leg in rings ==> exists lost :: lost + r[leg] == rings[leg] + [frame] && (lost == [] || |r[leg]| == size))
  {
    if leg in rings {
      NewestKeepsTheLast(rings[leg] + [frame], size);
    }
  }

  function Gapped(rings: map<string, seq<Frame>>, leg: string, gap: bool): map<string, seq<Frame>> {
    if gap && leg in rings then rings[leg := []] else rings
  }

  // ----- logs of deliveries ---------------------------------------------------------------

  function FramesOf(log: seq<Delivery>): seq<Frame> { seq(|log|, i requires 0 <= i < |log| => log[i].frame) }

  lemma LogGrows(log: seq<Delivery>, d: Delivery, from: nat)
    requires from <= |log|
    ensures FramesOf((log + [d])[from..]) == FramesOf(log[from..]) + [d.frame]
  {
    assert (log + [d])[from..] == log[from..] + [d];
  }

  // The frames delivered one by one since this edge.
  function Deliveries(frames: seq<Frame>, edge: real): seq<Delivery> {
    seq(|frames|, i requires 0 <= i < |frames| => Delivery(frames[i], edge, true))
  }

  // All of `part`, in its order, within `whole`.
  predicate Within<T(==)>(part: seq<T>, whole: seq<T>) {
    part == [] ||
    (whole != [] && (|| Within(part, whole[..|whole| - 1])
                     || (part[|part| - 1] == whole[|whole| - 1] && Within(part[..|part| - 1], whole[..|whole| - 1]))))
  }

  lemma {:induction false} WithinGrows<T>(part: seq<T>, whole: seq<T>, more: seq<T>)
    requires Within(part, whole)
    ensures Within(part, whole + more)
  {
    if more == [] {
      assert whole + more == whole;
    } else {
      WithinGrows(part, whole, more[..|more| - 1]);
      assert (whole + more)[..|whole + more| - 1] == whole + more[..|more| - 1];
    }
  }

  lemma WithinOne<T>(part: seq<T>, whole: seq<T>, x: T)
    requires Within(part, whole)
    ensures Within(part + [x], whole + [x])
  {
    assert (part + [x])[..|part|] == part && (whole + [x])[..|whole|] == whole;
  }

  lemma {:induction false} DeliveredFrames(frames: seq<Frame>, edge: real, log: seq<Delivery>)
    requires Within(Deliveries(frames, edge), log)
    ensures Within(frames, FramesOf(log))
    decreases |log|
  {
    if frames != [] {
      var n, m := |frames| - 1, |log| - 1;
      assert FramesOf(log)[..m] == FramesOf(log[..m]);
      if Within(Deliveries(frames, edge), log[..m]) {
        DeliveredFrames(frames, edge, log[..m]);
      } else {
        assert Deliveries(frames, edge)[..n] == Deliveries(frames[..n], edge);
        DeliveredFrames(frames[..n], edge, log[..m]);
      }
    }
  }

  // The number of a turn, and where its part of each log begins.
  datatype Mark = Mark(turn: nat, heard: nat, wire: nat)

  predicate Marked(mark: Mark, heard: seq<Delivery>, wire: seq<Delivery>) {
    mark.heard <= |heard| && mark.wire <= |wire|
  }

  // What the live turn has heard since it was adopted is what it has sent and what it still has queued.
  predicate Carried(turn: Turn, mark: Mark, heard: seq<Delivery>, wire: seq<Delivery>) {
    && Marked(mark, heard, wire)
    && (turn.Live? && turn.admits ==> FramesOf(heard[mark.heard..]) == FramesOf(wire[mark.wire..]) + turn.queue)
  }

  // A source name that is given and not empty.
  predicate Named(source: Option<string>) { source.Some? && source.value != "" }

  class WakeLoop {
    const legs: set<string>       // wake legs, the primary one included if there is a room microphone
    const sources: set<string>    // push-to-talk microphones this daemon opened
    const ringSize: nat

    var now: real                 // time.monotonic(), strictly increasing between readings
    var micMuted: bool
    var measuring: bool
    var session: bool             // a turn is live
    var admitAfter: real
    var closedBy: Reason          // the reason of the latest edge
    var suspended: set<string>
    var activeSource: Option<string>
    var preRoll: seq<Frame>
    var frozen: Option<seq<Frame>>
    var acquiring: bool
    var acquireEpoch: real
    var acquireBuffer: seq<Frame>
    var rings: map<string, seq<Frame>>
    var turn: Turn

    // The latest mute or measurement edge; how often admission has moved, and where it stood when the
    // acquisition's epoch was taken; when each leg's detector was last reset; what the turns heard and
    // what went out, and the present turn's part of both.
    ghost var edgeAt: real
    ghost var edges: nat
    ghost var moves: nat
    ghost var epochMoves: nat
    ghost var resetAt: map<string, real>
    ghost var heard: seq<Delivery>
    ghost var wire: seq<Delivery>
    ghost var mark: Mark

    ghost predicate Valid()
      reads this
    {
      && Private(preRoll, frozen, acquireBuffer, rings, edgeAt)
      && 0.0 <= edgeAt <= admitAfter <= now
      && acquireEpoch <= admitAfter && epochMoves <= moves
      // an epoch is current exactly while admission has not moved since it was taken
      && (acquireEpoch == admitAfter <==> epochMoves == moves)
      && Rearmed(legs, suspended, resetAt, edgeAt) && HeardOpenly(heard) && HeardOpenly(wire)
      && Revoked(turn, edgeAt, micMuted || measuring) && Carried(turn, mark, heard, wire)
      && |preRoll| <= PRE_ROLL_FRAMES && |acquireBuffer| <= ACQUIRE_BUFFER_MAX_FRAMES
    }

    // What a step may do to time, edges and deliveries.
    twostate predicate Onward()
      reads this
    {
      && old(now) <= now && old(admitAfter) <= admitAfter && old(edges) <= edges && old(moves) <= moves
      && (moves == old(moves) <==> admitAfter == old(admitAfter))
      && (moves == old(moves) ==> edges == old(edges) && micMuted == old(micMuted) && measuring == old(measuring))
      && (if edges == old(edges) then edgeAt == old(edgeAt) else edgeAt > old(now))
      && old(heard) <= heard && old(wire) <= wire
    }

    // And to the live turn: an edge silences it for good.
    twostate predicate TurnOnward()
      reads this
    {
      && old(mark).turn <= mark.turn
      && (mark.turn == old(mark).turn ==>
            && mark == old(mark)
            && (edges > old(edges) ==> !Admitting())
            && (!old(Admitting()) ==> !Admitting() && wire == old(wire)))
    }

    predicate Admitting()
      reads this`turn
    {
      turn.Live? && turn.admits
    }

    // The turn is the same one, and as open as it was.
    twostate predicate SameTurn()
      reads this`turn, this`mark
    {
      mark == old(mark) && turn.Live? == old(turn.Live?) && Admitting() == old(Admitting())
    }

    // What the live turn has put on the wire.
    ghost function OnWire(): seq<Frame>
      requires mark.wire <= |wire|
      reads this`wire, this`mark
    {
      FramesOf(wire[mark.wire..])
    }

    ghost function Heard(): seq<Frame>
      requires mark.heard <= |heard|
      reads this`heard, this`mark
    {
      FramesOf(heard[mark.heard..])
    }

    constructor (legs: set<string>, sources: set<string>, ringed: set<string>, ringSize: nat)
      requires ringed <= legs
      ensures Valid() && this.legs == legs && this.sources == sources && !micMuted && !measuring && !acquiring
    {
      this.legs, this.sources, this.ringSize := legs, sources, ringSize;
      now, micMuted, measuring, session := 0.0, false, false, false;
      admitAfter, closedBy, suspended, activeSource := 0.0, Muted, {}, None;
      preRoll, frozen, acquiring, acquireEpoch, acquireBuffer := [], None, false, 0.0, [];
      rings := map leg | leg in ringed :: [];
      edgeAt, edges, moves, epochMoves, heard, wire, turn := 0.0, 0, 0, 0, [], [], NoTurn;
      mark := Mark(0, 0, 0);
      resetAt := map leg | leg in legs :: 0.0;
    }

    method Monotonic() returns (t: real)
      modifies this`now
      ensures t == now > old(now)
    {
      var step: real := *;
      now := now + if step > 0.0 then step else 1.0;
      t := now;
    }

    // ----- admission ------------------------------------------------------------------------

    /** Why an acquisition that took this epoch may not go on, or None. */
    function CheckInputAdmission(epoch: real): (closed: Option<Reason>)
      reads this`micMuted, this`measuring, this`admitAfter, this`closedBy
      ensures closed.None? <==> !micMuted && !measuring && epoch == admitAfter
      ensures micMuted ==> closed == Some(Muted)
      ensures measuring && !micMuted ==> closed == Some(Measuring)
    {
      if micMuted then Some(Muted)
      else if measuring then Some(Measuring)
      else if epoch != admitAfter then Some(closedBy)
      else None
    }

    // An edge: everything held is dropped and admission starts over.
    method InvalidateInput(reason: Reason)
      requires 0.0 <= admitAfter <= now && acquireEpoch <= admitAfter && epochMoves <= moves
      requires HeardOpenly(heard) && HeardOpenly(wire) && Marked(mark, heard, wire)
      modifies this`now, this`turn, this`admitAfter, this`closedBy, this`suspended, this`preRoll, this`frozen
      modifies this`acquireBuffer, this`rings, this`edgeAt, this`edges, this`moves
      ensures Valid() && now == admitAfter == edgeAt > old(now) && closedBy == reason
      ensures edges == old(edges) + 1 && moves == old(moves) + 1
      ensures suspended == old(suspended) + legs + sources
      ensures preRoll == [] && frozen == None && acquireBuffer == []
      ensures turn == if old(turn).Live? then Live(false, []) else NoTurn
      ensures rings.Keys == old(rings.Keys) && forall leg :: leg in rings ==> rings[leg] == []
    {
      hide HeardOpenly, Private, Rearmed, Revoked, Carried;
      StartOver(reason);
      DropHeld();
    }

    // Admission starts over, and every source is to be reset before it is fed again.
    method StartOver(reason: Reason)
      modifies this`now, this`admitAfter, this`closedBy, this`suspended, this`edgeAt, this`edges, this`moves
      ensures now == admitAfter == edgeAt > old(now) && closedBy == reason
      ensures edges == old(edges) + 1 && moves == old(moves) + 1
      ensures suspended == old(suspended) + legs + sources && Rearmed(legs, suspended, resetAt, edgeAt)
    {
      admitAfter := Monotonic();
      closedBy := reason;
      edgeAt, edges, moves := admitAfter, edges + 1, moves + 1;
      suspended := suspended + legs + sources;
    }

    method DropHeld()
      requires Marked(mark, heard, wire)
      modifies this`preRoll, this`frozen, this`acquireBuffer, this`rings, this`turn
      ensures preRoll == [] && frozen == None && acquireBuffer == []
      ensures turn == if old(turn).Live? then Live(false, []) else NoTurn
      ensures rings.Keys == old(rings.Keys) && forall leg :: leg in rings ==> rings[leg] == []
      ensures Private(preRoll, frozen, acquireBuffer, rings, edgeAt) && Revoked(turn, edgeAt, micMuted || measuring)
      ensures Carried(turn, mark, heard, wire)
    {
      turn := if turn.Live? then Live(false, []) else NoTurn;
      preRoll, frozen, acquireBuffer := [], None, [];
      ClearRings();
    }

    method ClearRings()
      modifies this`rings
      ensures rings.Keys == old(rings.Keys) && forall leg :: leg in rings ==> rings[leg] == []
    {
      rings := map leg | leg in rings :: [];
    }

    method Suspend(source: string)
      requires Valid()
      modifies this`suspended
      ensures Valid() && suspended == old(suspended) + {source}
    {
      suspended := suspended + {source};
    }

    method MuteMic()
      requires Valid()
      modifies this
      ensures Valid() && Onward() && TurnOnward() && micMuted && measuring == old(measuring)
      ensures old(micMuted) ==> edges == old(edges)
      ensures !old(micMuted) ==> edges == old(edges) + 1 && closedBy == Muted && preRoll == acquireBuffer == []
    {
      if micMuted { return; }
      hide HeardOpenly, Private, Rearmed, Revoked;
      micMuted := true;
      InvalidateInput(Muted);
    }

    method UnmuteMic()
      requires Valid()
      modifies this
      ensures Valid() && Onward() && TurnOnward() && !micMuted && measuring == old(measuring)
      ensures !old(micMuted) ==> edges == old(edges)
      ensures old(micMuted) ==> edges == old(edges) + 1 && closedBy == Muted && preRoll == acquireBuffer == []
    {
      if !micMuted { return; }
      hide HeardOpenly, Private, Rearmed, Revoked;
      micMuted := false;
      InvalidateInput(Muted);
    }

    // The measurement hold opening or closing its window.
    method SetMeasuring(active: bool)
      requires Valid()
      modifies this
      ensures Valid() && Onward() && TurnOnward() && measuring == active && micMuted == old(micMuted)
      ensures edges == old(edges) + if old(measuring) == active then 0 else 1
    {
      if measuring == active { return; }
      hide HeardOpenly, Private, Rearmed, Revoked;
      measuring := active;
      InvalidateInput(Measuring);
    }

    // ----- frames ---------------------------------------------------------------------------

    // A gap in a source's stream resets its detector and drops what it had buffered.
    method CaptureInput(source: string, discontinuity: bool) returns (gap: bool)
      requires Valid()
      modifies this`suspended, this`preRoll, this`rings, this`resetAt
      ensures Valid() && suspended == old(suspended) - {source}
      ensures gap == (discontinuity || source in old(suspended))
      ensures resetAt == if gap && source in legs then old(resetAt)[source := now] else old(resetAt)
      ensures rings == Gapped(old(rings), source, gap && source in legs)
      ensures gap && source in legs && source in rings ==> rings[source] == []
      ensures preRoll == if gap && source == PRIMARY then [] else old(preRoll)
    {
      hide Private, Revoked, HeardOpenly, Rearmed, Carried;
      gap := discontinuity || source in suspended;
      if gap {
        if source in legs { ResetLeg(source); }
        if source == PRIMARY { ClearPreRoll(); }
      }
      Resume(source);
    }

    method ResetLeg(leg: string)
      requires Valid()
      modifies this`resetAt, this`rings
      ensures Valid() && resetAt == old(resetAt)[leg := now] && rings == Gapped(old(rings), leg, true)
    {
      hide HeardOpenly, Revoked, Carried;
      resetAt := resetAt[leg := now];
      if leg in rings { rings := rings[leg := []]; }
    }

    method ClearPreRoll()
      requires Valid()
      modifies this`preRoll
      ensures Valid() && preRoll == []
    {
      hide HeardOpenly, Revoked, Rearmed, Carried;
      preRoll := [];
    }

    // A source is fed again, its leg reset since the latest edge.
    method Resume(source: string)
      requires Valid() && (source in suspended && source in legs ==> source in resetAt && resetAt[source] >= edgeAt)
      modifies this`suspended
      ensures Valid() && suspended == old(suspended) - {source}
    {
      hide Private, HeardOpenly, Revoked, Carried;
      suspended := suspended - {source};
    }

    method AppendAcquire(frame: Frame)
      requires Valid() && frame.at >= edgeAt
      modifies this`acquireBuffer
      ensures Valid() && acquireBuffer == Newest(old(acquireBuffer) + [frame], ACQUIRE_BUFFER_MAX_FRAMES)
    {
      if |acquireBuffer| == ACQUIRE_BUFFER_MAX_FRAMES { acquireBuffer := acquireBuffer[1..]; }
      acquireBuffer := acquireBuffer + [frame];
    }

    method AppendPreRoll(frame: Frame)
      requires Valid() && frame.at >= edgeAt
      modifies this`preRoll
      ensures Valid() && preRoll == Newest(old(preRoll) + [frame], PRE_ROLL_FRAMES)
    {
      NewestSince(preRoll, frame, PRE_ROLL_FRAMES, edgeAt);
      preRoll := Newest(preRoll + [frame], PRE_ROLL_FRAMES);
    }

    method AppendRing(leg: string, frame: Frame)
      requires Valid() && frame.at >= edgeAt
      modifies this`rings
      ensures Valid() && rings == Ringed(old(rings), leg, frame, ringSize)
    {
      if leg in rings {
        NewestSince(rings[leg], frame, ringSize, edgeAt);
        rings := rings[leg := Newest(rings[leg] + [frame], ringSize)];
      }
    }

    // Whether the live turn forwards the frame depends on its endpointer.
    method HandleSessionFrame(frame: Frame, forwards: bool)
      requires Valid() && frame.at >= edgeAt
      modifies this`heard, this`turn
      ensures Valid() && SameTurn()
      ensures heard == old(heard) + if forwards && !micMuted && !measuring then [Delivery(frame, edgeAt, true)] else []
    {
      if micMuted || measuring { return; }
      if forwards { Hear(frame); }
    }

    // An acquisition begins with the given audio from before it, at the epoch admission stands at.
    method OpenAcquire(prefix: seq<Frame>)
      requires Valid() && Since(prefix, edgeAt)
      modifies this`frozen, this`acquireEpoch, this`epochMoves, this`acquiring, this`acquireBuffer
      ensures Valid() && acquiring && frozen == Some(prefix) && acquireEpoch == admitAfter && acquireBuffer == []
    {
      hide Rearmed, HeardOpenly, Revoked, Carried;
      frozen := Some(prefix);
      acquireEpoch, epochMoves := admitAfter, moves;
      acquiring := true;
      acquireBuffer := [];
    }

    // A leg heard the wake word: what the pre-roll holds now belongs to this acquisition.
    method WakeFires()
      requires Valid()
      modifies this`frozen, this`acquireEpoch, this`epochMoves, this`acquiring, this`acquireBuffer
      ensures Valid() && acquiring && frozen == Some(preRoll) && acquireEpoch == admitAfter && acquireBuffer == []
    {
      OpenAcquire(preRoll);
    }

    // An admitted frame of the always-listening microphone goes to the acquisition under way, to wake
    // detection, or to the live turn.
    method TakePrimary(frame: Frame, fires: bool, forwards: bool)
      requires Valid() && !micMuted && !measuring && frame.at >= edgeAt
      modifies this`preRoll, this`rings, this`acquireBuffer, this`heard, this`turn
      modifies this`frozen, this`acquireEpoch, this`epochMoves, this`acquiring
      ensures Valid() && SameTurn() && preRoll == Newest(old(preRoll) + [frame], PRE_ROLL_FRAMES)
      ensures rings == Ringed(old(rings), PRIMARY, frame, ringSize)
      ensures acquiring && !old(acquiring) ==> frozen == Some(preRoll) && acquireEpoch == admitAfter
      ensures acquiring <==> old(acquiring) || (fires && !session)
      ensures acquireBuffer == if old(acquiring) && activeSource.Some? then old(acquireBuffer)
                               else if old(acquiring) then Newest(old(acquireBuffer) + [frame], ACQUIRE_BUFFER_MAX_FRAMES)
                               else if acquiring then [] else old(acquireBuffer)
      ensures heard == old(heard) + if session && !old(acquiring) && activeSource.None? && forwards
                                    then [Delivery(frame, edgeAt, true)] else []
    {
      hide Private, Rearmed, HeardOpenly, Revoked, Carried, Newest;
      AppendPreRoll(frame);
      AppendRing(PRIMARY, frame);
      Route(frame, fires, forwards);
    }

    method Route(frame: Frame, fires: bool, forwards: bool)
      requires Valid() && !micMuted && !measuring && frame.at >= edgeAt
      modifies this`acquireBuffer, this`heard, this`turn, this`frozen, this`acquireEpoch, this`epochMoves, this`acquiring
      ensures Valid() && SameTurn()
      ensures acquiring && !old(acquiring) ==> frozen == Some(preRoll) && acquireEpoch == admitAfter
      ensures acquiring <==> old(acquiring) || (fires && !session)
      ensures acquireBuffer == if old(acquiring) && activeSource.Some? then old(acquireBuffer)
                               else if old(acquiring) then Newest(old(acquireBuffer) + [frame], ACQUIRE_BUFFER_MAX_FRAMES)
                               else if acquiring then [] else old(acquireBuffer)
      ensures heard == old(heard) + if session && !old(acquiring) && activeSource.None? && forwards
                                    then [Delivery(frame, edgeAt, true)] else []
    {
      hide Private, Rearmed, HeardOpenly, Revoked, Carried, Newest;
      if acquiring {
        if activeSource.None? { AppendAcquire(frame); }
        return;
      }
      if !session {
        if fires { WakeFires(); }
      } else if activeSource.None? {
        HandleSessionFrame(frame, forwards);
      }
    }

    // One frame of the always-listening microphone.
    method PrimaryFrame(frame: Frame, gap: bool, fires: bool, forwards: bool)
      requires Valid()
      modifies this`suspended, this`preRoll, this`rings, this`resetAt, this`acquireBuffer, this`heard
      modifies this`turn, this`frozen, this`acquireEpoch, this`epochMoves, this`acquiring
      ensures Valid() && Onward() && SameTurn() && moves == old(moves)
      ensures micMuted || measuring ==>
                preRoll == old(preRoll) && rings == old(rings) && suspended == old(suspended) + {PRIMARY}
      ensures acquiring && !old(acquiring) ==> frozen == Some(preRoll) && acquireEpoch == admitAfter
      ensures var broken, admitted := gap || PRIMARY in old(suspended), !micMuted && !measuring && frame.at >= admitAfter;
              && (admitted ==> preRoll == Newest((if broken then [] else old(preRoll)) + [frame], PRE_ROLL_FRAMES))
              && (admitted ==> rings == Ringed(Gapped(old(rings), PRIMARY, broken && PRIMARY in legs), PRIMARY, frame, ringSize))
              && (acquiring <==> old(acquiring) || (admitted && fires && !session))
              && acquireBuffer == (if !admitted || (old(acquiring) && activeSource.Some?) then old(acquireBuffer)
                                   else if old(acquiring) then Newest(old(acquireBuffer) + [frame], ACQUIRE_BUFFER_MAX_FRAMES)
                                   else if acquiring then [] else old(acquireBuffer))
              && heard == old(heard) + (if admitted && session && !old(acquiring) && activeSource.None? && forwards
                                        then [Delivery(frame, edgeAt, true)] else [])
    {
      hide Private, Rearmed, HeardOpenly, Revoked, Carried, Newest;
      if measuring { Suspend(PRIMARY); return; }
      if micMuted { Suspend(PRIMARY); return; }
      var _ := CaptureInput(PRIMARY, gap);
      if frame.at < admitAfter { return; }
      TakePrimary(frame, fires, forwards);
    }

    // One frame of a push-to-talk microphone.
    method ManualMicFrame(source: string, frame: Frame, gap: bool, forwards: bool)
      requires Valid()
      modifies this`suspended, this`preRoll, this`rings, this`resetAt, this`acquireBuffer, this`heard
      modifies this`turn
      ensures Valid() && Onward() && SameTurn() && moves == old(moves) && acquiring == old(acquiring)
      ensures micMuted || measuring ==> suspended == old(suspended) + {source}
      ensures var admitted := !micMuted && !measuring && frame.at >= admitAfter && activeSource == Some(source);
              && acquireBuffer == (if admitted && acquiring then Newest(old(acquireBuffer) + [frame], ACQUIRE_BUFFER_MAX_FRAMES)
                                   else old(acquireBuffer))
              && heard == old(heard) + (if admitted && session && !acquiring && forwards
                                        then [Delivery(frame, edgeAt, true)] else [])
    {
      hide Private, Rearmed, HeardOpenly, Revoked, Carried;
      if measuring || micMuted { Suspend(source); return; }
      if activeSource != Some(source) { return; }
      var _ := CaptureInput(source, gap);
      if frame.at < admitAfter { return; }
      if acquiring {
        AppendAcquire(frame);
      } else if session {
        HandleSessionFrame(frame, forwards);
      }
    }

    // One frame of a wake-only leg: never part of a turn's audio.
    method WakeLegFrame(leg: string, frame: Frame, gap: bool, fires: bool)
      requires Valid()
      modifies this`suspended, this`preRoll, this`rings, this`resetAt, this`acquireBuffer, this`frozen
      modifies this`acquireEpoch, this`epochMoves, this`acquiring
      ensures Valid() && Onward() && SameTurn() && moves == old(moves) && heard == old(heard)
      ensures micMuted || measuring ==> rings == old(rings) && suspended == old(suspended) + {leg}
      ensures acquiring && !old(acquiring) ==> frozen == Some(preRoll) && acquireEpoch == admitAfter
      ensures var broken, admitted := gap || leg in old(suspended), !micMuted && !measuring && frame.at >= admitAfter;
              && (admitted ==> rings == Ringed(Gapped(old(rings), leg, broken && leg in legs), leg, frame, ringSize))
              && (acquiring <==> old(acquiring) || (admitted && fires && !session))
              && acquireBuffer == (if acquiring && !old(acquiring) then [] else old(acquireBuffer))
    {
      hide Private, Rearmed, HeardOpenly, Revoked, Carried;
      if measuring { Suspend(leg); return; }
      if micMuted { Suspend(leg); return; }
      var _ := CaptureInput(leg, gap);
      if frame.at < admitAfter { return; }
      TakeLeg(leg, frame, fires);
    }

    method TakeLeg(leg: string, frame: Frame, fires: bool)
      requires Valid() && frame.at >= edgeAt
      modifies this`rings, this`acquireBuffer, this`frozen, this`acquireEpoch, this`epochMoves, this`acquiring
      ensures Valid() && rings == Ringed(old(rings), leg, frame, ringSize)
      ensures acquiring && !old(acquiring) ==> frozen == Some(preRoll) && acquireEpoch == admitAfter
      ensures acquiring <==> old(acquiring) || (fires && !session)
      ensures acquireBuffer == if acquiring && !old(acquiring) then [] else old(acquireBuffer)
    {
      hide Private, Rearmed, HeardOpenly, Revoked, Carried, Ringed;
      AppendRing(leg, frame);
      if acquiring { return; }
      if !session && fires { WakeFires(); }
    }

    // ----- turns ----------------------------------------------------------------------------

    // A remote's button, or the session/start command without a source. Taking the press moves
    // admission but keeps the pre-roll.
    method ManualSessionStart(source: Option<string>, known: bool, allowed: bool, ready: bool) returns (press: Press)
      requires Valid()
      modifies this`activeSource, this`now, this`admitAfter, this`moves, this`frozen, this`acquireEpoch
      modifies this`epochMoves, this`acquiring, this`acquireBuffer
      ensures Valid() && Onward() && SameTurn() && edges == old(edges)
      ensures preRoll == old(preRoll) && heard == old(heard)
      ensures press == Began <==>
                && !(Named(source) && !(known && ready)) && !(source.None? && legs == {} && sources != {})
                && !old(session) && !old(acquiring) && !micMuted && !measuring && allowed
      ensures press == Began ==>
                && acquiring && acquireEpoch == admitAfter > old(now) && activeSource == source && acquireBuffer == []
                && frozen == Some(if Named(source) then [] else preRoll)
      ensures press == UnknownSource <==> Named(source) && !known
      ensures press == NoRoomMic <==> source.None? && legs == {} && sources != {}
      ensures press == Busy ==> old(session) || old(acquiring)
      ensures press == Capped ==> !allowed && !micMuted && !measuring && !old(session) && !old(acquiring)
      ensures press == NotReady ==> Named(source) && !ready && allowed && !micMuted && !measuring
      ensures press.Closed? ==> press == Closed(if micMuted then Muted else Measuring) && (micMuted || measuring)
      ensures press != Began ==> moves == old(moves) && acquiring == old(acquiring) && frozen == old(frozen)
    {
      hide Private, Rearmed, HeardOpenly, Revoked, Carried;
      if Named(source) && !known { return UnknownSource; }
      if source.None? && legs == {} && sources != {} { return NoRoomMic; }
      if session || acquiring { return Busy; }
      if micMuted { return Closed(Muted); }
      if measuring { return Closed(Measuring); }
      if !allowed { return Capped; }
      if Named(source) && !ready { return NotReady; }
      TakePress(source);
      return Began;
    }

    method TakePress(source: Option<string>)
      requires Valid()
      modifies this`activeSource, this`now, this`admitAfter, this`moves
      modifies this`frozen, this`acquireEpoch, this`epochMoves, this`acquiring, this`acquireBuffer
      ensures Valid() && acquireEpoch == admitAfter == now > old(now) && moves == old(moves) + 1
      ensures acquiring && activeSource == source && acquireBuffer == []
      ensures frozen == Some(if Named(source) then [] else preRoll)
    {
      hide Private, Rearmed, HeardOpenly, Revoked, Carried;
      activeSource := source;
      MoveAdmission();
      if Named(source) { OpenAcquire([]); } else { WakeFires(); }
    }

    method MoveAdmission()
      requires Valid()
      modifies this`now, this`admitAfter, this`moves
      ensures Valid() && admitAfter == now > old(now) && moves == old(moves) + 1
    {
      hide Private, Rearmed, HeardOpenly, Revoked, Carried;
      admitAfter := Monotonic();
      moves := moves + 1;
    }

    // The end of every acquisition, opened or refused.
    method EndAcquire()
      requires Valid()
      modifies this`acquiring, this`acquireBuffer, this`frozen
      ensures Valid() && !acquiring && acquireBuffer == [] && frozen == None
    {
      acquiring, acquireBuffer, frozen := false, [], None;
    }

    method TakeOldest() returns (frame: Frame)
      requires Valid() && acquireBuffer != []
      modifies this`acquireBuffer
      ensures Valid() && frame == old(acquireBuffer)[0] && acquireBuffer == old(acquireBuffer)[1..] && frame.at >= edgeAt
    {
      hide Rearmed, HeardOpenly, Revoked, Carried;
      frame := acquireBuffer[0];
      acquireBuffer := acquireBuffer[1..];
    }

    // AudioBuffer.pop: the oldest frame that has not aged out.
    method PopAcquire() returns (frame: Option<Frame>)
      requires Valid()
      modifies this`now, this`acquireBuffer
      ensures Valid() && now > old(now)
      ensures var left := Unaged(old(acquireBuffer), now);
              if left == [] then frame.None? && acquireBuffer == []
              else frame == Some(left[0]) && acquireBuffer == left[1..] && left[0].at >= edgeAt
    {
      hide Private, Rearmed, HeardOpenly, Revoked, Carried;
      var t := Monotonic();
      while acquireBuffer != [] && t - acquireBuffer[0].at > ACQUIRE_BUFFER_MAX_AGE_SEC
        invariant Valid() && now == t > old(now) && Unaged(acquireBuffer, t) == Unaged(old(acquireBuffer), t)
        decreases |acquireBuffer|
      {
        var _ := TakeOldest();
      }
      if acquireBuffer == [] { return None; }
      var oldest := TakeOldest();
      return Some(oldest);
    }

    // One step of draining the acquire buffer into the opened turn.
    method DrainOne(forwards: bool)
      requires Valid()
      modifies this`now, this`acquireBuffer, this`heard, this`turn
      ensures Valid() && Onward() && SameTurn() && moves == old(moves)
      ensures if !session || micMuted || measuring then heard == old(heard) && acquireBuffer == old(acquireBuffer) else
              var left := Unaged(old(acquireBuffer), now);
              && acquireBuffer == (if left == [] then [] else left[1..])
              && heard == old(heard) + if left != [] && forwards then [Delivery(left[0], edgeAt, true)] else []
    {
      if !session || micMuted || measuring { return; }
      hide Private, Rearmed, HeardOpenly, Revoked, Carried;
      var frame := PopAcquire();
      if frame.Some? { HandleSessionFrame(frame.value, forwards); }
    }

    // The input an opening turn takes. Nothing in it predates the latest edge.
    function TakeTurnInput(withPreRoll: bool): (input: TurnInput)
      requires Valid()
      reads this
      ensures Since(input.prefix, edgeAt)
      ensures CheckInputAdmission(input.epoch).None? <==>
                !micMuted && !measuring && (acquiring ==> epochMoves == moves)
    {
      TurnInput(if acquiring then acquireEpoch else admitAfter,
                if !withPreRoll then [] else if frozen.None? then preRoll else frozen.value)
    }

    method ChangeSession(live: bool)
      requires Valid()
      modifies this`session, this`turn, this`mark, this`activeSource
      ensures Valid() && session == live && turn == if live then Live(true, []) else NoTurn
      ensures if live then mark.turn == old(mark).turn + 1 else mark == old(mark)
    {
      hide Private, Rearmed, HeardOpenly;
      session := live;
      if live { AdoptTurn(); } else { turn, activeSource := NoTurn, None; }
    }

    // A fresh turn from the connection.
    method AdoptTurn()
      requires Valid()
      modifies this`turn, this`mark
      ensures Valid() && turn == Live(true, []) && mark == Mark(old(mark).turn + 1, |heard|, |wire|)
    {
      hide Private, Rearmed, HeardOpenly;
      turn := Live(true, []);
      mark := Mark(mark.turn + 1, |heard|, |wire|);
    }

    // The turn sends its oldest frame: its n-th send is the n-th frame it heard.
    method SendQueued()
      requires Valid()
      modifies this`turn, this`wire
      ensures Valid() && SameTurn()
      ensures if old(Admitting()) && |old(OnWire())| < |Heard()|
              then wire == old(wire) + [Delivery(Heard()[|old(OnWire())|], edgeAt, true)]
              else wire == old(wire)
    {
      hide Private, Rearmed, FramesOf;
      if turn.Live? && turn.queue != [] {
        assert Heard() == OnWire() + turn.queue;
        LogGrows(wire, Delivery(turn.queue[0], edgeAt, true), mark.wire);
        wire := wire + [Delivery(turn.queue[0], edgeAt, !micMuted && !measuring)];
        turn := turn.(queue := turn.queue[1..]);
      }
    }

    /** So n sends of an open turn put the first n frames it heard on the wire, and as many as it heard put
        all of them there. */
    method SendMany(n: nat)
      requires Valid() && Admitting()
      modifies this`turn, this`wire
      ensures Valid() && SameTurn()
      ensures var sent := |old(OnWire())| + n;
              OnWire() == if sent <= |Heard()| then Heard()[..sent] else Heard()
    {
      hide Private, Rearmed, HeardOpenly, Revoked, FramesOf;
      assert Heard() == OnWire() + turn.queue;
      for i := 0 to n
        invariant Valid() && SameTurn()
        invariant var sent := |old(OnWire())| + i; OnWire() == if sent <= |Heard()| then Heard()[..sent] else Heard()
      {
        ghost var before := wire;
        SendQueued();
        if wire != before { LogGrows(before, wire[|before|], mark.wire); }
        assert Carried(turn, mark, heard, wire);
      }
    }

    // ----- runs -----------------------------------------------------------------------------

    // Frames, presses, and what an acquisition leaves behind: the turn stays as it is.
    method StepInput(event: Event)
      requires Valid()
      requires event.Primary? || event.Leg? || event.Held? || event.ManualStart? || event.Drain? || event.AcquireEnds?
      modifies this
      ensures Valid() && Onward() && SameTurn() && edges == old(edges) && wire == old(wire)
    {
      hide Private, Rearmed, HeardOpenly, Revoked, Carried;
      match event
      case Primary(frame, gap, fires, forwards) => PrimaryFrame(frame, gap, fires, forwards);
      case Leg(leg, frame, gap, fires) => WakeLegFrame(leg, frame, gap, fires);
      case Held(source, frame, gap, forwards) => ManualMicFrame(source, frame, gap, forwards);
      case ManualStart(button, known, allowed, ready) => var _ := ManualSessionStart(button, known, allowed, ready);
      case Drain(forwards) => DrainOne(forwards);
      case AcquireEnds => EndAcquire();
    }

    method Step(event: Event)
      requires Valid()
      modifies this
      ensures Valid() && Onward() && TurnOnward()
    {
      hide Private, Rearmed, HeardOpenly, Revoked, Carried;
      match event
      case Mute => MuteMic();
      case Unmute => UnmuteMic();
      case Measure(active) => SetMeasuring(active);
      case Session(live) => ChangeSession(live);
      case Send => assert Carried(turn, mark, heard, wire); SendQueued();
      case _ => StepInput(event);
    }

    /** Over every interleaving of frames, mutes, measurements and session starts: nothing held
        predates the latest edge, and an epoch taken before an edge is never admitted again. */
    method Run(events: seq<Event>)
      requires Valid()
      modifies this
      ensures Valid() && Onward() && TurnOnward()
      ensures edges > old(edges) ==> forall epoch :: epoch <= old(admitAfter) ==> CheckInputAdmission(epoch).Some?
      ensures moves == old(moves) && old(CheckInputAdmission(admitAfter)).None? ==> CheckInputAdmission(old(admitAfter)).None?
    {
      for i := 0 to |events|
        invariant Valid() && Onward() && TurnOnward()
      {
        hide Valid;
        Step(events[i]);
      }
    }

    // The pre-roll goes out frame by frame, admission checked before each and after the last.
    method SendPreRoll(input: TurnInput, meanwhile: nat -> seq<Event>) returns (closed: Option<Reason>)
      requires Valid() && Since(input.prefix, edgeAt) && CheckInputAdmission(input.epoch).None?
      modifies this
      ensures Valid() && Onward() && TurnOnward()
      ensures closed == CheckInputAdmission(input.epoch) && (closed.None? <==> moves == old(moves))
      ensures closed.None? ==> Within(Deliveries(input.prefix, edgeAt), heard[|old(heard)|..])
    {
      hide Valid, Within, Deliveries;
      NothingWithin(input.prefix, edgeAt);
      assert heard[|old(heard)|..] == [];
      for i := 0 to |input.prefix|
        invariant Valid() && Onward() && TurnOnward() && moves == old(moves)
        invariant Within(Deliveries(input.prefix[..i], edgeAt), heard[|old(heard)|..])
      {
        ghost var before := heard;
        Run(meanwhile(i + 1));
        closed := CheckInputAdmission(input.epoch);
        if closed.Some? { return; }
        ghost var during := heard;
        Hear(input.prefix[i]);
        DeliveredOne(input.prefix, i, edgeAt, |old(heard)|, before, during);
      }
      ghost var before := heard;
      Run(meanwhile(|input.prefix| + 1));
      closed := CheckInputAdmission(input.epoch);
      if closed.None? { DeliveredStill(input.prefix, edgeAt, |old(heard)|, before, heard); }
    }

    method Hear(frame: Frame)
      requires Valid() && !micMuted && !measuring && frame.at >= edgeAt
      modifies this`heard, this`turn
      ensures Valid() && SameTurn() && heard == old(heard) + [Delivery(frame, edgeAt, true)]
    {
      hide Private, Rearmed;
      LogGrows(heard, Delivery(frame, edgeAt, true), mark.heard);
      assert Admitting() ==> Heard() + [frame] == OnWire() + (turn.queue + [frame]);
      hide FramesOf;
      if turn.Live? && turn.admits { turn := turn.(queue := turn.queue + [frame]); }
      heard := heard + [Delivery(frame, edgeAt, !micMuted && !measuring)];
    }

    /** Opening a turn, with anything happening while it awaits; `comesUp` is whether the output episode
        and the connection do. It opens exactly when they do, the microphone was open at the start, the
        acquisition's epoch was still current then, and admission has not moved since. Then every pre-roll
        frame, each captured after the edge then latest, has been handed over in order, and, while the turn
        it adopted is still the live one, is on the wire or queued for it, in that order. A turn that does
        not open leaves neither a turn nor its acquisition behind. */
    method BeginTurn(withPreRoll: bool, comesUp: bool, meanwhile: nat -> seq<Event>)
      returns (opening: Opening, ghost adopted: nat)
      requires Valid()
      modifies this
      ensures Valid() && Onward()
      ensures opening == Opened <==>
                && comesUp && !old(micMuted) && !old(measuring) && (old(acquiring) ==> old(epochMoves) == old(moves))
                && moves == old(moves)
      ensures opening == Opened ==>
                && session && !micMuted && !measuring && edges == old(edges) && mark.turn >= adopted > old(mark).turn
                && var prefix := if !withPreRoll then [] else if old(frozen).Some? then old(frozen).value else old(preRoll);
                   && Within(Deliveries(prefix, edgeAt), heard[|old(heard)|..])
                   && (mark.turn == adopted && Admitting() ==> Within(prefix, OnWire() + turn.queue))
      ensures opening == Failed ==> !comesUp
      ensures opening.Refused? ==> opening.reason == if micMuted then Muted else if measuring then Measuring else closedBy
      ensures opening != Opened ==> turn == NoTurn && (old(acquiring) ==> !acquiring)
    {
      var acquiringAtBegin := acquiring;
      opening, adopted := TryTurn(withPreRoll, comesUp, meanwhile);
      if opening != Opened {
        DropTurn();
        if acquiringAtBegin { acquiring := false; }
      }
    }

    method DropTurn()
      requires Valid()
      modifies this`turn
      ensures Valid() && turn == NoTurn
    {
      turn := NoTurn;
    }

    // The checks and sends of an opening, up to the first that refuses or fails.
    method TryTurn(withPreRoll: bool, comesUp: bool, meanwhile: nat -> seq<Event>)
      returns (opening: Opening, ghost adopted: nat)
      requires Valid()
      modifies this
      ensures Valid() && Onward()
      ensures opening == Opened <==>
                && comesUp && !old(micMuted) && !old(measuring) && (old(acquiring) ==> old(epochMoves) == old(moves))
                && moves == old(moves)
      ensures opening == Opened ==>
                && session && !micMuted && !measuring && edges == old(edges) && mark.turn >= adopted > old(mark).turn
                && var prefix := if !withPreRoll then [] else if old(frozen).Some? then old(frozen).value else old(preRoll);
                   && Within(Deliveries(prefix, edgeAt), heard[|old(heard)|..])
                   && (mark.turn == adopted && Admitting() ==> Within(prefix, OnWire() + turn.queue))
      ensures opening == Failed ==> !comesUp
      ensures opening.Refused? ==> opening.reason == if micMuted then Muted else if measuring then Measuring else closedBy
    {
      assert acquireEpoch == admitAfter <==> epochMoves == moves;
      hide Valid, Within, Deliveries, FramesOf;
      adopted := mark.turn;
      if acquiring {
        var stale := CheckInputAdmission(acquireEpoch);
        if stale.Some? { return Refused(stale.value), adopted; }
      }
      var input := TakeTurnInput(withPreRoll);
      var closed := CheckInputAdmission(input.epoch);
      if closed.Some? { return Refused(closed.value), adopted; }
      opening, adopted := Connect(input, comesUp, meanwhile);
    }

    // Output episode and connection, admission checked again after them; then the turn and its pre-roll.
    method Connect(input: TurnInput, comesUp: bool, meanwhile: nat -> seq<Event>)
      returns (opening: Opening, ghost adopted: nat)
      requires Valid() && Since(input.prefix, edgeAt) && CheckInputAdmission(input.epoch).None?
      modifies this
      ensures Valid() && Onward()
      ensures opening == Opened <==> comesUp && moves == old(moves)
      ensures opening == Opened ==>
                && session && !micMuted && !measuring && edges == old(edges) && mark.turn >= adopted > old(mark).turn
                && Within(Deliveries(input.prefix, edgeAt), heard[|old(heard)|..])
                && (mark.turn == adopted && Admitting() ==> Within(input.prefix, OnWire() + turn.queue))
      ensures opening == Failed ==> !comesUp
      ensures opening.Refused? ==> opening.reason == if micMuted then Muted else if measuring then Measuring else closedBy
    {
      hide Valid, Within, Deliveries, FramesOf;
      adopted := mark.turn;
      Run(meanwhile(0));
      if !comesUp { return Failed, adopted; }
      var closed := CheckInputAdmission(input.epoch);
      if closed.Some? { return Refused(closed.value), adopted; }
      AdoptTurn();
      adopted := mark.turn;
      ghost var from := |heard|;
      closed := SendPreRoll(input, meanwhile);
      if closed.Some? { return Refused(closed.value), adopted; }
      EnterSession();
      PreRollCarried(input.prefix, |old(heard)|, from, adopted);
      return Opened, adopted;
    }

    method EnterSession()
      requires Valid()
      modifies this`session
      ensures Valid() && session
    {
      session := true;
    }

    // What a turn was handed since its adoption is on the wire or queued, in order.
    lemma PreRollCarried(prefix: seq<Frame>, early: nat, from: nat, adopted: nat)
      requires Valid() && early <= from <= |heard| && (mark.turn == adopted ==> mark.heard == from)
      requires Within(Deliveries(prefix, edgeAt), heard[from..])
      ensures Within(Deliveries(prefix, edgeAt), heard[early..])
      ensures mark.turn == adopted && Admitting() ==> Within(prefix, OnWire() + turn.queue)
    {
      hide Private, Rearmed, HeardOpenly, Revoked, Within, Deliveries, FramesOf;
      DeliveredSince(prefix, edgeAt, heard, early, from);
      DeliveredFrames(prefix, edgeAt, heard[from..]);
    }
  }

  lemma NothingWithin(frames: seq<Frame>, edge: real)
    ensures Within(Deliveries(frames[..0], edge), [])
  {
  }

  // One more of the frames is delivered, after whatever else was.
  lemma DeliveredOne(frames: seq<Frame>, i: nat, edge: real, from: nat, before: seq<Delivery>, during: seq<Delivery>)
    requires i < |frames| && from <= |before| && before <= during
    requires Within(Deliveries(frames[..i], edge), before[from..])
    ensures Within(Deliveries(frames[..i + 1], edge), (during + [Delivery(frames[i], edge, true)])[from..])
  {
    var d := Delivery(frames[i], edge, true);
    assert during[from..] == before[from..] + during[|before|..];
    WithinGrows(Deliveries(frames[..i], edge), before[from..], during[|before|..]);
    WithinOne(Deliveries(frames[..i], edge), during[from..], d);
    assert Deliveries(frames[..i + 1], edge) == Deliveries(frames[..i], edge) + [d];
    assert (during + [d])[from..] == during[from..] + [d];
  }

  lemma DeliveredStill(frames: seq<Frame>, edge: real, from: nat, before: seq<Delivery>, after: seq<Delivery>)
    requires from <= |before| && before <= after && Within(Deliveries(frames[..|frames|], edge), before[from..])
    ensures Within(Deliveries(frames, edge), after[from..])
  {
    assert frames[..|frames|] == frames && after[from..] == before[from..] + after[|before|..];
    WithinGrows(Deliveries(frames, edge), before[from..], after[|before|..]);
  }

  // Within a later stretch of the log, so within an earlier and longer one.
  lemma DeliveredSince(frames: seq<Frame>, edge: real, log: seq<Delivery>, early: nat, late: nat)
    requires early <= late <= |log| && Within(Deliveries(frames, edge), log[late..])
    ensures Within(Deliveries(frames, edge), log[early..])
  {
    assert log[early..] == log[early..late] + log[late..];
    WithinAfter(Deliveries(frames, edge), log[early..late], log[late..]);
  }

  lemma {:induction false} WithinAfter<T>(part: seq<T>, before: seq<T>, whole: seq<T>)
    requires Within(part, whole)
    ensures Within(part, before + whole)
    decreases |whole|
  {
    if part != [] {
      var n := |whole| - 1;
      assert (before + whole)[..|before + whole| - 1] == before + whole[..n];
      if Within(part, whole[..n]) {
        WithinAfter(part, before, whole[..n]);
      } else {
        WithinAfter(part[..|part| - 1], before, whole[..n]);
      }
    }
  }
}
