/**
  The renderer arbiter (jasper/mux.py, class Mux): probing and recording sources, the automatic
  tick, the manual pin, the leased test gate, and the USB lane mute, against an environment whose
  commands may be lost. One tick or control verb is one step.
 */
module Mux {
  import opened Options
  import opened Arbitration
  import Course
  import opened FanIn

  const UNKNOWN_ACTIVE_HOLD_SEC: real := 5.0
  const EVENT_BACKED_PROBE_SEC: real := 5.0
  const FANIN_TEST_LEASE_SEC: real := 60.0

  // Sources with a live D-Bus signal adapter; their probes may be deferred.
  const EVENT_BACKED: set<Source> := {Airplay, Bluetooth}

  const TEST_LABELS: set<string> := {"correction"}

  function Label(s: Source): string {
    match s
    case Spotify => "spotify"
    case Airplay => "airplay"
    case Bluetooth => "bluealsa"
    case Usbsink => "usbsink"
  }

  /** Every source has a lane of its own, and none is a test lane. */
  lemma LabelsAreApart(s: Source, t: Source)
    ensures (Label(s) == Label(t) <==> s == t) && Label(s) !in TEST_LABELS && !exists c :: c in Label(s) && Blank(c)
  {
  }

  // str.strip(): characters Python counts as white.
  predicate Blank(c: char) {
    var n := c as int;
    || 9 <= n <= 13 || 28 <= n <= 32 || n == 0x85 || n == 0xA0 || n == 0x1680 || 0x2000 <= n <= 0x200A
    || n == 0x2028 || n == 0x2029 || n == 0x202F || n == 0x205F || n == 0x3000
  }

  function Stripped(s: string): (r: string)
    ensures r != "" ==> !Blank(r[0]) && !Blank(r[|r| - 1])
    ensures (s != "" ==> !Blank(s[0]) && !Blank(s[|s| - 1])) ==> r == s
  {
    if s != "" && Blank(s[0]) then Stripped(s[1..])
    else if s != "" && Blank(s[|s| - 1]) then Stripped(s[..|s| - 1])
    else s
  }

  predicate AllBlank(s: string) { forall c :: c in s ==> Blank(c) }

  lemma {:induction false} StripsFront(s: string)
    requires s != "" && Blank(s[0])
    ensures Stripped(s) == Stripped(s[1..])
  {
    hide Blank;
  }

  lemma {:induction false} StripsBack(s: string)
    requires s != "" && !Blank(s[0]) && Blank(s[|s| - 1])
    ensures Stripped(s) == Stripped(s[..|s| - 1])
  {
    hide Blank;
  }

  lemma Ends(s: string)
    requires s != ""
    ensures s == [s[0]] + s[1..] == s[..|s| - 1] + [s[|s| - 1]]
  {
  }

  // What one more blank leaves of a split, at either end.
  lemma OneMoreBlank(c: char, left: string, mid: string, right: string)
    requires Blank(c) && AllBlank(left) && AllBlank(right)
    ensures [c] + (left + mid + right) == ([c] + left) + mid + right && AllBlank([c] + left)
    ensures (left + mid + right) + [c] == left + mid + (right + [c]) && AllBlank(right + [c])
  {
    hide Blank;
  }

  /** Only blanks go, and only from the ends. */
  lemma {:induction false} StrippedIsInside(s: string) returns (left: string, right: string)
    ensures s == left + Stripped(s) + right && AllBlank(left) && AllBlank(right)
    decreases |s|
  {
    if s != "" && Blank(s[0]) {
      StripsFront(s);
      Ends(s);
      hide Blank, AllBlank, Stripped;
      left, right := StrippedIsInside(s[1..]);
      OneMoreBlank(s[0], left, Stripped(s), right);
      left := [s[0]] + left;
    } else if s != "" && Blank(s[|s| - 1]) {
      StripsBack(s);
      Ends(s);
      hide Blank, AllBlank, Stripped;
      left, right := StrippedIsInside(s[..|s| - 1]);
      OneMoreBlank(s[|s| - 1], left, Stripped(s), right);
      right := right + [s[|s| - 1]];
    } else {
      left, right := "", "";
    }
  }

  datatype Probe = Active | Inactive | Unknown

  // How one volume-and-gate handoff goes apart from the SELECT itself: the coordinator may refuse or
  // raise, and the AirPlay cleanup after a commit may raise.
  datatype Handoff = Smooth | Refused | CoordinatorRaises | CleanupRaises

  datatype Moved = Selected | NotSelected | Aborted

  datatype Commit = AutoWinner | ManualPin | BackToAuto

  datatype TickEnd = TestHeld | PinHeld | HandoffFailed | Finished | Raised

  // What the policy makes of a tick that got as far as the automatic half: an exception after the
  // commit is a committed handoff.
  function OutcomeOf(end: TickEnd, handoff: Handoff): Outcome {
    if end == HandoffFailed then Declined
    else if end == Raised && handoff == CoordinatorRaises then Threw
    else Committed
  }

  // The move each verb makes of the selection, by how it ended.
  function TickMove(end: TickEnd, handoff: Handoff, current: Snapshot): Course.Move {
    if end == TestHeld then Course.Watched(current) else Course.Ticked(current, OutcomeOf(end, handoff))
  }

  function SelectMove(reply: Reply, source: Source, current: Snapshot): Course.Move {
    match reply
    case Rejected => Course.Idles
    case Done => Course.Pins(source, current)
    case Failure => Course.DroppedWatched(current)
    case Broke => Course.Dropped
  }

  // With nothing active there is no handoff to throw.
  function AutoMove(reply: Reply, handoff: Handoff, current: Snapshot): Course.Move {
    if reply == Rejected then Course.Idles
    else if reply == Failure then Course.Declines(current)
    else if reply == Broke && handoff == CoordinatorRaises && current != {} then Course.Watched(current)
    else Course.Unpins(current)
  }

  datatype Reply = Done | Rejected | Failure | Broke

  // What the mux knows of one source: counted active, last known observation, next probe deadline
  // (0 for sources probed every time), and, as history, the last positive observation.
  datatype Sighting = Sighting(active: bool, knownAt: real, dueAt: real, lastPositive: real)

  // One source after a probe at time `now`.
  function AfterProbe(before: Sighting, probe: Probe, backed: bool, now: real): Sighting {
    var due := if backed then now + EVENT_BACKED_PROBE_SEC else 0.0;
    match probe
    case Active => Sighting(true, now, due, now)
    case Inactive => Sighting(false, now, due, before.lastPositive)
    case Unknown =>
      before.(active := before.active && now - before.knownAt < UNKNOWN_ACTIVE_HOLD_SEC, dueAt := 0.0)
  }

  /** An answer is taken over at once. A source that does not answer stays active for five seconds after it
      was last known to be, is not believed to have been seen, and is not deferred. */
  lemma UnknownHolds(before: Sighting, backed: bool, now: real)
    ensures var x := AfterProbe(before, Unknown, backed, now);
            && (x.active <==> before.active && now < before.knownAt + 5.0)
            && x.knownAt == before.knownAt && x.lastPositive == before.lastPositive && x.dueAt == 0.0
    ensures var x, y := AfterProbe(before, Active, backed, now), AfterProbe(before, Inactive, backed, now);
            && x.active && x.lastPositive == now && !y.active && y.lastPositive == before.lastPositive
            && x.knownAt == y.knownAt == now && x.dueAt == y.dueAt == if backed then now + 5.0 else 0.0
  {
  }

  // A deadline is 0 or five seconds past the last known observation, which for an active source was
  // positive.
  predicate SoundSighting(x: Sighting, now: real) {
    && x.knownAt <= now
    && (x.dueAt == 0.0 || x.dueAt == x.knownAt + EVENT_BACKED_PROBE_SEC)
    && (x.active ==> x.lastPositive == x.knownAt)
  }

  lemma ProbeKeepsSound(before: Sighting, probe: Probe, backed: bool, earlier: real, now: real)
    requires SoundSighting(before, earlier) && earlier <= now
    ensures SoundSighting(AfterProbe(before, probe, backed, now), now)
  {
  }

  // Every source that was probed and answered is now counted as it answered.
  ghost predicate Heard(playing: Snapshot, probes: Source -> Probe, deferred: set<Source>) {
    forall s :: s !in deferred && probes(s) != Unknown ==> (s in playing <==> probes(s) == Active)
  }

  // An active source has been positively observed less than five seconds before the round began.
  lemma ProbeIsFresh(before: Sighting, probe: Probe, backed: bool, earlier: real, now: real)
    requires SoundSighting(before, earlier) && earlier <= now
    ensures AfterProbe(before, probe, backed, now).active ==>
              AfterProbe(before, probe, backed, now).lastPositive > earlier - UNKNOWN_ACTIVE_HOLD_SEC
  {
  }

  // Only a fresh start can name the standing winner as the target.
  lemma TargetIsWinner(a: Activity, newly: seq<Source>, winner: Option<Source>, pending: Option<Source>)
    requires a.Total()
    ensures var target := AutoTarget(a, newly, winner, pending);
            target.Some? && target == winner ==> newly != [] && winner == Some(newly[|newly| - 1])
  {
    BestIsMaximal(a, |REGISTRY|);
  }

  // USB plays among others and is not the winner.
  predicate Lost(playing: Snapshot, winner: Source) {
    Usbsink in playing && winner != Usbsink && !(playing <= {Usbsink})
  }

  // The newest start of the snapshot is the standing winner's own.
  predicate Restarts(x: Auto, current: Snapshot) {
    var newly := NewlyStarted(x.activity, current, |REGISTRY|);
    newly != [] && x.winner == Some(newly[|newly| - 1])
  }

  // The pin, else the winner while it plays, else nothing.
  function HouseholdGate(manual: Option<Source>, winner: Option<Source>, playing: Snapshot): Gate {
    if manual.Some? then Lane(Label(manual.value))
    else if winner.Some? && winner.value in playing then Lane(Label(winner.value))
    else Silent
  }

  // What the arbitration theorems say of one tick of the mux.
  lemma PolicyFollows(x: Auto, h: seq<Snapshot>, y: Auto, current: Snapshot, end: TickEnd, handoff: Handoff)
    requires Tracks(x.activity, h)
    requires end != TestHeld && end != PinHeld ==> y == AutoTick(x, current, OutcomeOf(end, handoff))
    ensures Settled(x, h) && end == Finished ==> Settled(y, h + [current])
    ensures OnCourse(x, h) && end != TestHeld && end != PinHeld ==>
              (OnCourse(y, h + [current]) <==> !Loses(x, current, OutcomeOf(end, handoff)))
  {
    hide AutoTick, Loses;
    if Settled(x, h) { TickKeepsSettled(x, h, current); }
    if OnCourse(x, h) { CourseLostIff(x, h, current, OutcomeOf(end, handoff)); }
  }

  class Mux {
    const fanin: Daemon
    const clock: Clock
    const modeReliable: bool         // whether writing the mode always lands

    // _State
    var playing: Snapshot
    var startedSeq: map<Source, nat>
    var startCounter: nat
    var knownAt: map<Source, real>
    var probeDueAt: map<Source, real>

    var winner: Option<Source>
    var pending: Option<Source>
    var manual: Option<Source>
    var persisted: Option<Source>    // the mode on disk
    var usbPreempted: bool
    var testLabel: Option<string>
    var testOwner: Option<string>
    var testExpires: Option<real>
    var noneAsserted: bool

    // Every snapshot recorded so far, and when each source was last positively observed.
    ghost var history: seq<Snapshot>
    ghost var lastPositive: map<Source, real>
    // The lane as this mux found it at its start, and the lane commands it has sent since.
    ghost const mutedAtStart: bool
    ghost const bootAtStart: nat
    ghost var laneCommands: nat

    // ----- invariants -----------------------------------------------------------------------

    function Act(): Activity
      reads this`playing, this`startedSeq, this`startCounter
    {
      Activity(playing, startedSeq, startCounter)
    }

    ghost predicate Observed()
      reads this`playing, this`startedSeq, this`startCounter, this`history
    {
      Tracks(Act(), history)
    }

    ghost predicate Tabled()
      reads this`knownAt, this`probeDueAt, this`lastPositive
    {
      && (forall s: Source :: s in knownAt)
      && (forall s: Source :: s in lastPositive)
      && probeDueAt.Keys == EVENT_BACKED
    }

    ghost function Sight(s: Source, active: Snapshot): Sighting
      requires Tabled()
      reads this`knownAt, this`probeDueAt, this`lastPositive
    {
      Sighting(s in active, knownAt[s], if s in EVENT_BACKED then probeDueAt[s] else 0.0, lastPositive[s])
    }

    ghost predicate Sighted()
      reads this`playing, this`knownAt, this`probeDueAt, this`lastPositive, clock
    {
      Tabled() && clock.now >= 0.0 && forall s :: SoundSighting(Sight(s, playing), clock.now)
    }

    // Believing the gate idle is never wrong.
    ghost predicate GateKnown()
      reads this`noneAsserted, fanin`gate
    {
      noneAsserted ==> fanin.gate == Silent
    }

    ghost predicate LeaseWhole()
      reads this`testLabel, this`testOwner, this`testExpires
    {
      && testLabel.Some? == testOwner.Some? == testExpires.Some?
      && (testOwner.Some? ==> testOwner.value != "" && Stripped(testOwner.value) == testOwner.value)
    }

    // The lane was muted when this mux started, and neither a lane command nor a fan-in restart has
    // touched it since.
    ghost predicate Inherited()
      reads this`laneCommands, fanin`boots
    {
      mutedAtStart && laneCommands == 0 && fanin.boots == bootAtStart
    }

    // With reliable mutes a lane that is not tracked as preempted is muted exactly if it was inherited so.
    ghost predicate LaneKnown()
      reads this`usbPreempted, this`laneCommands, fanin`usbMuted, fanin`boots
    {
      && bootAtStart <= fanin.boots && (usbPreempted ==> laneCommands > 0)
      && (fanin.muteReliable && !usbPreempted ==> (fanin.usbMuted <==> Inherited()))
    }

    // And USB is never preempted as winner.
    ghost predicate UsbKnown()
      reads this`usbPreempted, this`laneCommands, this`winner, fanin`usbMuted, fanin`boots
    {
      LaneKnown() && (fanin.muteReliable ==> !(usbPreempted && winner == Some(Usbsink)))
    }

    ghost predicate Valid()
      reads this, clock, fanin
    {
      Observed() && Sighted() && GateKnown() && LeaseWhole() && UsbKnown() && ModeKept()
    }

    // A restart finds the pin again.
    ghost predicate ModeKept()
      reads this`manual, this`persisted
    {
      modeReliable ==> persisted == manual
    }

    // The automatic policy state, for the theorems of Arbitration.
    ghost function Policy(): Auto
      reads this`playing, this`startedSeq, this`startCounter, this`winner, this`pending
    {
      Auto(Act(), winner, pending)
    }

    ghost function Arb(): Course.Arbiter
      reads this`playing, this`startedSeq, this`startCounter, this`winner, this`pending, this`manual
    {
      Course.Arbiter(Policy(), manual)
    }

    constructor (f: Daemon, c: Clock, restored: Option<Source>, modeReliable: bool)
      requires c.now >= 0.0
      ensures Valid() && fanin == f && clock == c && this.modeReliable == modeReliable && history == []
      ensures winner == pending == None && manual == persisted == restored
      ensures testOwner == testLabel == None && !usbPreempted && !noneAsserted && laneCommands == 0
      ensures Inherited() <==> f.usbMuted
      ensures Settled(Policy(), history) && Arb() == Course.Arbiter(Auto(Quiet(), None, None), restored)
    {
      fanin, clock, this.modeReliable := f, c, modeReliable;
      var q := Quiet();
      playing, startedSeq, startCounter := q.playing, q.startedSeq, q.counter;
      knownAt := map[Spotify := 0.0, Airplay := 0.0, Bluetooth := 0.0, Usbsink := 0.0];
      lastPositive := map[Spotify := 0.0, Airplay := 0.0, Bluetooth := 0.0, Usbsink := 0.0];
      probeDueAt := map[Airplay := 0.0, Bluetooth := 0.0];
      winner, pending, manual, persisted := None, None, restored, restored;
      usbPreempted, testLabel, testOwner, testExpires, noneAsserted := false, None, None, None, false;
      history := [];
      mutedAtStart, bootAtStart, laneCommands := f.usbMuted, f.boots, 0;
      new;
      forall s: Source ensures s in knownAt && s in lastPositive { assert Rank(s) < 4; }
    }

    // ----- fan-in commands ------------------------------------------------------------------

    method FaninSelectLabel(lane: string) returns (ok: bool)
      modifies this`noneAsserted, fanin`gate
      ensures GateKnown() && !noneAsserted
      ensures fanin.gate == Lane(lane) || (!ok && fanin.gate == old(fanin.gate))
      ensures fanin.gateReliable ==> ok
    {
      noneAsserted := false;
      ok := fanin.SetGate(Lane(lane));
    }

    method FaninSelect(s: Source) returns (ok: bool)
      modifies this`noneAsserted, fanin`gate
      ensures GateKnown() && !noneAsserted
      ensures fanin.gate == Lane(Label(s)) || (!ok && fanin.gate == old(fanin.gate))
      ensures fanin.gateReliable ==> ok
    {
      ok := FaninSelectLabel(Label(s));
    }

    method FaninNone() returns (ok: bool)
      requires GateKnown()
      modifies this`noneAsserted, fanin`gate
      ensures GateKnown()
      ensures ok ==> noneAsserted
      ensures !ok ==> noneAsserted == old(noneAsserted) && (fanin.gate == Silent || fanin.gate == old(fanin.gate))
      ensures fanin.gateReliable ==> ok
    {
      ok := fanin.SetGate(Silent);
      if ok { noneAsserted := true; }
    }

    method UsbSetPreempt(silenced: bool)
      requires LaneKnown()
      modifies this`usbPreempted, this`laneCommands, fanin`usbMuted
      ensures LaneKnown()
      ensures old(usbPreempted) == silenced ==>
                usbPreempted == silenced && fanin.usbMuted == old(fanin.usbMuted) && laneCommands == old(laneCommands)
      ensures usbPreempted == silenced || usbPreempted == old(usbPreempted)
      ensures usbPreempted != old(usbPreempted) ==> fanin.usbMuted == silenced
      ensures fanin.muteReliable ==> usbPreempted == silenced
    {
      if usbPreempted == silenced { return; }
      laneCommands := laneCommands + 1;
      var ok := fanin.MuteUsb(silenced);
      if !ok { return; }
      usbPreempted := silenced;
    }

    method ReassertUsbMute()
      requires LaneKnown()
      modifies fanin`usbMuted
      ensures LaneKnown()
      ensures !usbPreempted ==> fanin.usbMuted == old(fanin.usbMuted)
      ensures fanin.muteReliable ==> (fanin.usbMuted == usbPreempted <==> !Inherited())
    {
      if !usbPreempted { return; }
      var _ := fanin.MuteUsb(true);
    }

    // ----- observation ----------------------------------------------------------------------

    method DeferrableProbes(dirty: set<Source>) returns (deferred: set<Source>, now: real)
      requires Sighted()
      modifies clock
      ensures Sighted() && now == clock.now >= old(clock.now)
      ensures deferred == set s | s in EVENT_BACKED && s !in dirty && now < probeDueAt[s]
    {
      now := clock.Read();
      deferred := set s | s in EVENT_BACKED && s !in dirty && now < probeDueAt[s];
    }

    // One source of a probe round.
    method ProbeOne(s: Source, probe: Probe, now: real, before: Snapshot) returns (resolved: Snapshot)
      requires Tabled()
      modifies this`knownAt, this`probeDueAt, this`lastPositive
      ensures Tabled()
      ensures forall t :: Sight(t, resolved)
                == if t == s then AfterProbe(old(Sight(t, before)), probe, t in EVENT_BACKED, now)
                   else old(Sight(t, before))
    {
      resolved := before;
      if s in EVENT_BACKED {
        probeDueAt := probeDueAt[s := if probe == Unknown then 0.0 else now + EVENT_BACKED_PROBE_SEC];
      }
      if probe == Unknown {
        if s in resolved && now - knownAt[s] >= UNKNOWN_ACTIVE_HOLD_SEC { resolved := resolved - {s}; }
      } else {
        resolved := if probe == Active then resolved + {s} else resolved - {s};
        knownAt := knownAt[s := now];
        if probe == Active { lastPositive := lastPositive[s := now]; }
      }
    }

    method ProbeSources(deferred: set<Source>, probes: Source -> Probe) returns (resolved: Snapshot, now: real)
      requires Tabled()
      modifies this`knownAt, this`probeDueAt, this`lastPositive, clock
      ensures Tabled() && now == clock.now >= old(clock.now)
      ensures forall s :: Sight(s, resolved)
                == if s in deferred then old(Sight(s, playing))
                   else AfterProbe(old(Sight(s, playing)), probes(s), s in EVENT_BACKED, now)
    {
      now := clock.Read();
      resolved := playing;
      for i := 0 to |REGISTRY|
        invariant Tabled() && clock.now == now >= old(clock.now)
        invariant forall s :: Sight(s, resolved)
                    == if s in deferred || Rank(s) >= i then old(Sight(s, playing))
                       else AfterProbe(old(Sight(s, playing)), probes(s), s in EVENT_BACKED, now)
      {
        var s := REGISTRY[i];
        assert forall t :: Rank(t) == i ==> t == s;
        if s !in deferred { resolved := ProbeOne(s, probes(s), now, resolved); }
      }
      assert forall s :: Rank(s) < |REGISTRY|;
    }

    method RecordObservation(current: Snapshot) returns (newly: seq<Source>)
      requires Observed()
      modifies this`playing, this`startedSeq, this`startCounter, this`history
      ensures Observed() && history == old(history) + [current] && playing == current
      ensures Act() == Record(old(Act()), current)
      ensures newly == NewlyStarted(old(Act()), current, |REGISTRY|)
    {
      newly := [];
      for i := 0 to |REGISTRY|
        invariant playing == old(playing) && history == old(history)
        invariant newly == NewlyStarted(old(Act()), current, i)
        invariant Act() == RecordUpTo(old(Act()), current, i)
      {
        var s := REGISTRY[i];
        if s in current && s !in playing {
          startCounter := startCounter + 1;
          startedSeq := startedSeq[s := startCounter];
          newly := newly + [s];
        }
      }
      playing := current;
      history := history + [current];
      RecordTracks(old(Act()), old(history), current);
    }

    // A source that was probed and did not answer counts as before for five seconds after it was last known.
    twostate predicate UnknownsHeld(resolved: Snapshot, probes: Source -> Probe, deferred: set<Source>, now: real)
      requires old(Tabled())
      reads this`playing
    {
      forall s :: s !in deferred && probes(s) == Unknown ==>
        (s in resolved <==> s in old(playing) && now < old(knownAt[s]) + UNKNOWN_ACTIVE_HOLD_SEC)
    }

    // What a probe round leaves: sound sightings, nothing active on old evidence, every answer heard.
    method ProbeRound(deferred: set<Source>, probes: Source -> Probe) returns (resolved: Snapshot, now: real)
      requires Sighted()
      modifies this`knownAt, this`probeDueAt, this`lastPositive, clock
      ensures Tabled() && now == clock.now >= old(clock.now)
      ensures forall s :: SoundSighting(Sight(s, resolved), now)
      ensures forall s :: s in deferred ==> Sight(s, resolved) == old(Sight(s, playing))
      ensures forall s :: s in resolved && s !in deferred ==>
                Sight(s, resolved).lastPositive > old(clock.now) - UNKNOWN_ACTIVE_HOLD_SEC
      ensures Heard(resolved, probes, deferred) && UnknownsHeld(resolved, probes, deferred, now)
    {
      resolved, now := ProbeSources(deferred, probes);
      assert Heard(resolved, probes, deferred) && UnknownsHeld(resolved, probes, deferred, now) by {
        forall s | s !in deferred ensures (s in resolved) == Sight(s, resolved).active {}
      }
      hide AfterProbe, Heard, UnknownsHeld;
      forall s
        ensures SoundSighting(Sight(s, resolved), now)
        ensures s in resolved && s !in deferred ==>
                  Sight(s, resolved).lastPositive > old(clock.now) - UNKNOWN_ACTIVE_HOLD_SEC
      {
        var before := old(Sight(s, playing));
        ProbeKeepsSound(before, probes(s), s in EVENT_BACKED, old(clock.now), now);
        ProbeIsFresh(before, probes(s), s in EVENT_BACKED, old(clock.now), now);
      }
    }

    method ObserveSources(deferred: set<Source>, probes: Source -> Probe) returns (newly: seq<Source>, now: real)
      requires Observed() && Sighted()
      modifies this`playing, this`startedSeq, this`startCounter, this`history
      modifies this`knownAt, this`probeDueAt, this`lastPositive, clock
      ensures Observed() && Sighted() && now == clock.now >= old(clock.now)
      ensures history == old(history) + [playing] && Act() == Record(old(Act()), playing)
      ensures newly == NewlyStarted(old(Act()), playing, |REGISTRY|)
      ensures forall s :: s in deferred ==> Sight(s, playing) == old(Sight(s, playing))
      ensures forall s :: s in playing && s !in deferred ==>
                Sight(s, playing).lastPositive > old(clock.now) - UNKNOWN_ACTIVE_HOLD_SEC
      ensures Heard(playing, probes, deferred) && UnknownsHeld(playing, probes, deferred, now)
    {
      var current;
      current, now := ProbeRound(deferred, probes);
      hide SoundSighting, Heard, Record, NewlyStarted, Tracks;
      newly := RecordObservation(current);
    }

    // A control verb's snapshot: every source is probed.
    method ObserveAll(probes: Source -> Probe)
      requires Observed() && Sighted()
      modifies this`playing, this`startedSeq, this`startCounter, this`history
      modifies this`knownAt, this`probeDueAt, this`lastPositive, clock
      ensures Observed() && Sighted() && clock.now >= old(clock.now)
      ensures history == old(history) + [playing] && Act() == Record(old(Act()), playing)
      ensures Heard(playing, probes, {})
    {
      var _, _ := ObserveSources({}, probes);
    }

    method ReadClock() returns (t: real)
      requires Sighted()
      modifies clock
      ensures Sighted() && t == clock.now >= old(clock.now)
    {
      t := clock.Read();
    }

    // ----- handoffs -------------------------------------------------------------------------

    // Losing the write must not fail the switch.
    method WriteMode(mode: Option<Source>)
      modifies this`persisted
      ensures persisted == mode || (!modeReliable && persisted == old(persisted))
    {
      var lands: bool := *;
      if lands || modeReliable { persisted := mode; }
    }

    method TransitionTo(source: Source, handoff: Handoff, commit: Commit) returns (moved: Moved)
      modifies this`noneAsserted, fanin`gate, this`winner, this`pending, this`manual, this`persisted
      ensures old(GateKnown()) ==> GateKnown()
      ensures moved == Aborted <==> handoff == CoordinatorRaises
      ensures handoff == Refused ==> moved == NotSelected
      ensures handoff == Smooth && fanin.gateReliable ==> moved == Selected
      ensures fanin.gate == old(fanin.gate) || (!fanin.gateReliable && fanin.gate == Lane(Label(source))) || moved == Selected
      ensures handoff == CoordinatorRaises || handoff == Refused ==> fanin.gate == old(fanin.gate)
      ensures moved == Selected ==>
                && fanin.gate == Lane(Label(source)) && winner == Some(source) && pending == None
                && manual == (match commit case AutoWinner => old(manual) case ManualPin => Some(source) case BackToAuto => None)
                && (commit == AutoWinner ==> persisted == old(persisted))
                && (commit != AutoWinner ==> persisted == manual || (!modeReliable && persisted == old(persisted)))
      ensures moved != Selected ==>
                winner == old(winner) && pending == old(pending) && manual == old(manual) && persisted == old(persisted)
    {
      if handoff == CoordinatorRaises { return Aborted; }
      if handoff == Refused { return NotSelected; }
      var ok := FaninSelect(source);
      if !ok { return NotSelected; }
      winner, pending := Some(source), None;
      match commit {
        case AutoWinner =>
        case ManualPin => manual := Some(source); WriteMode(Some(source));
        case BackToAuto => manual := None; WriteMode(None);
      }
      return Selected;
    }

    // Only USB is silenced here; the other pauses are renderer I/O.
    method Pause(s: Source)
      requires LaneKnown()
      modifies this`usbPreempted, this`laneCommands, fanin`usbMuted
      ensures s != Usbsink ==>
                usbPreempted == old(usbPreempted) && fanin.usbMuted == old(fanin.usbMuted) && laneCommands == old(laneCommands)
      ensures fanin.muteReliable ==> usbPreempted == (old(usbPreempted) || s == Usbsink)
      ensures LaneKnown()
    {
      if s == Usbsink { UsbSetPreempt(true); }
    }

    method PauseOthers(target: Source, current: Snapshot)
      requires LaneKnown()
      modifies this`usbPreempted, this`laneCommands, fanin`usbMuted
      ensures fanin.muteReliable ==> usbPreempted == (old(usbPreempted) || (target != Usbsink && Usbsink in current))
      ensures target == Usbsink ==> laneCommands == old(laneCommands) && usbPreempted == old(usbPreempted)
      ensures LaneKnown()
    {
      for i := 0 to |REGISTRY|
        invariant LaneKnown()
        invariant fanin.muteReliable ==>
                    usbPreempted == (old(usbPreempted) || (i > Rank(Usbsink) && target != Usbsink && Usbsink in current))
        invariant target == Usbsink ==> laneCommands == old(laneCommands) && usbPreempted == old(usbPreempted)
      {
        var s := REGISTRY[i];
        if s in current && s != target && s != Airplay { Pause(s); }
      }
    }

    // Un-silence USB once every other source is idle; a muted host still reports as playing.
    method ReleaseIdlePreempt(current: Snapshot)
      requires UsbKnown()
      modifies this`usbPreempted, this`laneCommands, fanin`usbMuted
      ensures UsbKnown()
      ensures fanin.muteReliable && current <= {Usbsink} ==> !usbPreempted
      ensures !(current <= {Usbsink}) ==> usbPreempted == old(usbPreempted) && fanin.usbMuted == old(fanin.usbMuted)
      ensures usbPreempted ==> old(usbPreempted)
      ensures !old(usbPreempted) ==> laneCommands == old(laneCommands)
    {
      if usbPreempted && current <= {Usbsink} { UsbSetPreempt(false); }
    }

    // ----- the test gate --------------------------------------------------------------------

    // Where the household's own selection puts the gate.
    function NormalGate(): Gate
      reads this`manual, this`winner, this`playing
    {
      HouseholdGate(manual, winner, playing)
    }

    method RestoreNormalGate() returns (ok: bool)
      requires GateKnown()
      modifies this`noneAsserted, fanin`gate
      ensures GateKnown() && (ok ==> fanin.gate == NormalGate())
      ensures fanin.gate == NormalGate() || (!ok && fanin.gate == old(fanin.gate))
      ensures fanin.gateReliable ==> ok
    {
      if manual.Some? {
        ok := FaninSelect(manual.value);
      } else if winner.Some? && winner.value in playing {
        ok := FaninSelect(winner.value);
      } else {
        ok := FaninNone();
      }
    }

    method SelectTest(lane: string, owner: string) returns (reply: Reply)
      requires Sighted() && GateKnown() && LeaseWhole()
      modifies this`noneAsserted, fanin`gate, this`testLabel, this`testOwner, this`testExpires, clock
      ensures Sighted() && GateKnown() && LeaseWhole() && clock.now >= old(clock.now) && reply != Broke
      ensures reply == Rejected <==>
                || Stripped(lane) !in TEST_LABELS || Stripped(owner) == ""
                || (old(testOwner).Some? && old(testOwner) != Some(Stripped(owner)))
      ensures reply == Rejected ==> fanin.gate == old(fanin.gate) && LeaseUnchanged()
      ensures reply == Done ==>
                && testLabel == Some(Stripped(lane)) && testOwner == Some(Stripped(owner)) && fanin.gate == Lane(Stripped(lane))
                && testExpires == Some(clock.now + FANIN_TEST_LEASE_SEC)
      ensures fanin.gateReliable ==> reply != Failure
      // A first select that fails rolls its own claim back, or keeps it for the owner to release.
      ensures reply == Failure ==>
                || (testLabel == Some(Stripped(lane)) && testOwner == Some(Stripped(owner)))
                || (old(testOwner).None? && testOwner.None? && fanin.gate == NormalGate())
    {
      hide Sighted, Blank, GateKnown, Stripped;
      var to, who := Stripped(lane), Stripped(owner);
      if to !in TEST_LABELS || who == "" { return Rejected; }
      if testOwner.Some? && testOwner != Some(who) { return Rejected; }
      reply := ClaimTest(to, who);
    }

    // The claim comes before the command: it may land although its answer is lost.
    method ClaimTest(to: string, who: string) returns (reply: Reply)
      requires Sighted() && GateKnown() && (testOwner.None? || testOwner == Some(who))
      modifies this`noneAsserted, fanin`gate, this`testLabel, this`testOwner, this`testExpires, clock
      ensures Sighted() && GateKnown() && clock.now >= old(clock.now)
      ensures (testLabel == testOwner == None && testExpires == None) || Claims(to, who)
      ensures reply == Done || reply == Failure
      ensures reply == Done ==> Claims(to, who) && fanin.gate == Lane(to)
      ensures fanin.gateReliable ==> reply == Done
      ensures reply == Failure ==>
                || Claims(to, who)
                || (old(testOwner).None? && testOwner.None? && fanin.gate == NormalGate())
    {
      hide Sighted;
      var alreadyOwned := testOwner == Some(who);
      var now := ReadClock();
      testLabel, testOwner, testExpires := Some(to), Some(who), Some(now + FANIN_TEST_LEASE_SEC);
      var ok := FaninSelectLabel(to);
      if ok { return Done; }
      if !alreadyOwned {
        var restored := RestoreNormalGate();
        if restored { testLabel, testOwner, testExpires := None, None, None; }
      }
      return Failure;
    }

    predicate Claims(to: string, who: string)
      reads this`testLabel, this`testOwner, this`testExpires, clock
    {
      testLabel == Some(to) && testOwner == Some(who) && testExpires == Some(clock.now + FANIN_TEST_LEASE_SEC)
    }

    twostate predicate LeaseUnchanged()
      reads this`testLabel, this`testOwner, this`testExpires
    {
      testLabel == old(testLabel) && testOwner == old(testOwner) && testExpires == old(testExpires)
    }

    method ReleaseTest(owner: string) returns (reply: Reply)
      requires GateKnown() && LeaseWhole()
      modifies this`noneAsserted, fanin`gate, this`testLabel, this`testOwner, this`testExpires
      ensures GateKnown() && LeaseWhole() && reply != Broke
      ensures reply == Rejected <==>
                Stripped(owner) == "" || (old(testOwner).Some? && old(testOwner) != Some(Stripped(owner)))
      ensures reply == Rejected ==> fanin.gate == old(fanin.gate)
      // back to the pin, else to a winner that plays, else silent
      ensures reply == Done ==> testOwner.None? && fanin.gate == NormalGate()
      ensures reply == Done && manual.Some? ==> fanin.gate == Lane(Label(manual.value))
      ensures reply == Done && manual.None? && winner.Some? && winner.value in playing ==>
                fanin.gate == Lane(Label(winner.value))
      ensures reply == Done && manual.None? && (winner.None? || winner.value !in playing) ==> fanin.gate == Silent
      ensures reply == Failure ==> !fanin.gateReliable && (fanin.gate == old(fanin.gate) || fanin.gate == NormalGate())
      ensures reply != Done ==> LeaseUnchanged()
    {
      var who := Stripped(owner);
      if who == "" { return Rejected; }
      if testOwner.Some? && testOwner != Some(who) { return Rejected; }
      var ok := RestoreNormalGate();
      if !ok { return Failure; }
      testLabel, testOwner, testExpires := None, None, None;
      return Done;
    }

    // ----- the tick -------------------------------------------------------------------------

    // Where a tick that ended so leaves the gate, having found it at `from`. A start of the standing
    // winner itself sends no command.
    predicate GateLeft(end: TickEnd, handoff: Handoff, restarted: bool, from: Gate)
      reads this`winner, this`pending, this`manual, this`testLabel, fanin`gate
    {
      var stays := !fanin.gateReliable && fanin.gate == from;
      match end
      case TestHeld => testLabel.Some? && (fanin.gate == Lane(testLabel.value) || stays)
      case PinHeld => manual.Some? && (fanin.gate == Lane(Label(manual.value)) || stays)
      case HandoffFailed =>
        && pending.Some?
        && (|| fanin.gate == (if winner.None? then Silent else from)
            || (!fanin.gateReliable && fanin.gate == Lane(Label(pending.value))) || stays)
      case Raised =>
        if handoff == CoordinatorRaises then fanin.gate == from
        else winner.Some? && fanin.gate == Lane(Label(winner.value))
      case Finished => if restarted then fanin.gate == from else fanin.gate == WinnersGate() || stays
    }

    // A lease past its deadline is released on its owner's behalf.
    method ExpireLease()
      requires Sighted() && GateKnown() && LeaseWhole()
      modifies this`noneAsserted, fanin`gate, this`testLabel, this`testOwner, this`testExpires, clock
      ensures Sighted() && GateKnown() && LeaseWhole() && clock.now >= old(clock.now)
      ensures LeaseUnchanged()
              || (testOwner.None? && old(testExpires).Some? && old(testExpires).value <= clock.now
                  && fanin.gate == NormalGate())
      ensures fanin.gate == old(fanin.gate)
              || (old(testExpires).Some? && old(testExpires).value <= clock.now && fanin.gate == NormalGate())
      ensures fanin.gateReliable && testExpires.Some? ==> clock.now < testExpires.value
    {
      if testLabel.Some? && testOwner.Some? && testExpires.Some? {
        var now := ReadClock();
        if now >= testExpires.value { var _ := ReleaseTest(testOwner.value); }
      }
    }

    method ReassertManual()
      requires manual.Some? && GateKnown() && UsbKnown()
      modifies this`noneAsserted, fanin`gate, fanin`usbMuted, this`usbPreempted, this`laneCommands, this`winner, this`pending
      ensures GateKnown() && UsbKnown() && winner == manual && pending == None
      ensures fanin.gate == Lane(Label(manual.value)) || (!fanin.gateReliable && fanin.gate == old(fanin.gate))
      ensures fanin.muteReliable ==> !usbPreempted
    {
      var _ := FaninSelect(manual.value);
      if usbPreempted { UsbSetPreempt(false); }
      winner, pending := manual, None;
    }

    // A fresh start supersedes a pending retry; a retry supersedes a fallback pick.
    method ChooseTarget(newly: seq<Source>) returns (target: Option<Source>)
      requires Act().Total()
      modifies this`pending
      ensures target == AutoTarget(Act(), newly, winner, old(pending))
      ensures target.None? || target == winner ==> pending == None
      ensures pending == if Retrying(Act(), newly, winner, old(pending)) then old(pending) else None
    {
      hide PickWinner;
      target := None;
      if newly != [] {
        pending := None;
        target := Some(newly[|newly| - 1]);
      } else if pending.Some? && pending.value in playing && pending != winner {
        target := pending;
      } else {
        pending := None;
        if winner.Some? && winner.value !in playing {
          target := PickWinner(Act());
        } else if winner.None? {
          target := PickWinner(Act());
        }
      }
    }

    // Move the gate to a new target, then silence the losers.
    method HandOver(target: Source, handoff: Handoff) returns (end: TickEnd)
      requires GateKnown() && UsbKnown() && manual.None?
      modifies this`winner, this`pending, this`manual, this`persisted, this`usbPreempted, this`laneCommands
      modifies this`noneAsserted, fanin`gate, fanin`usbMuted
      ensures GateKnown() && UsbKnown() && manual.None? && persisted == old(persisted)
      ensures end == HandoffFailed || end == Finished || end == Raised
      ensures end == Finished ==> winner == Some(target) && pending == None && fanin.gate == Lane(Label(target))
      ensures end == HandoffFailed ==> winner == old(winner) && pending == Some(target)
      ensures GateLeft(end, handoff, false, old(fanin.gate))
      ensures end == Raised ==> handoff == CoordinatorRaises || handoff == CleanupRaises
      ensures end == Raised ==>
                if handoff == CoordinatorRaises then winner == old(winner) && pending == old(pending)
                else winner == Some(target) && pending == None
      ensures handoff == Smooth && fanin.gateReliable ==> end == Finished
      ensures target == Usbsink && !old(usbPreempted) ==> laneCommands == old(laneCommands) && !usbPreempted
      ensures fanin.muteReliable && end == Finished && Lost(playing, target) ==> usbPreempted
    {
      if target == Usbsink && usbPreempted { UsbSetPreempt(false); }
      var moved := TransitionTo(target, handoff, AutoWinner);
      if moved == Aborted { return Raised; }
      if moved == NotSelected {
        pending := Some(target);
        if winner.None? { var _ := FaninNone(); }
        return HandoffFailed;
      }
      if handoff == CleanupRaises && target != Airplay { return Raised; }
      PauseOthers(target, playing);
      return Finished;
    }

    // Where the automatic policy puts the gate.
    function WinnersGate(): Gate
      reads this`winner
    {
      if winner.Some? then Lane(Label(winner.value)) else Silent
    }

    // Nothing to hand off: re-assert the standing winner, or fall silent.
    method HoldOrIdle()
      requires GateKnown() && UsbKnown()
      modifies this`winner, this`pending, this`noneAsserted, fanin`gate
      ensures GateKnown() && UsbKnown()
      ensures if old(winner).Some? && old(winner).value in playing
              then winner == old(winner) && pending == old(pending)
                   && (fanin.gate == Lane(Label(winner.value)) || fanin.gate == old(fanin.gate))
              else winner == pending == None && (fanin.gate == Silent || (!noneAsserted && fanin.gate == old(fanin.gate)))
      ensures fanin.gate == WinnersGate() || (!fanin.gateReliable && fanin.gate == old(fanin.gate))
    {
      if winner.Some? && winner.value in playing {
        var _ := FaninSelect(winner.value);
      } else {
        winner, pending := None, None;
        if !noneAsserted { var _ := FaninNone(); }
      }
    }

    // The end of a tick: un-silence USB if nothing else plays, else say the mute again.
    method SettleLane()
      requires UsbKnown()
      modifies this`usbPreempted, this`laneCommands, fanin`usbMuted
      ensures UsbKnown() && (!old(usbPreempted) ==> laneCommands == old(laneCommands))
      ensures !(playing <= {Usbsink}) ==> usbPreempted == old(usbPreempted)
      ensures fanin.muteReliable ==>
                (fanin.usbMuted == usbPreempted <==> !Inherited()) && (playing <= {Usbsink} ==> !usbPreempted)
    {
      ReleaseIdlePreempt(playing);
      ReassertUsbMute();
    }

    // The automatic half of a tick: choose, hand off, release and re-assert the lane mute.
    method AutoHalf(newly: seq<Source>, handoff: Handoff) returns (end: TickEnd)
      requires Act().Total() && GateKnown() && UsbKnown() && manual.None?
      modifies this`winner, this`pending, this`manual, this`persisted, this`usbPreempted, this`laneCommands
      modifies this`noneAsserted, fanin`gate, fanin`usbMuted
      ensures GateKnown() && UsbKnown() && manual.None? && persisted == old(persisted)
      ensures end == HandoffFailed || end == Finished || end == Raised
      ensures (winner, pending) == AfterAuto(Act(), newly, old(winner), old(pending), OutcomeOf(end, handoff))
      ensures handoff == Smooth && fanin.gateReliable ==> end == Finished
      ensures end == HandoffFailed ==> pending.Some? && pending != winner
      ensures end == Raised ==> handoff == CoordinatorRaises || handoff == CleanupRaises
      ensures end == Finished && winner.Some? && winner != old(winner) ==> fanin.gate == Lane(Label(winner.value))
      ensures GateLeft(end, handoff, newly != [] && old(winner) == Some(newly[|newly| - 1]), old(fanin.gate))
      // a USB that lost to a handoff is silenced
      ensures fanin.muteReliable && end == Finished && winner.Some? && winner != old(winner) && Lost(playing, winner.value) ==>
                usbPreempted
      ensures fanin.muteReliable && end == Finished ==>
                (fanin.usbMuted == usbPreempted <==> !Inherited()) && (playing <= {Usbsink} ==> !usbPreempted)
      ensures end == Finished && winner == Some(Usbsink) && !old(usbPreempted) ==> laneCommands == old(laneCommands)
    {
      TargetIsWinner(Act(), newly, winner, pending);
      var target := ChooseTarget(newly);
      hide AutoTarget, Inherited, PickWinner, GateKnown, LaneKnown;
      end := Finished;
      if target.Some? && target != winner {
        end := HandOver(target.value, handoff);
        if end != Finished { return; }
      } else if target.None? {
        HoldOrIdle();
      }
      SettleLane();
    }

    // Where the decision leaves the gate: from where the tick found it, or from where the release of a
    // claim past its deadline had put it.
    twostate predicate GateDecided(end: TickEnd, handoff: Handoff, restarted: bool, before: Option<Source>)
      reads this, fanin, clock
    {
      || GateLeft(end, handoff, restarted, old(fanin.gate))
      || (&& old(testExpires).Some? && old(testExpires).value <= clock.now
          && GateLeft(end, handoff, restarted, HouseholdGate(manual, before, playing)))
    }

    // Whoever owns the gate decides: a live test claim, the manual pin, or the automatic policy.
    method Decide(newly: seq<Source>, handoff: Handoff) returns (end: TickEnd)
      requires Act().Total() && Sighted() && GateKnown() && UsbKnown() && LeaseWhole()
      modifies this`winner, this`pending, this`manual, this`persisted, this`usbPreempted, this`laneCommands
      modifies this`noneAsserted, fanin`gate, fanin`usbMuted
      modifies this`testLabel, this`testOwner, this`testExpires, clock
      ensures Sighted() && GateKnown() && UsbKnown() && LeaseWhole() && clock.now >= old(clock.now)
      ensures manual == old(manual) && persisted == old(persisted)
      ensures LeaseUnchanged() || (testOwner.None? && old(testExpires).Some? && old(testExpires).value <= clock.now)
      ensures end == TestHeld <==> testOwner.Some?
      ensures end == PinHeld <==> testOwner.None? && manual.Some?
      ensures end == TestHeld ==> winner == old(winner) && pending == old(pending) && usbPreempted == old(usbPreempted)
      ensures end == PinHeld ==> winner == manual && pending == None && (fanin.muteReliable ==> !usbPreempted)
      ensures end != TestHeld && end != PinHeld ==>
                (winner, pending) == AfterAuto(Act(), newly, old(winner), old(pending), OutcomeOf(end, handoff))
      ensures handoff == Smooth && fanin.gateReliable ==> end != HandoffFailed && end != Raised
      ensures end == HandoffFailed ==> pending.Some? && pending != winner
      ensures end == Raised ==> handoff == CoordinatorRaises || handoff == CleanupRaises
      ensures end == Finished && winner.Some? && winner != old(winner) ==> fanin.gate == Lane(Label(winner.value))
      // the gate, from where it stood or from where the release of an expired claim has put it
      ensures GateDecided(end, handoff, newly != [] && old(winner) == Some(newly[|newly| - 1]), old(winner))
      ensures end == TestHeld && fanin.gateReliable ==>
                testLabel.Some? && fanin.gate == Lane(testLabel.value) && testExpires.Some? && clock.now < testExpires.value
      ensures end == PinHeld && fanin.gateReliable ==> fanin.gate == Lane(Label(manual.value))
      ensures end == Finished && fanin.gateReliable && (newly == [] || old(winner) != Some(newly[|newly| - 1])) ==>
                fanin.gate == WinnersGate()
      // a USB that lost to a handoff is silenced
      ensures fanin.muteReliable && end == Finished && winner.Some? && winner != old(winner) && Lost(playing, winner.value) ==>
                usbPreempted
      ensures fanin.muteReliable && end == Finished ==>
                (fanin.usbMuted == usbPreempted <==> !Inherited()) && (playing <= {Usbsink} ==> !usbPreempted)
      ensures end == Finished && winner == Some(Usbsink) && !old(usbPreempted) ==> laneCommands == old(laneCommands)
    {
      hide Sighted, AfterAuto, HouseholdGate, Inherited, Lost, LaneKnown, GateLeft;
      ExpireLease();
      end := DecideNow(newly, handoff);
    }

    // The decision with no claim past its deadline, or none that could be released.
    method DecideNow(newly: seq<Source>, handoff: Handoff) returns (end: TickEnd)
      requires Act().Total() && GateKnown() && UsbKnown() && LeaseWhole()
      modifies this`winner, this`pending, this`manual, this`persisted, this`usbPreempted, this`laneCommands
      modifies this`noneAsserted, fanin`gate, fanin`usbMuted
      ensures GateKnown() && UsbKnown() && manual == old(manual) && persisted == old(persisted)
      ensures end == TestHeld <==> testOwner.Some?
      ensures end == PinHeld <==> testOwner.None? && manual.Some?
      ensures end == TestHeld ==> winner == old(winner) && pending == old(pending) && usbPreempted == old(usbPreempted)
      ensures end == PinHeld ==> winner == manual && pending == None && (fanin.muteReliable ==> !usbPreempted)
      ensures end != TestHeld && end != PinHeld ==>
                (winner, pending) == AfterAuto(Act(), newly, old(winner), old(pending), OutcomeOf(end, handoff))
      ensures handoff == Smooth && fanin.gateReliable ==> end != HandoffFailed && end != Raised
      ensures end == HandoffFailed ==> pending.Some? && pending != winner
      ensures end == Raised ==> handoff == CoordinatorRaises || handoff == CleanupRaises
      ensures end == Finished && winner.Some? && winner != old(winner) ==> fanin.gate == Lane(Label(winner.value))
      ensures GateLeft(end, handoff, newly != [] && old(winner) == Some(newly[|newly| - 1]), old(fanin.gate))
      ensures end == TestHeld && fanin.gateReliable ==> testLabel.Some? && fanin.gate == Lane(testLabel.value)
      ensures end == PinHeld && fanin.gateReliable ==> fanin.gate == Lane(Label(manual.value))
      ensures end == Finished && fanin.gateReliable && (newly == [] || old(winner) != Some(newly[|newly| - 1])) ==>
                fanin.gate == WinnersGate()
      ensures fanin.muteReliable && end == Finished && winner.Some? && winner != old(winner) && Lost(playing, winner.value) ==>
                usbPreempted
      ensures fanin.muteReliable && end == Finished ==>
                (fanin.usbMuted == usbPreempted <==> !Inherited()) && (playing <= {Usbsink} ==> !usbPreempted)
      ensures end == Finished && winner == Some(Usbsink) && !old(usbPreempted) ==> laneCommands == old(laneCommands)
    {
      hide AfterAuto, Inherited, Lost, LaneKnown;
      if testLabel.Some? {
        var _ := FaninSelectLabel(testLabel.value);
        return TestHeld;
      }
      if manual.Some? {
        ReassertManual();
        return PinHeld;
      }
      end := AutoHalf(newly, handoff);
    }

    /** One reconcile tick. */
    method Tick(deferred: set<Source>, probes: Source -> Probe, handoff: Handoff) returns (end: TickEnd)
      requires Valid()
      modifies this, clock, fanin`gate, fanin`usbMuted
      ensures Valid() && clock.now >= old(clock.now)
      ensures manual == old(manual) && persisted == old(persisted)
      // the snapshot it acts on
      ensures history == old(history) + [playing] && Act() == Record(old(Act()), playing)
      ensures Heard(playing, probes, deferred)
      ensures forall s :: s in playing && s !in deferred ==>
                Sight(s, playing).lastPositive > old(clock.now) - UNKNOWN_ACTIVE_HOLD_SEC
      ensures forall s :: s in deferred ==> Sight(s, playing) == old(Sight(s, playing))
      // a claim goes only by expiry
      ensures LeaseUnchanged() || (testOwner.None? && old(testExpires).Some? && old(testExpires).value <= clock.now)
      // who owns the gate decides what the tick does
      ensures end == TestHeld <==> testOwner.Some?
      ensures end == PinHeld <==> testOwner.None? && manual.Some?
      ensures end == TestHeld ==> winner == old(winner) && pending == old(pending) && usbPreempted == old(usbPreempted)
      ensures end == PinHeld ==> winner == manual && pending == None && (fanin.muteReliable ==> !usbPreempted)
      ensures end != TestHeld && end != PinHeld ==>
                Policy() == AutoTick(old(Policy()), playing, OutcomeOf(end, handoff))
      ensures handoff == Smooth && fanin.gateReliable ==> end != HandoffFailed && end != Raised
      ensures end == HandoffFailed ==> pending.Some? && pending != winner
      ensures end == Raised ==> handoff == CoordinatorRaises || handoff == CleanupRaises
      ensures end == Finished && winner.Some? && winner != old(winner) ==> fanin.gate == Lane(Label(winner.value))
      // the gate: with reliable commands on the test lane, the pin or the winner, by who owns it, and a
      // claim does not outlive its lease
      ensures GateDecided(end, handoff, Restarts(old(Policy()), playing), old(winner))
      ensures end == TestHeld && fanin.gateReliable ==>
                testLabel.Some? && fanin.gate == Lane(testLabel.value) && testExpires.Some? && clock.now < testExpires.value
      ensures end == PinHeld && fanin.gateReliable ==> fanin.gate == Lane(Label(manual.value))
      ensures end == Finished && fanin.gateReliable && !Restarts(old(Policy()), playing) ==> fanin.gate == WinnersGate()
      // a source that does not answer is held for five seconds after it was last known
      ensures forall s :: s !in deferred && probes(s) == Unknown && s in old(playing) ==>
                (clock.now < old(knownAt[s]) + UNKNOWN_ACTIVE_HOLD_SEC ==> s in playing)
      ensures forall s :: s !in deferred && probes(s) == Unknown && s in playing ==>
                s in old(playing) && old(clock.now) < old(knownAt[s]) + UNKNOWN_ACTIVE_HOLD_SEC
      // the lane mute
      ensures fanin.muteReliable && end == Finished && winner.Some? && winner != old(winner) && Lost(playing, winner.value) ==>
                usbPreempted
      ensures fanin.muteReliable && end == Finished ==>
                (fanin.usbMuted == usbPreempted <==> !Inherited()) && (playing <= {Usbsink} ==> !usbPreempted)
      ensures end == Finished && winner == Some(Usbsink) && !old(usbPreempted) ==> laneCommands == old(laneCommands)
    {
      hide AfterAuto, AfterProbe, Record, NewlyStarted, Latest, SoundSighting, Heard, Settled, OnCourse, Loses, OutcomeOf;
      hide Sighted;
      hide Observed, GateKnown, UsbKnown, LeaseWhole, GateLeft, HouseholdGate, Inherited, Lost;
      var newly, now := ObserveSources(deferred, probes);
      end := Decide(newly, handoff);
    }

    /** One reconcile, from an alert or a patrol: whatever it still counts active afterwards has been
        positively observed less than five seconds before it began. */
    method Reconcile(dirty: set<Source>, probes: Source -> Probe, handoff: Handoff) returns (end: TickEnd)
      requires Valid()
      modifies this, clock, fanin`gate, fanin`usbMuted
      ensures Valid() && history == old(history) + [playing] && manual == old(manual) && persisted == old(persisted)
      ensures LeaseUnchanged() || (testOwner.None? && old(testExpires).Some? && old(testExpires).value <= clock.now)
      ensures forall s :: s in playing ==> Sight(s, playing).lastPositive > old(clock.now) - UNKNOWN_ACTIVE_HOLD_SEC
      // whoever owns the gate has it
      ensures GateDecided(end, handoff, Restarts(old(Policy()), playing), old(winner))
      ensures end == TestHeld && fanin.gateReliable ==>
                testLabel.Some? && fanin.gate == Lane(testLabel.value) && testExpires.Some? && clock.now < testExpires.value
      ensures end == PinHeld && fanin.gateReliable ==> manual.Some? && fanin.gate == Lane(Label(manual.value))
      // a source an alert named is always probed
      ensures forall s :: s in dirty && probes(s) != Unknown ==> (s in playing <==> probes(s) == Active)
      // latest-start-wins
      ensures old(Settled(Policy(), history)) && end == Finished ==> Settled(Policy(), history)
      ensures old(OnCourse(Policy(), history)) && end != TestHeld && end != PinHeld ==>
                (OnCourse(Policy(), history) <==> !Loses(old(Policy()), playing, OutcomeOf(end, handoff)))
      ensures Arb() == Course.Next(old(Arb()), TickMove(end, handoff, playing))
    {
      var deferred, now := DeferrableProbes(dirty);
      forall s | s in deferred && s in playing
        ensures Sight(s, playing).lastPositive > old(clock.now) - UNKNOWN_ACTIVE_HOLD_SEC
      {
        assert SoundSighting(Sight(s, playing), clock.now);
      }
      label observed:
      hide Settled, Sighted, Observed, OnCourse, Loses, AutoTick;
      end := Tick(deferred, probes, handoff);
      PolicyFollows(old(Policy()), old(history), Policy(), playing, end, handoff);
      forall s | s in playing
        ensures Sight(s, playing).lastPositive > old(clock.now) - UNKNOWN_ACTIVE_HOLD_SEC
      {
        if s in deferred { assert Sight(s, playing) == old@observed(Sight(s, playing)); }
      }
    }

    // ----- control verbs --------------------------------------------------------------------

    // Where a handoff to this source that failed leaves the gate.
    twostate predicate GateKept(source: Source)
      reads this`winner, fanin`gate
    {
      || fanin.gate == old(fanin.gate)
      || (!fanin.gateReliable && fanin.gate == Lane(Label(source)))
      || (winner.None? && fanin.gate == Silent)
    }

    // The locked half of a manual selection.
    method PinLocked(source: Source, handoff: Handoff) returns (moved: Moved)
      requires GateKnown() && UsbKnown()
      modifies this`winner, this`pending, this`manual, this`persisted, this`usbPreempted, this`laneCommands
      modifies this`noneAsserted, fanin`gate, fanin`usbMuted
      ensures GateKnown() && UsbKnown() && pending == None
      ensures moved == Selected ==>
                && winner == manual == Some(source) && fanin.gate == Lane(Label(source))
                && (persisted == manual || (!modeReliable && persisted == old(persisted)))
                && (fanin.muteReliable ==> !usbPreempted)
      ensures handoff == Smooth && fanin.gateReliable ==> moved == Selected
      ensures moved != Selected ==> GateKept(source)
      ensures moved != Selected ==> winner == old(winner) && manual == old(manual) && persisted == old(persisted)
    {
      pending := None;
      moved := TransitionTo(source, handoff, ManualPin);
      if moved == Selected {
        if usbPreempted { UsbSetPreempt(false); }
      } else if moved == NotSelected && winner.None? {
        var _ := FaninNone();
      }
    }

    /** Pin one source. */
    method SelectSource(source: Source, handoff: Handoff, probes: Source -> Probe) returns (reply: Reply)
      requires Valid()
      modifies this, clock, fanin`gate, fanin`usbMuted
      ensures Valid() && LeaseUnchanged() && old(history) <= history
      ensures reply == Rejected <==> old(testOwner).Some?
      ensures reply == Done ==>
                && winner == manual == Some(source) && pending == None && fanin.gate == Lane(Label(source))
                && (fanin.muteReliable ==> !usbPreempted)
      ensures handoff == Smooth && fanin.gateReliable ==> reply == Done || reply == Rejected
      ensures reply == Failure || reply == Broke ==> GateKept(source)
      ensures reply == Done || reply == Failure ==> Heard(playing, probes, {})
      ensures reply != Done ==> winner == old(winner) && manual == old(manual) && persisted == old(persisted)
      ensures reply == Failure || reply == Broke ==> pending == None
      ensures reply == Rejected ==>
                pending == old(pending) && history == old(history) && fanin.gate == old(fanin.gate)
      ensures Arb() == Course.Next(old(Arb()), SelectMove(reply, source, playing))
      ensures history == Course.Recorded(old(history), SelectMove(reply, source, playing))
    {
      hide Observed, Sighted, Record, GateKnown, UsbKnown, LeaseWhole, Act;
      if testOwner.Some? { return Rejected; }
      var moved := PinLocked(source, handoff);
      if moved == Aborted { return Broke; }
      ObserveAll(probes);
      return if moved == Selected then Done else Failure;
    }

    // The locked half of a return to Auto, with `best` the latest starter of the new snapshot.
    method UnpinLocked(best: Option<Source>, handoff: Handoff) returns (reply: Reply)
      requires GateKnown() && UsbKnown() && (best.None? ==> playing == {})
      modifies this`winner, this`pending, this`manual, this`persisted, this`usbPreempted, this`laneCommands
      modifies this`noneAsserted, fanin`gate, fanin`usbMuted
      ensures GateKnown() && UsbKnown() && reply != Rejected
      ensures reply == Failure ==>
                manual == old(manual) && persisted == old(persisted) && winner == old(winner)
                && pending == best && best.Some?
      ensures reply == Done ==>
                && winner == best && manual == pending == None
                && fanin.gate == (if best.Some? then Lane(Label(best.value)) else Silent)
                && (persisted == None || (!modeReliable && persisted == old(persisted)))
                && (fanin.muteReliable && playing <= {Usbsink} ==> !usbPreempted)
      ensures reply == Broke ==>
                if handoff == CoordinatorRaises && best.Some? then
                  && winner == old(winner) && pending == old(pending) && manual == old(manual)
                  && persisted == old(persisted) && fanin.gate == old(fanin.gate)
                else
                  && winner == best && manual == pending == None
                  && (persisted == None || (!modeReliable && persisted == old(persisted)))
                  && (if best.Some? then fanin.gate == Lane(Label(best.value)) else !fanin.gateReliable)
      ensures reply == Failure ==> GateKept(best.value)
      ensures handoff == Smooth && fanin.gateReliable ==> reply == Done
    {
      if best.Some? {
        var moved := TransitionTo(best.value, handoff, BackToAuto);
        if moved == Aborted { return Broke; }
        if moved == NotSelected {
          pending := best;
          if winner.None? { var _ := FaninNone(); }
          return Failure;
        }
        if best == Some(Usbsink) && usbPreempted { UsbSetPreempt(false); }
        if handoff == CleanupRaises && best != Some(Airplay) { return Broke; }
        PauseOthers(best.value, playing);
      } else {
        winner, manual, pending := None, None, None;
        WriteMode(None);
        var ok := FaninNone();
        if !ok { return Broke; }
      }
      ReleaseIdlePreempt(playing);
      return Done;
    }

    /** Return to automatic arbitration: a finished return is settled at once. */
    method AutoSelect(handoff: Handoff, probes: Source -> Probe) returns (reply: Reply)
      requires Valid()
      modifies this, clock, fanin`gate, fanin`usbMuted
      ensures Valid() && LeaseUnchanged() && old(history) <= history
      ensures reply == Rejected <==> old(testOwner).Some?
      ensures reply == Rejected ==>
                && winner == old(winner) && pending == old(pending) && history == old(history)
                && fanin.gate == old(fanin.gate)
      ensures reply == Rejected || reply == Failure ==> manual == old(manual) && persisted == old(persisted)
      ensures reply == Failure ==> winner == old(winner) && pending.Some? && Latest(history, pending)
      ensures Arb() == Course.Next(old(Arb()), AutoMove(reply, handoff, playing))
      ensures history == Course.Recorded(old(history), AutoMove(reply, handoff, playing))
      ensures reply == Done ==>
                && manual == None && Settled(Policy(), history)
                && fanin.gate == (if winner.Some? then Lane(Label(winner.value)) else Silent)
                && (fanin.muteReliable && playing <= {Usbsink} ==> !usbPreempted)
      ensures handoff == Smooth && fanin.gateReliable ==> reply == Done || reply == Rejected
      ensures reply == Failure ==> pending.Some? && GateKept(pending.value)
      ensures reply != Rejected ==> Heard(playing, probes, {})
    {
      hide Observed, Sighted, GateKnown, LeaseWhole, UsbKnown, Act, Policy, Latest, PickWinner, Settled;
      if testOwner.Some? { return Rejected; }
      reply := BackToAutomatic(handoff, probes);
    }

    method BackToAutomatic(handoff: Handoff, probes: Source -> Probe) returns (reply: Reply)
      requires Observed() && Sighted() && GateKnown() && UsbKnown() && ModeKept()
      modifies this`playing, this`startedSeq, this`startCounter, this`history
      modifies this`knownAt, this`probeDueAt, this`lastPositive, clock
      modifies this`winner, this`pending, this`manual, this`persisted, this`usbPreempted, this`laneCommands
      modifies this`noneAsserted, fanin`gate, fanin`usbMuted
      ensures Observed() && Sighted() && GateKnown() && UsbKnown()
      ensures reply != Rejected
      ensures reply == Failure ==>
                && manual == old(manual) && persisted == old(persisted) && winner == old(winner)
                && pending.Some? && Latest(history, pending)
      ensures Arb() == Course.Next(old(Arb()), AutoMove(reply, handoff, playing))
      ensures history == Course.Recorded(old(history), AutoMove(reply, handoff, playing))
      ensures reply == Done ==>
                && manual == None && Settled(Policy(), history)
                && fanin.gate == (if winner.Some? then Lane(Label(winner.value)) else Silent)
                && (fanin.muteReliable && playing <= {Usbsink} ==> !usbPreempted)
      ensures handoff == Smooth && fanin.gateReliable ==> reply == Done
      ensures reply == Failure ==> pending.Some? && GateKept(pending.value)
      ensures ModeKept() && Heard(playing, probes, {})
    {
      hide Observed, Sighted, GateKnown, LaneKnown, Latest, PickWinner, Settled, Act;
      var best := ObservePick(probes);
      reply := UnpinLocked(best, handoff);
      if reply == Done { PolicySettled(); }
    }

    lemma PolicySettled()
      requires Observed() && pending == None && winner == PickWinner(Act())
      ensures Settled(Policy(), history)
    {
      PickSettles(Policy(), history);
    }

    // A new snapshot and its latest starter.
    method ObservePick(probes: Source -> Probe) returns (best: Option<Source>)
      requires Observed() && Sighted()
      modifies this`playing, this`startedSeq, this`startCounter, this`history
      modifies this`knownAt, this`probeDueAt, this`lastPositive, clock
      ensures Observed() && Sighted() && clock.now >= old(clock.now) && history == old(history) + [playing]
      ensures Act() == Record(old(Act()), playing)
      ensures Act().Total() && best == PickWinner(Act()) && Latest(history, best) && (best.None? <==> playing == {})
      ensures Heard(playing, probes, {})
    {
      hide Sighted, Record, Latest, PickWinner, Tracks;
      ObserveAll(probes);
      TrackedPlaying(Act(), history);
      best := PickWinner(Act());
      PickIsLatest(Act(), history);
      NothingPicked(Act(), history);
    }
  }

  lemma NothingPicked(a: Activity, h: seq<Snapshot>)
    requires Tracks(a, h)
    ensures PickWinner(a).None? <==> a.playing == {}
  {
    PickIsLatest(a, h);
  }

  lemma PickSettles(x: Auto, h: seq<Snapshot>)
    requires Tracks(x.activity, h) && x.pending == None && x.winner == PickWinner(x.activity)
    ensures Settled(x, h)
  {
    PickIsLatest(x.activity, h);
  }

  // ----- whole runs -------------------------------------------------------------------------

  datatype Event =
    | Patrol(dirty: set<Source>, probes: Source -> Probe, handoff: Handoff)
    | Select(source: Source, handoff: Handoff, probes: Source -> Probe)
    | ReturnToAuto(handoff: Handoff, probes: Source -> Probe)
    | TestSelect(lane: string, owner: string)
    | TestRelease(owner: string)
    | FaninRestart
    | MuxRestart

  // fan-in comes back silent and unmuted; the mux notices nothing.
  method RestartFanin(mux: Mux)
    requires mux.Valid()
    modifies mux.fanin
    ensures mux.Valid() && mux.fanin.boots == old(mux.fanin.boots) + 1
  {
    hide Tracks, SoundSighting;
    mux.fanin.Restart();
  }

  // The move an event makes, given how it ended.
  ghost predicate Makes(event: Event, move: Course.Move) {
    match event
    case Patrol(_, _, _) => move.Ticked? || move.Watched?
    case Select(source, _, _) =>
      move.Idles? || move.Dropped? || move.DroppedWatched? || (move.Pins? && move.source == source)
    case ReturnToAuto(_, _) => move.Idles? || move.Watched? || move.Declines? || move.Unpins?
    case MuxRestart => move.Reborn?
    case _ => move.Idles?
  }

  // A test claim goes only by its owner's release or by expiry, and while one is held the pin and the
  // persisted mode stay.
  twostate predicate ClaimHolds(mux: Mux, event: Event)
    reads mux, mux.clock
  {
    && (old(mux.testOwner).Some? ==> mux.manual == old(mux.manual) && mux.persisted == old(mux.persisted))
    && (old(mux.testOwner).Some? && mux.testOwner != old(mux.testOwner) ==>
          && mux.testOwner.None?
          && match event
             case TestRelease(owner) => old(mux.testOwner) == Some(Stripped(owner))
             case Patrol(_, _, _) => old(mux.testExpires).Some? && old(mux.testExpires).value <= mux.clock.now
             case _ => false)
  }

  method StepPatrol(mux: Mux, event: Event) returns (ghost move: Course.Move)
    requires mux.Valid() && event.Patrol?
    modifies mux, mux.clock, mux.fanin
    ensures mux.Valid() && ClaimHolds(mux, event) && Makes(event, move)
    ensures mux.Arb() == Course.Next(old(mux.Arb()), move) && mux.history == Course.Recorded(old(mux.history), move)
  {
    hide Mux.Valid, Mux.Arb, Course.Next, OnCourse, Loses, Settled;
    var end := mux.Reconcile(event.dirty, event.probes, event.handoff);
    move := TickMove(end, event.handoff, mux.playing);
  }

  method StepVerb(mux: Mux, event: Event) returns (ghost move: Course.Move)
    requires mux.Valid() && (event.Select? || event.ReturnToAuto?)
    modifies mux, mux.clock, mux.fanin
    ensures mux.Valid() && ClaimHolds(mux, event) && Makes(event, move)
    ensures mux.Arb() == Course.Next(old(mux.Arb()), move) && mux.history == Course.Recorded(old(mux.history), move)
  {
    hide Mux.Valid, Mux.Arb, Course.Next, Settled, Latest;
    if event.Select? {
      var reply := mux.SelectSource(event.source, event.handoff, event.probes);
      move := SelectMove(reply, event.source, mux.playing);
    } else {
      var reply := mux.AutoSelect(event.handoff, event.probes);
      move := AutoMove(reply, event.handoff, mux.playing);
    }
  }

  method StepTest(mux: Mux, event: Event)
    requires mux.Valid() && (event.TestSelect? || event.TestRelease? || event.FaninRestart?)
    modifies mux, mux.clock, mux.fanin
    ensures mux.Valid() && ClaimHolds(mux, event)
    ensures mux.Arb() == old(mux.Arb()) && mux.history == old(mux.history)
  {
    hide Mux.Observed, Mux.Sighted, Mux.GateKnown, Mux.LeaseWhole, Mux.UsbKnown, Mux.Arb, Mux.NormalGate;
    hide Stripped, Mux.Claims;
    match event {
      case TestSelect(lane, owner) => var _ := mux.SelectTest(lane, owner);
      case TestRelease(owner) => var _ := mux.ReleaseTest(owner);
      case FaninRestart => RestartFanin(mux);
    }
  }

  /** Every event is a move of the selection, and keeps a test claim's rules. */
  method Step(mux: Mux, event: Event) returns (ghost move: Course.Move)
    requires mux.Valid() && !event.MuxRestart?
    modifies mux, mux.clock, mux.fanin
    ensures mux.Valid() && ClaimHolds(mux, event) && Makes(event, move)
    ensures mux.Arb() == Course.Next(old(mux.Arb()), move) && mux.history == Course.Recorded(old(mux.history), move)
  {
    Course.IdlesChangesNothing(mux.Arb());
    hide Mux.Valid, Mux.Arb, Course.Next;
    if event.Patrol? {
      move := StepPatrol(mux, event);
    } else if event.Select? || event.ReturnToAuto? {
      move := StepVerb(mux, event);
    } else {
      StepTest(mux, event);
      move := Course.Idles;
    }
  }

  /** Over every run of reconciles, control verbs and restarts of fan-in or of the mux itself, commands
      lost or not: an idle gate is never believed wrongly, the test claim is whole, sequence numbers and
      sightings agree with the observation history, with reliable mutes USB is never preempted as the
      winner, its lane being muted then exactly if the mute was inherited, and the selection goes as the
      moves say, so that latest-start-wins stays on course unless one of them strays. */
  method Run(first: Mux, events: seq<Event>) returns (mux: Mux, ghost moves: seq<Course.Move>)
    requires first.Valid()
    modifies first, first.clock, first.fanin
    ensures mux.Valid() && mux.LeaseWhole() && Heir(mux, first)
    ensures first.modeReliable ==> mux.persisted == mux.manual
    ensures mux.noneAsserted ==> mux.fanin.gate == Silent
    ensures mux.fanin.muteReliable && mux.winner == Some(Usbsink) ==>
              !mux.usbPreempted && (mux.fanin.usbMuted <==> mux.Inherited())
    ensures Latest(mux.history, PickWinner(mux.Act()))
    ensures |moves| == |events| && forall i :: 0 <= i < |events| ==> Makes(events[i], moves[i])
    ensures mux.Arb() == Course.After(old(first.Arb()), moves) && mux.history == Course.Log(old(first.history), moves)
    ensures old(Course.Right(first.Arb(), first.history)) ==>
              (Course.RightThroughout(old(first.Arb()), old(first.history), moves)
               <==> Course.NeverStrays(old(first.Arb()), moves))
  {
    mux, moves := RunMoves(first, events);
    PickIsLatest(mux.Act(), mux.history);
    if old(Course.Right(first.Arb(), first.history)) {
      Course.RunStaysOnCourseIff(old(first.Arb()), old(first.history), moves);
    }
  }

  // A later mux over the same fan-in, clock and mode file.
  predicate Heir(mux: Mux, first: Mux) {
    mux.fanin == first.fanin && mux.clock == first.clock && mux.modeReliable == first.modeReliable
  }

  method RunMoves(first: Mux, events: seq<Event>) returns (mux: Mux, ghost moves: seq<Course.Move>)
    requires first.Valid()
    modifies first, first.clock, first.fanin
    ensures mux.Valid() && Heir(mux, first)
    ensures |moves| == |events| && forall i :: 0 <= i < |events| ==> Makes(events[i], moves[i])
    ensures mux.Arb() == Course.After(old(first.Arb()), moves) && mux.history == Course.Log(old(first.history), moves)
  {
    mux, moves := first, [];
    ghost var start, h := first.Arb(), first.history;
    for i := 0 to |events|
      invariant mux.Valid() && Heir(mux, first) && (mux == first || fresh(mux))
      invariant |moves| == i && forall k :: 0 <= k < i ==> Makes(events[k], moves[k])
      invariant mux.Arb() == Course.After(start, moves) && mux.history == Course.Log(h, moves)
    {
      hide Mux.Valid, Mux.Arb, Course.Next, Course.After, Course.Log, Course.Recorded, Makes;
      ghost var move;
      mux, move := OneEvent(mux, events[i]);
      Course.OneMore(start, h, moves, move);
      moves := moves + [move];
    }
  }

  method OneEvent(mux: Mux, event: Event) returns (next: Mux, ghost move: Course.Move)
    requires mux.Valid()
    modifies mux, mux.clock, mux.fanin
    ensures next.Valid() && Heir(next, mux) && (next == mux || fresh(next))
    ensures Makes(event, move) && next.Arb() == Course.Next(old(mux.Arb()), move)
    ensures next.history == Course.Recorded(old(mux.history), move)
  {
    hide Mux.Valid, Mux.Arb, Course.Next, Course.Recorded, Makes, ClaimHolds;
    if event.MuxRestart? {
      move := Course.Reborn(mux.persisted);
      next := Reborn(mux, event);
    } else {
      move := Step(mux, event);
      next := mux;
    }
  }

  // A new mux over the same fan-in, clock and persisted mode.
  method Reborn(mux: Mux, event: Event) returns (next: Mux)
    requires mux.Valid() && event.MuxRestart?
    ensures next.Valid() && fresh(next) && Heir(next, mux) && (mux.modeReliable ==> next.manual == mux.manual)
    ensures Makes(event, Course.Reborn(mux.persisted))
    ensures next.history == Course.Recorded(mux.history, Course.Reborn(mux.persisted))
    ensures next.Arb() == Course.Next(mux.Arb(), Course.Reborn(mux.persisted))
  {
    next := new Mux(mux.fanin, mux.clock, mux.persisted, mux.modeReliable);
  }

  /** After a fan-in restart dropped the mute, the next automatic tick to finish restores it. */
  method RestartThenTick(mux: Mux, deferred: set<Source>, probes: Source -> Probe, handoff: Handoff) returns (end: TickEnd)
    requires mux.Valid() && mux.fanin.muteReliable
    modifies mux, mux.clock, mux.fanin
    ensures mux.Valid() && (end == Finished ==> mux.fanin.usbMuted == mux.usbPreempted)
  {
    RestartFanin(mux);
    end := mux.Tick(deferred, probes, handoff);
  }

  // An automatic tick with every command reliable, on a given snapshot.
  method TickOn(mux: Mux, active: Snapshot)
    requires mux.Valid() && mux.fanin.gateReliable && mux.fanin.muteReliable
    requires mux.testOwner.None? && mux.testLabel.None? && mux.manual.None?
    modifies mux, mux.clock, mux.fanin`gate, mux.fanin`usbMuted
    ensures mux.Valid() && mux.testOwner.None? && mux.testLabel.None? && mux.manual.None? && mux.persisted == old(mux.persisted)
    ensures mux.playing == active && mux.Policy() == AutoTick(old(mux.Policy()), active, Committed)
    ensures old(Settled(mux.Policy(), mux.history)) ==> Settled(mux.Policy(), mux.history)
    ensures mux.fanin.usbMuted == mux.usbPreempted <==> !mux.Inherited()
    ensures mux.winner.Some? && mux.winner != old(mux.winner) ==>
              && mux.fanin.gate == Lane(Label(mux.winner.value))
              && (Lost(active, mux.winner.value) ==> mux.usbPreempted)
    ensures active <= {Usbsink} ==> !mux.usbPreempted
    ensures mux.winner == Some(Usbsink) && !old(mux.usbPreempted) ==> mux.laneCommands == old(mux.laneCommands)
  {
    hide Tracks, SoundSighting, Settled, AutoTick, Mux.GateKnown, Mux.Inherited;
    var probes := (s: Source) => if s in active then Active else Inactive;
    ghost var before, h := mux.Policy(), mux.history;
    var end := mux.Tick({}, probes, Smooth);
    assert mux.playing == active by { AllHeard(mux.playing, probes, active); }
    PolicyFollows(before, h, mux.Policy(), active, end, Smooth);
  }

  lemma AllHeard(playing: Snapshot, probes: Source -> Probe, active: Snapshot)
    requires Heard(playing, probes, {}) && forall s :: probes(s) == if s in active then Active else Inactive
    ensures playing == active
  {
  }

  lemma SettledOnOne(x: Auto, h: seq<Snapshot>, s: Source)
    requires Settled(x, h) && x.activity.playing == {s}
    ensures x.winner == Some(s)
  {
    TrackedPlaying(x.activity, h);
    assert s in Now(h);
  }

  lemma NewcomerWins(x: Auto, h: seq<Snapshot>, s: Source, t: Source)
    requires Settled(x, h) && x.activity.playing == {s} && t != s
    ensures AutoTick(x, {s, t}, Committed).winner == Some(t)
  {
    NewlyAll(x.activity, {s, t});
    SettledOnOne(x, h, s);
  }

  // A mux that hands over from USB to Spotify mutes the USB lane.
  method SpotifyOverUsb(f: Daemon, c: Clock) returns (mux: Mux)
    requires !f.usbMuted && f.gateReliable && f.muteReliable && c.now >= 0.0
    modifies f, c
    ensures mux.Valid() && fresh(mux) && mux.fanin == f && mux.clock == c && mux.persisted == None
    ensures mux.winner == Some(Spotify) && f.gate == Lane(Label(Spotify)) && f.usbMuted
  {
    mux := new Mux(f, c, None, true);
    hide Settled, AutoTick;
    TickOn(mux, {Usbsink});
    SettledOnOne(mux.Policy(), mux.history, Usbsink);
    NewcomerWins(mux.Policy(), mux.history, Usbsink, Spotify);
    TickOn(mux, {Usbsink, Spotify});
    assert Spotify in mux.playing;
  }

  /** A mux restarted while its predecessor holds the USB lane muted does not know of the mute: in this
      run, with every command reliable, Spotify takes over from USB and the mux restarts; then USB alone
      playing becomes the winner, is selected, and stays silent. */
  method RestartOverMutedLane(f: Daemon, c: Clock) returns (mux: Mux)
    requires !f.usbMuted && f.gateReliable && f.muteReliable && c.now >= 0.0
    modifies f, c
    ensures mux.Valid() && fresh(mux) && mux.fanin == f && mux.playing == {Usbsink}
    ensures mux.winner == Some(Usbsink) && f.gate == Lane(Label(Usbsink)) && f.usbMuted && !mux.usbPreempted
  {
    var first := SpotifyOverUsb(f, c);
    mux := new Mux(first.fanin, first.clock, first.persisted, first.modeReliable);
    hide Settled, AutoTick;
    TickOn(mux, {Usbsink});
    SettledOnOne(mux.Policy(), mux.history, Usbsink);
  }
}
