/**
  Latest-start-wins arbitration (jasper/mux.py): recording source snapshots, picking a winner, and
  the automatic policy of one tick. The reference definition of the latest starter reads the
  snapshot history alone.
 */
module Arbitration {
  import opened Options

  // MUSIC_SOURCES, in registry order.
  datatype Source = Spotify | Airplay | Bluetooth | Usbsink

  const REGISTRY: seq<Source> := [Spotify, Airplay, Bluetooth, Usbsink]

  function Rank(s: Source): nat {
    match s
    case Spotify => 0
    case Airplay => 1
    case Bluetooth => 2
    case Usbsink => 3
  }

  // The sources one snapshot found active.
  type Snapshot = set<Source>

  // ----- the reference: what the history says ---------------------------------------------

  function Now(h: seq<Snapshot>): Snapshot { if h == [] then {} else h[|h| - 1] }

  // The snapshot at which s last went from inactive to active.
  function LastStart(h: seq<Snapshot>, s: Source): int {
    if h == [] then -1 else
    var n := |h| - 1;
    if s in h[n] && s !in Now(h[..n]) then n else LastStart(h[..n], s)
  }

  // s started after t, ties within one snapshot going to the later registry entry.
  predicate Later(h: seq<Snapshot>, s: Source, t: Source) {
    LastStart(h, s) > LastStart(h, t) || (LastStart(h, s) == LastStart(h, t) && Rank(s) > Rank(t))
  }

  // w is the active source that started last, or none if nothing is active.
  predicate Latest(h: seq<Snapshot>, w: Option<Source>) {
    match w
    case None => Now(h) == {}
    case Some(s) => s in Now(h) && forall t :: t in Now(h) && t != s ==> Later(h, s, t)
  }

  // ----- what the mux keeps ---------------------------------------------------------------

  datatype Activity = Activity(playing: Snapshot, startedSeq: map<Source, nat>, counter: nat) {
    ghost predicate Total() { forall s: Source :: s in startedSeq }
  }

  function Quiet(): (a: Activity)
    ensures a.Total()
  {
    var a := Activity({}, map[Spotify := 0, Airplay := 0, Bluetooth := 0, Usbsink := 0], 0);
    assert forall s: Source :: Rank(s) < 4 && REGISTRY[Rank(s)] == s && s in a.startedSeq;
    a
  }

  predicate Starts(a: Activity, current: Snapshot, s: Source) { s in current && s !in a.playing }

  // The starts among the first i registry entries, in registry order.
  function NewlyStarted(a: Activity, current: Snapshot, i: nat): seq<Source>
    requires i <= |REGISTRY|
  {
    if i == 0 then []
    else NewlyStarted(a, current, i - 1)
         + if Starts(a, current, REGISTRY[i - 1]) then [REGISTRY[i - 1]] else []
  }

  // Sequence numbers after the first i registry entries have been looked at.
  function RecordUpTo(a: Activity, current: Snapshot, i: nat): (r: Activity)
    requires i <= |REGISTRY| && a.Total()
    ensures r.Total() && r.counter >= a.counter
  {
    if i == 0 then a else
    var r := RecordUpTo(a, current, i - 1);
    if Starts(a, current, REGISTRY[i - 1]) then
      r.(counter := r.counter + 1, startedSeq := r.startedSeq[REGISTRY[i - 1] := r.counter + 1])
    else r
  }

  function Record(a: Activity, current: Snapshot): (r: Activity)
    requires a.Total()
    ensures r.Total()
  {
    RecordUpTo(a, current, |REGISTRY|).(playing := current)
  }

  // The active source with the greatest (started_seq, registry index) among the first i entries.
  function BestUpTo(a: Activity, i: nat): Option<Source>
    requires i <= |REGISTRY| && a.Total()
  {
    if i == 0 then None else
    var best, s := BestUpTo(a, i - 1), REGISTRY[i - 1];
    if s in a.playing && (best.None? || a.startedSeq[s] >= a.startedSeq[best.value]) then Some(s) else best
  }

  function PickWinner(a: Activity): Option<Source>
    requires a.Total()
  {
    BestUpTo(a, |REGISTRY|)
  }

  // ----- bookkeeping agrees with history --------------------------------------------------

  ghost predicate Tracks(a: Activity, h: seq<Snapshot>) {
    && a.Total() && a.playing == Now(h)
    && (forall s :: s in a.playing ==> 0 < a.startedSeq[s] <= a.counter)
    && (forall s, t :: s in a.playing && t in a.playing && s != t ==>
          a.startedSeq[s] != a.startedSeq[t] && (a.startedSeq[s] > a.startedSeq[t] <==> Later(h, s, t)))
  }

  lemma TrackedPlaying(a: Activity, h: seq<Snapshot>)
    requires Tracks(a, h)
    ensures a.Total() && a.playing == Now(h)
  {
  }

  // How a recorded sequence number relates to the counter before.
  lemma RecordedSeq(a: Activity, current: Snapshot, i: nat, s: Source)
    requires i <= |REGISTRY| && a.Total()
    ensures var r := RecordUpTo(a, current, i);
            && r.playing == a.playing
            && (if Rank(s) < i && Starts(a, current, s) then a.counter < r.startedSeq[s] <= r.counter
                else r.startedSeq[s] == a.startedSeq[s])
  {
    if i > 0 { RecordedSeq(a, current, i - 1, s); }
  }

  // Starts of one snapshot are numbered in registry order.
  lemma RecordedOrder(a: Activity, current: Snapshot, i: nat, s: Source, t: Source)
    requires i <= |REGISTRY| && a.Total() && Rank(s) < Rank(t) < i
    requires Starts(a, current, s) && Starts(a, current, t)
    ensures var r := RecordUpTo(a, current, i); r.startedSeq[s] < r.startedSeq[t]
  {
    if Rank(t) == i - 1 { RecordedSeq(a, current, i - 1, s); } else { RecordedOrder(a, current, i - 1, s, t); }
  }

  lemma StartOf(h: seq<Snapshot>, current: Snapshot, s: Source)
    requires s in current
    ensures LastStart(h + [current], s) == if s in Now(h) then LastStart(h, s) else |h|
    ensures LastStart(h, s) < |h|
  {
    assert (h + [current])[..|h|] == h;
    StartBelow(h, s);
  }

  lemma StartBelow(h: seq<Snapshot>, s: Source)
    ensures LastStart(h, s) < |h|
  {
    if h != [] { StartBelow(h[..|h| - 1], s); }
  }

  lemma PairTracks(a: Activity, h: seq<Snapshot>, current: Snapshot, s: Source, t: Source)
    requires Tracks(a, h) && s in current && t in current && s != t
    ensures var r := Record(a, current);
            && r.startedSeq[s] != r.startedSeq[t]
            && (r.startedSeq[s] > r.startedSeq[t] <==> Later(h + [current], s, t))
  {
    hide RecordUpTo, LastStart;
    RecordedSeq(a, current, |REGISTRY|, s);
    RecordedSeq(a, current, |REGISTRY|, t);
    StartOf(h, current, s);
    StartOf(h, current, t);
    if Starts(a, current, s) && Starts(a, current, t) {
      if Rank(s) < Rank(t) {
        RecordedOrder(a, current, |REGISTRY|, s, t);
      } else {
        RecordedOrder(a, current, |REGISTRY|, t, s);
      }
    }
  }

  /** Recording a snapshot keeps the sequence numbers in step with the history. */
  lemma RecordTracks(a: Activity, h: seq<Snapshot>, current: Snapshot)
    requires Tracks(a, h)
    ensures Tracks(Record(a, current), h + [current])
  {
    hide Later, RecordUpTo;
    var r := Record(a, current);
    forall s | s in current ensures 0 < r.startedSeq[s] <= r.counter {
      RecordedSeq(a, current, |REGISTRY|, s);
    }
    forall s, t | s in current && t in current && s != t
      ensures r.startedSeq[s] != r.startedSeq[t]
              && (r.startedSeq[s] > r.startedSeq[t] <==> Later(h + [current], s, t))
    {
      PairTracks(a, h, current, s, t);
    }
  }

  lemma BestIsMaximal(a: Activity, i: nat)
    requires i <= |REGISTRY| && a.Total()
    ensures var b := BestUpTo(a, i);
            && (b.Some? ==> b.value in a.playing && Rank(b.value) < i)
            && (forall s :: s in a.playing && Rank(s) < i ==>
                  && b.Some? && a.startedSeq[s] <= a.startedSeq[b.value]
                  && (a.startedSeq[s] == a.startedSeq[b.value] ==> Rank(s) <= Rank(b.value)))
  {
    if i > 0 { BestIsMaximal(a, i - 1); }
  }

  /** The winner picked from sequence numbers is the latest starter of the history. */
  lemma PickIsLatest(a: Activity, h: seq<Snapshot>)
    requires Tracks(a, h)
    ensures Latest(h, PickWinner(a))
  {
    BestIsMaximal(a, |REGISTRY|);
    if a.playing != {} { var s :| s in a.playing; assert Rank(s) < 4; }
  }

  lemma LatestIsUnique(h: seq<Snapshot>, v: Option<Source>, w: Option<Source>)
    requires Latest(h, v) && Latest(h, w)
    ensures v == w
  {
  }

  lemma NewlyStartedMembers(a: Activity, current: Snapshot, i: nat)
    requires i <= |REGISTRY|
    ensures var ns := NewlyStarted(a, current, i);
            && (forall s :: s in ns <==> Rank(s) < i && Starts(a, current, s))
            && (ns != [] ==> forall s :: s in ns ==> Rank(s) <= Rank(ns[|ns| - 1]))
  {
    if i > 0 { NewlyStartedMembers(a, current, i - 1); }
  }

  /** The last fresh start of a snapshot is the one the winner rule would pick. */
  lemma NewestIsLatest(a: Activity, h: seq<Snapshot>, current: Snapshot)
    requires Tracks(a, h) && NewlyStarted(a, current, |REGISTRY|) != []
    ensures var ns := NewlyStarted(a, current, |REGISTRY|); Latest(h + [current], Some(ns[|ns| - 1]))
  {
    var ns := NewlyStarted(a, current, |REGISTRY|);
    NewlyStartedMembers(a, current, |REGISTRY|);
    var s := ns[|ns| - 1];
    assert s in ns;
    forall t | t in current && t != s ensures Later(h + [current], s, t) {
      StartOf(h, current, s);
      StartOf(h, current, t);
      assert Starts(a, current, t) ==> t in ns;
    }
  }

  // Nothing started: whoever was latest and is still active still is.
  lemma LatestSurvives(a: Activity, h: seq<Snapshot>, current: Snapshot, w: Option<Source>)
    requires Tracks(a, h) && NewlyStarted(a, current, |REGISTRY|) == [] && Latest(h, w)
    requires w.Some? ==> w.value in current
    ensures Latest(h + [current], w)
  {
    NewlyStartedMembers(a, current, |REGISTRY|);
    forall t | t in current ensures t in Now(h) { assert Rank(t) < 4; }
    if w.Some? {
      forall t | t in current && t != w.value ensures Later(h + [current], w.value, t) {
        StartOf(h, current, w.value);
        StartOf(h, current, t);
      }
    }
  }

  // ----- the automatic policy -------------------------------------------------------------

  // How an attempted handoff ended: committed, declined by the coordinator or the gate, or cut short
  // by an exception before its commit.
  datatype Outcome = Committed | Declined | Threw

  predicate Plays(winner: Option<Source>, current: Snapshot) { winner.Some? && winner.value in current }

  predicate Retrying(activity: Activity, newly: seq<Source>, winner: Option<Source>, pending: Option<Source>) {
    newly == [] && Plays(pending, activity.playing) && pending != winner
  }

  // `activity` already includes the snapshot this tick acts on.
  function AutoTarget(activity: Activity, newly: seq<Source>, winner: Option<Source>, pending: Option<Source>)
    : Option<Source>
    requires activity.Total()
  {
    if newly != [] then Some(newly[|newly| - 1])
    else if Retrying(activity, newly, winner, pending) then pending
    else if !Plays(winner, activity.playing) then PickWinner(activity)
    else None
  }

  // The winner and the pending retry after the tick; `outcome` matters only if it attempts a handoff.
  // An exception leaves what the tick had chosen so far: a retry stays pending, a fresh start does not
  // become one.
  function AfterAuto(activity: Activity, newly: seq<Source>, winner: Option<Source>, pending: Option<Source>,
                     outcome: Outcome): (Option<Source>, Option<Source>)
    requires activity.Total()
  {
    var target := AutoTarget(activity, newly, winner, pending);
    if target.Some? && target != winner then
      match outcome
      case Committed => (target, None)
      case Declined => (winner, target)
      case Threw => (winner, if Retrying(activity, newly, winner, pending) then pending else None)
    else if target.None? && !Plays(winner, activity.playing) then (None, None)
    else (winner, None)
  }

  datatype Auto = Auto(activity: Activity, winner: Option<Source>, pending: Option<Source>)

  function AutoTick(x: Auto, current: Snapshot, outcome: Outcome): (y: Auto)
    requires x.activity.Total()
    ensures y.activity.Total()
  {
    var newly := NewlyStarted(x.activity, current, |REGISTRY|);
    var a := Record(x.activity, current);
    var (w, p) := AfterAuto(a, newly, x.winner, x.pending, outcome);
    Auto(a, w, p)
  }

  // The automatic state is exactly what latest-start-wins asks for.
  ghost predicate Settled(x: Auto, h: seq<Snapshot>) {
    Tracks(x.activity, h) && x.pending == None && Latest(h, x.winner)
  }

  /** One tick whose handoff succeeds keeps the latest starter on the speaker. */
  lemma TickKeepsSettled(x: Auto, h: seq<Snapshot>, current: Snapshot)
    requires Settled(x, h)
    ensures Settled(AutoTick(x, current, Committed), h + [current])
  {
    var a, newly := Record(x.activity, current), NewlyStarted(x.activity, current, |REGISTRY|);
    RecordTracks(x.activity, h, current);
    PickIsLatest(a, h + [current]);
    if newly != [] {
      NewestIsLatest(x.activity, h, current);
    } else if x.winner.None? || x.winner.value in current {
      LatestSurvives(x.activity, h, current, x.winner);
      LatestIsUnique(h + [current], PickWinner(a), x.winner);
    }
  }

  // ----- handoffs that fail ---------------------------------------------------------------

  // The latest starter is selected, or is the pending retry, or will be picked because the winner has
  // stopped.
  ghost predicate OnCourse(x: Auto, h: seq<Snapshot>) {
    && Tracks(x.activity, h)
    && if Retrying(x.activity, [], x.winner, x.pending) then Latest(h, x.pending)
       else Plays(x.winner, x.activity.playing) ==> Latest(h, x.winner)
  }

  // A snapshot like the one before starts nothing and records nothing.
  lemma SameSnapshot(a: Activity, h: seq<Snapshot>)
    requires Tracks(a, h)
    ensures NewlyStarted(a, a.playing, |REGISTRY|) == [] && Record(a, a.playing) == a
    ensures Tracks(a, h + [a.playing])
  {
    NewlyAll(a, a.playing);
    NothingRecorded(a, a.playing, |REGISTRY|);
    RecordTracks(a, h, a.playing);
  }

  lemma SameLatest(h: seq<Snapshot>, w: Option<Source>)
    ensures Latest(h + [Now(h)], w) <==> Latest(h, w)
  {
    forall s, t | s in Now(h) && t in Now(h) ensures Later(h + [Now(h)], s, t) == Later(h, s, t) {
      StartOf(h, Now(h), s);
      StartOf(h, Now(h), t);
    }
  }

  /** Being on course is just that the next successful tick, if nothing else changes, settles. */
  lemma OnCourseIffNextSettles(x: Auto, h: seq<Snapshot>)
    requires Tracks(x.activity, h)
    ensures OnCourse(x, h) <==> Settled(AutoTick(x, x.activity.playing, Committed), h + [x.activity.playing])
  {
    SameSnapshot(x.activity, h);
    SameLatest(h, x.winner);
    SameLatest(h, x.pending);
    PickIsLatest(x.activity, h + [x.activity.playing]);
    hide NewlyStarted, Record, Tracks, PickWinner, Latest;
    TrackedPlaying(x.activity, h);
  }

  // What one tick leaves, on course or not before.
  ghost predicate StaysOnCourse(x: Auto, h: seq<Snapshot>, current: Snapshot, outcome: Outcome)
    requires x.activity.Total()
  {
    var newly := NewlyStarted(x.activity, current, |REGISTRY|);
    if newly != [] then outcome.Threw? && Plays(x.winner, current) ==> Some(newly[|newly| - 1]) == x.winner
    else if Retrying(Record(x.activity, current), newly, x.winner, x.pending) then Latest(h + [current], x.pending)
    else Plays(x.winner, current) ==> Latest(h + [current], x.winner)
  }

  lemma TickCourse(x: Auto, h: seq<Snapshot>, current: Snapshot, outcome: Outcome)
    requires Tracks(x.activity, h)
    ensures OnCourse(AutoTick(x, current, outcome), h + [current]) <==> StaysOnCourse(x, h, current, outcome)
  {
    var a, newly := Record(x.activity, current), NewlyStarted(x.activity, current, |REGISTRY|);
    RecordTracks(x.activity, h, current);
    PickIsLatest(a, h + [current]);
    NewlyStartedMembers(x.activity, current, |REGISTRY|);
    if newly != [] {
      NewestIsLatest(x.activity, h, current);
      assert newly[|newly| - 1] in newly && newly[|newly| - 1] in current;
      if x.winner != Some(newly[|newly| - 1]) { NotBothLatest(h + [current], x.winner, Some(newly[|newly| - 1])); }
    }
    hide NewlyStarted, RecordUpTo, Tracks, PickWinner, Latest, Starts;
    assert a.playing == current;
  }

  lemma NotBothLatest(h: seq<Snapshot>, v: Option<Source>, w: Option<Source>)
    requires v != w && Latest(h, w)
    ensures !Latest(h, v)
  {
    if Latest(h, v) { LatestIsUnique(h, v, w); }
  }

  // The two ways off course, by the guards of the tick: the handoff to a fresh start throws while the
  // old winner still plays, or nothing is left to retry while a winner that is not the pick plays on.
  predicate Loses(x: Auto, current: Snapshot, outcome: Outcome)
    requires x.activity.Total()
  {
    var a, newly := Record(x.activity, current), NewlyStarted(x.activity, current, |REGISTRY|);
    && Plays(x.winner, current)
    && if newly != [] then outcome.Threw? && Some(newly[|newly| - 1]) != x.winner
       else !Retrying(a, newly, x.winner, x.pending) && PickWinner(a) != x.winner
  }

  /** One tick leaves its course exactly in these two ways. */
  lemma CourseLostIff(x: Auto, h: seq<Snapshot>, current: Snapshot, outcome: Outcome)
    requires OnCourse(x, h)
    ensures OnCourse(AutoTick(x, current, outcome), h + [current]) <==> !Loses(x, current, outcome)
  {
    var a, newly := Record(x.activity, current), NewlyStarted(x.activity, current, |REGISTRY|);
    TickCourse(x, h, current, outcome);
    RecordTracks(x.activity, h, current);
    PickIsLatest(a, h + [current]);
    NewlyStartedMembers(x.activity, current, |REGISTRY|);
    if newly == [] {
      assert forall s :: s in current ==> s in x.activity.playing by { NothingStarts(x.activity, current); }
      if Retrying(a, newly, x.winner, x.pending) {
        LatestSurvives(x.activity, h, current, x.pending);
      } else if Plays(x.winner, current) {
        if PickWinner(a) != x.winner { NotBothLatest(h + [current], x.winner, PickWinner(a)); }
      }
    }
    hide NewlyStarted, RecordUpTo, Tracks, PickWinner, Latest, Starts, AutoTick, OnCourse;
  }

  lemma NothingStarts(a: Activity, current: Snapshot)
    requires NewlyStarted(a, current, |REGISTRY|) == []
    ensures current <= a.playing
  {
    NewlyStartedMembers(a, current, |REGISTRY|);
    forall s | s in current ensures s in a.playing { assert Rank(s) < 4; }
  }

  /** Off course with nothing to retry, no tick on the same snapshot changes anything, however its
      handoff would end. */
  lemma StrandedStays(x: Auto, h: seq<Snapshot>, outcome: Outcome)
    requires Tracks(x.activity, h) && !OnCourse(x, h) && x.pending.None?
    ensures AutoTick(x, x.activity.playing, outcome) == x && !OnCourse(x, h + [x.activity.playing])
  {
    SameSnapshot(x.activity, h);
    SameLatest(h, x.winner);
    hide NewlyStarted, Record, PickWinner, Latest;
    TrackedPlaying(x.activity, h);
  }

  // ----- runs -----------------------------------------------------------------------------

  datatype Tick = Tick(current: Snapshot, outcome: Outcome)

  function Seen(ticks: seq<Tick>): (h: seq<Snapshot>)
    ensures |h| == |ticks|
  {
    if ticks == [] then [] else Seen(ticks[..|ticks| - 1]) + [ticks[|ticks| - 1].current]
  }

  function AutoRun(ticks: seq<Tick>): (y: Auto)
    ensures y.activity.Total()
  {
    if ticks == [] then Auto(Quiet(), None, None)
    else
      var t := ticks[|ticks| - 1];
      AutoTick(AutoRun(ticks[..|ticks| - 1]), t.current, t.outcome)
  }

  /** Over every run of automatic ticks whose handoffs succeed, the winner is the active source whose
      last start is the latest in the observation history, or none if nothing is active. */
  lemma {:induction false} LatestStartWins(ticks: seq<Tick>)
    requires forall i :: 0 <= i < |ticks| ==> ticks[i].outcome.Committed?
    ensures Latest(Seen(ticks), AutoRun(ticks).winner)
    ensures Settled(AutoRun(ticks), Seen(ticks))
  {
    if ticks != [] {
      var before := ticks[..|ticks| - 1];
      LatestStartWins(before);
      TickKeepsSettled(AutoRun(before), Seen(before), ticks[|ticks| - 1].current);
    }
  }

  lemma {:induction false} RunTracks(ticks: seq<Tick>)
    ensures Tracks(AutoRun(ticks).activity, Seen(ticks))
  {
    if ticks != [] {
      var before := ticks[..|ticks| - 1];
      RunTracks(before);
      RecordTracks(AutoRun(before).activity, Seen(before), ticks[|ticks| - 1].current);
    }
  }

  /** A pending retry is kept for as long as its source stays the latest starter, whether the handoff
      is declined or throws, and the first to succeed settles the policy again. */
  lemma RetrySettles(x: Auto, h: seq<Snapshot>, current: Snapshot, outcome: Outcome)
    requires Tracks(x.activity, h) && x.pending.Some? && Latest(h, x.pending) && x.pending != x.winner
    requires NewlyStarted(x.activity, current, |REGISTRY|) == [] && x.pending.value in current
    ensures var y := AutoTick(x, current, outcome);
            if outcome.Committed? then Settled(y, h + [current])
            else y.pending == x.pending && y.winner == x.winner && Latest(h + [current], y.pending)
  {
    RecordTracks(x.activity, h, current);
    LatestSurvives(x.activity, h, current, x.pending);
  }

  /** One thrown handoff to a fresh start is enough: from any settled state whose winner plays on, the
      new source is never selected while the snapshot stays as it is. */
  lemma ThrownHandoffStrandsASource(x: Auto, h: seq<Snapshot>, current: Snapshot, outcome: Outcome)
    requires Settled(x, h) && Plays(x.winner, current)
    requires var newly := NewlyStarted(x.activity, current, |REGISTRY|);
             newly != [] && Some(newly[|newly| - 1]) != x.winner
    ensures var y := AutoTick(x, current, Threw);
            && y.winner == x.winner && !Latest(h + [current], y.winner)
            && AutoTick(y, current, outcome) == y
  {
    var y := AutoTick(x, current, Threw);
    RecordTracks(x.activity, h, current);
    CourseLostIff(x, h, current, Threw);
    StrandedStays(y, h + [current], outcome);
  }

  /** And so are two declined handoffs in a row whose second source then stops: the first plays on as
      the latest starter and is never selected. */
  lemma DeclinedHandoffsStrandASource(outcome: Outcome)
    ensures var x, h := AutoRun(StrandingTicks()), Seen(StrandingTicks());
            && x.winner == Some(Spotify) && !Latest(h, x.winner)
            && AutoTick(x, Now(h), outcome) == x
  {
    var x, h := AutoRun(StrandingTicks()), Seen(StrandingTicks());
    RunTracks(StrandingTicks());
    StrandedState();
    StrandedHistory();
    hide AutoRun, AutoTick, Latest, StrandingTicks;
    TrackedPlaying(x.activity, h);
    StrandedStays(x, h, outcome);
  }

  function StrandingTicks(): seq<Tick> {
    [Tick({Spotify}, Committed), Tick({Spotify, Airplay}, Declined),
     Tick({Spotify, Airplay, Bluetooth}, Declined), Tick({Spotify, Airplay}, Committed)]
  }

  lemma StrandedHistory()
    ensures Seen(StrandingTicks()) == [{Spotify}, {Spotify, Airplay}, {Spotify, Airplay, Bluetooth}, {Spotify, Airplay}]
    ensures !Latest(Seen(StrandingTicks()), Some(Spotify))
  {
    var t, h := StrandingTicks(), [{Spotify}, {Spotify, Airplay}, {Spotify, Airplay, Bluetooth}, {Spotify, Airplay}];
    assert t[..3][..2] == t[..2] && t[..2][..1] == t[..1] && t[..1][..0] == [];
    assert Seen(t[..1]) == h[..1] && Seen(t[..2]) == h[..2] && Seen(t[..3]) == h[..3] && Seen(t) == h;
    StartOf(h[..1], h[1], Spotify);
    StartOf(h[..1], h[1], Airplay);
    StartOf(h[..2], h[2], Spotify);
    StartOf(h[..2], h[2], Airplay);
    StartOf(h[..3], h[3], Spotify);
    StartOf(h[..3], h[3], Airplay);
    assert h[..1] + [h[1]] == h[..2] && h[..2] + [h[2]] == h[..3] && h[..3] + [h[3]] == h;
    StartBelow(h[..1], Spotify);
  }

  lemma StrandedState()
    ensures AutoRun(StrandingTicks()).winner == Some(Spotify) && AutoRun(StrandingTicks()).pending == None
  {
    var t := StrandingTicks();
    assert t[..3][..2] == t[..2] && t[..2][..1] == t[..1] && t[..1][..0] == [];
    var x1, x2, x3 := AutoRun(t[..1]), AutoRun(t[..2]), AutoRun(t[..3]);
    NewlyAll(Quiet(), {Spotify});
    assert x1 == AutoTick(Auto(Quiet(), None, None), {Spotify}, Committed) by { assert AutoRun([]) == Auto(Quiet(), None, None); }
    assert x1.winner == Some(Spotify) && x1.pending == None && x1.activity.playing == {Spotify};
    hide RecordUpTo, NewlyStarted, PickWinner;
    NewlyAll(x1.activity, {Spotify, Airplay});
    assert x2.winner == Some(Spotify) && x2.pending == Some(Airplay);
    NewlyAll(x2.activity, {Spotify, Airplay, Bluetooth});
    assert x3.winner == Some(Spotify) && x3.pending == Some(Bluetooth);
    NewlyAll(x3.activity, {Spotify, Airplay});
  }

  lemma NothingRecorded(a: Activity, current: Snapshot, i: nat)
    requires a.Total() && i <= |REGISTRY| && current <= a.playing
    ensures RecordUpTo(a, current, i) == a
  {
  }

  lemma NewlyAll(a: Activity, current: Snapshot)
    ensures NewlyStarted(a, current, |REGISTRY|)
            == (if Starts(a, current, Spotify) then [Spotify] else [])
             + (if Starts(a, current, Airplay) then [Airplay] else [])
             + (if Starts(a, current, Bluetooth) then [Bluetooth] else [])
             + (if Starts(a, current, Usbsink) then [Usbsink] else [])
  {
    assert NewlyStarted(a, current, 1) == if Starts(a, current, Spotify) then [Spotify] else [];
    assert NewlyStarted(a, current, 3) == NewlyStarted(a, current, 2) + if Starts(a, current, Bluetooth) then [Bluetooth] else [];
  }
}
