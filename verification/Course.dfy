/**
  Latest-start-wins over everything the mux does to its selection (jasper/mux.py): ticks that the
  policy decides, that a pin or a test claim holds, control verbs that succeed, are declined or throw,
  and restarts. Each is a move; exactly some moves lose the course.
 */
module Course {
  import opened Options
  import opened Arbitration

  // The policy state and the manual pin.
  datatype Arbiter = Arbiter(auto: Auto, pin: Option<Source>)

  datatype Move =
    | Ticked(current: Snapshot, outcome: Outcome)     // a tick that no test claim holds
    | Watched(current: Snapshot)                      // a tick that one does; a return to auto that threw
    | Dropped                                         // a manual selection that threw
    | DroppedWatched(current: Snapshot)               // a manual selection that was declined
    | Pins(source: Source, current: Snapshot)         // one that succeeded
    | Declines(current: Snapshot)                     // a return to auto that was declined
    | Unpins(current: Snapshot)                       // one that succeeded
    | Idles                                           // test verbs, refused verbs, restarts of fan-in
    | Reborn(restored: Option<Source>)                // a restart of the mux

  function Next(s: Arbiter, move: Move): (e: Arbiter)
    requires s.auto.activity.Total()
    ensures e.auto.activity.Total()
  {
    var x := s.auto;
    match move
    case Ticked(current, outcome) =>
      if s.pin.Some? then s.(auto := Auto(Record(x.activity, current), s.pin, None))
      else s.(auto := AutoTick(x, current, outcome))
    case Watched(current) => s.(auto := x.(activity := Record(x.activity, current)))
    case Dropped => s.(auto := x.(pending := None))
    case DroppedWatched(current) => s.(auto := Auto(Record(x.activity, current), x.winner, None))
    case Pins(source, current) => Arbiter(Auto(Record(x.activity, current), Some(source), None), Some(source))
    case Declines(current) =>
      var a := Record(x.activity, current);
      s.(auto := Auto(a, x.winner, PickWinner(a)))
    case Unpins(current) =>
      var a := Record(x.activity, current);
      Arbiter(Auto(a, PickWinner(a), None), None)
    case Idles => s
    case Reborn(restored) => Arbiter(Auto(Quiet(), None, None), restored)
  }

  // The observation history after a move; a restarted mux starts its own.
  function Recorded(h: seq<Snapshot>, move: Move): seq<Snapshot> {
    match move
    case Dropped => h
    case Idles => h
    case Reborn(_) => []
    case _ => h + [move.current]
  }

  // While nothing is pinned the mux is on course; a pin suspends the policy.
  ghost predicate Right(s: Arbiter, h: seq<Snapshot>) {
    Tracks(s.auto.activity, h) && (s.pin.None? ==> OnCourse(s.auto, h))
  }

  // What the next tick would turn to or stay with: the pending retry, else the winner.
  function Waiting(x: Auto, current: Snapshot): Option<Source> {
    if Plays(x.pending, current) && x.pending != x.winner then x.pending else x.winner
  }

  // How a move off the policy's own ticks loses the course: it records a start while something else
  // waits or plays, records the end of the retry while a winner that is not the pick plays, or forgets
  // the retry while the winner plays.
  predicate Strays(x: Auto, move: Move)
    requires x.activity.Total()
  {
    match move
    case Ticked(current, outcome) => Loses(x, current, outcome)
    case Watched(current) =>
      var newly := NewlyStarted(x.activity, current, |REGISTRY|);
      if newly != [] then Plays(Waiting(x, current), current) && Waiting(x, current) != Some(newly[|newly| - 1])
      else Waiting(x, current) == x.winner && Plays(x.winner, current) && PickWinner(Record(x.activity, current)) != x.winner
    case Dropped => Plays(x.winner, x.activity.playing) && Plays(x.pending, x.activity.playing) && x.pending != x.winner
    case DroppedWatched(current) =>
      var newly := NewlyStarted(x.activity, current, |REGISTRY|);
      && Plays(x.winner, current)
      && if newly != [] then x.winner != Some(newly[|newly| - 1]) else PickWinner(Record(x.activity, current)) != x.winner
    case _ => false
  }

  lemma LatestIsPick(a: Activity, h: seq<Snapshot>, w: Option<Source>)
    requires Tracks(a, h)
    ensures Latest(h, w) <==> w == PickWinner(a)
  {
    PickIsLatest(a, h);
    if w != PickWinner(a) { NotBothLatest(h, w, PickWinner(a)); }
  }

  // On course: whatever waits or plays is the pick.
  lemma OnCourseByPick(x: Auto, h: seq<Snapshot>)
    requires Tracks(x.activity, h)
    ensures var w := Waiting(x, x.activity.playing);
            OnCourse(x, h) <==> (Plays(w, x.activity.playing) ==> w == PickWinner(x.activity))
  {
    LatestIsPick(x.activity, h, x.winner);
    LatestIsPick(x.activity, h, x.pending);
    hide Latest, Tracks, PickWinner;
    TrackedPlaying(x.activity, h);
  }

  // After a recording the pick is the newest start; with no start, whatever was the pick and still
  // plays still is.
  lemma PickAfter(a: Activity, h: seq<Snapshot>, current: Snapshot)
    requires Tracks(a, h)
    ensures var r, newly := Record(a, current), NewlyStarted(a, current, |REGISTRY|);
            && Tracks(r, h + [current]) && r.playing == current
            && (newly != [] ==> PickWinner(r) == Some(newly[|newly| - 1]))
            && (newly == [] ==> current <= a.playing
                                && (Plays(PickWinner(a), current) ==> PickWinner(r) == PickWinner(a)))
  {
    var r, newly := Record(a, current), NewlyStarted(a, current, |REGISTRY|);
    RecordTracks(a, h, current);
    if newly != [] {
      NewestIsLatest(a, h, current);
      LatestIsPick(r, h + [current], Some(newly[|newly| - 1]));
    } else {
      NothingStarts(a, current);
      if Plays(PickWinner(a), current) {
        PickIsLatest(a, h);
        LatestSurvives(a, h, current, PickWinner(a));
        LatestIsPick(r, h + [current], PickWinner(a));
      }
    }
  }

  lemma WatchedCourse(x: Auto, h: seq<Snapshot>, current: Snapshot)
    requires OnCourse(x, h)
    ensures OnCourse(x.(activity := Record(x.activity, current)), h + [current]) <==> !Strays(x, Watched(current))
  {
    PickAfter(x.activity, h, current);
    OnCourseByPick(x, h);
    OnCourseByPick(x.(activity := Record(x.activity, current)), h + [current]);
    hide PickWinner, Record, NewlyStarted, OnCourse, Tracks;
  }

  lemma DroppedCourse(x: Auto, h: seq<Snapshot>)
    requires OnCourse(x, h)
    ensures OnCourse(x.(pending := None), h) <==> !Strays(x, Dropped)
  {
    OnCourseByPick(x, h);
    OnCourseByPick(x.(pending := None), h);
    hide PickWinner, OnCourse, Tracks;
  }

  lemma DroppedWatchedCourse(x: Auto, h: seq<Snapshot>, current: Snapshot)
    requires OnCourse(x, h)
    ensures OnCourse(Auto(Record(x.activity, current), x.winner, None), h + [current]) <==> !Strays(x, DroppedWatched(current))
  {
    PickAfter(x.activity, h, current);
    OnCourseByPick(Auto(Record(x.activity, current), x.winner, None), h + [current]);
    hide PickWinner, Record, NewlyStarted, OnCourse, Tracks;
  }

  // A verb that leaves the pick selected or pending is on course.
  lemma PickIsOnCourse(a: Activity, h: seq<Snapshot>, winner: Option<Source>)
    requires Tracks(a, h)
    ensures OnCourse(Auto(a, winner, PickWinner(a)), h) && OnCourse(Auto(a, PickWinner(a), None), h)
  {
    OnCourseByPick(Auto(a, winner, PickWinner(a)), h);
    OnCourseByPick(Auto(a, PickWinner(a), None), h);
    PickPlays(a, h);
    hide PickWinner, OnCourse, Tracks;
  }

  lemma PickPlays(a: Activity, h: seq<Snapshot>)
    requires Tracks(a, h)
    ensures if a.playing == {} then PickWinner(a) == None else Plays(PickWinner(a), a.playing)
  {
    PickIsLatest(a, h);
  }

  lemma MoveTracks(s: Arbiter, h: seq<Snapshot>, move: Move)
    requires Tracks(s.auto.activity, h)
    ensures Tracks(Next(s, move).auto.activity, Recorded(h, move))
  {
    if !move.Dropped? && !move.Idles? && !move.Reborn? { RecordTracks(s.auto.activity, h, move.current); }
  }

  /** Of all moves, exactly those that stray lose the course. A pin suspends the question, and what ends
      a pin is on course again. */
  lemma CourseLostIff(s: Arbiter, h: seq<Snapshot>, move: Move)
    requires Right(s, h)
    ensures Right(Next(s, move), Recorded(h, move)) <==> !(s.pin.None? && Strays(s.auto, move))
  {
    MoveTracks(s, h, move);
    match move
    case Ticked(current, outcome) => if s.pin.None? { Arbitration.CourseLostIff(s.auto, h, current, outcome); }
    case Watched(current) => if s.pin.None? { WatchedCourse(s.auto, h, current); }
    case Dropped => if s.pin.None? { DroppedCourse(s.auto, h); }
    case DroppedWatched(current) => if s.pin.None? { DroppedWatchedCourse(s.auto, h, current); }
    case Declines(current) => PickIsOnCourse(Record(s.auto.activity, current), h + [current], s.auto.winner);
    case Unpins(current) => PickIsOnCourse(Record(s.auto.activity, current), h + [current], s.auto.winner);
    case Pins(_, _) =>
    case Idles =>
    case Reborn(_) =>
  }

  // ----- runs -----------------------------------------------------------------------------

  function After(s: Arbiter, moves: seq<Move>): (e: Arbiter)
    requires s.auto.activity.Total()
    ensures e.auto.activity.Total()
  {
    if moves == [] then s else Next(After(s, moves[..|moves| - 1]), moves[|moves| - 1])
  }

  function Log(h: seq<Snapshot>, moves: seq<Move>): seq<Snapshot> {
    if moves == [] then h else Recorded(Log(h, moves[..|moves| - 1]), moves[|moves| - 1])
  }

  lemma OneMore(s: Arbiter, h: seq<Snapshot>, moves: seq<Move>, move: Move)
    requires s.auto.activity.Total()
    ensures After(s, moves + [move]) == Next(After(s, moves), move)
    ensures Log(h, moves + [move]) == Recorded(Log(h, moves), move)
  {
    assert (moves + [move])[..|moves|] == moves;
  }

  lemma IdlesChangesNothing(s: Arbiter)
    requires s.auto.activity.Total()
    ensures Next(s, Idles) == s
  {
  }

  // Right at every point of the run.
  ghost predicate RightThroughout(s: Arbiter, h: seq<Snapshot>, moves: seq<Move>)
    requires s.auto.activity.Total()
  {
    Right(After(s, moves), Log(h, moves)) && (moves == [] || RightThroughout(s, h, moves[..|moves| - 1]))
  }

  predicate NeverStrays(s: Arbiter, moves: seq<Move>)
    requires s.auto.activity.Total()
  {
    moves == [] || (&& NeverStrays(s, moves[..|moves| - 1])
                    && var before := After(s, moves[..|moves| - 1]);
                       !(before.pin.None? && Strays(before.auto, moves[|moves| - 1])))
  }

  /** Over every run of moves, latest-start-wins stays on course throughout if and only if no move made
      while nothing was pinned strays. */
  lemma {:induction false} RunStaysOnCourseIff(s: Arbiter, h: seq<Snapshot>, moves: seq<Move>)
    requires Right(s, h)
    ensures RightThroughout(s, h, moves) <==> NeverStrays(s, moves)
  {
    if moves != [] {
      var prefix, last := moves[..|moves| - 1], moves[|moves| - 1];
      RunStaysOnCourseIff(s, h, prefix);
      if RightThroughout(s, h, prefix) {
        RightNow(s, h, prefix);
        CourseLostIff(After(s, prefix), Log(h, prefix), last);
      }
    }
  }

  lemma RightNow(s: Arbiter, h: seq<Snapshot>, moves: seq<Move>)
    requires s.auto.activity.Total() && RightThroughout(s, h, moves)
    ensures Right(After(s, moves), Log(h, moves))
  {
  }

  /** No command need fail: a start recorded by a tick that a test claim holds, or by a manual selection
      that was declined, is lost while the old winner plays on, and no later automatic tick on that
      snapshot selects it. */
  lemma RecordedStartStrandsASource(x: Auto, h: seq<Snapshot>, current: Snapshot, outcome: Outcome)
    requires Settled(x, h) && Plays(x.winner, current)
    requires var newly := NewlyStarted(x.activity, current, |REGISTRY|);
             newly != [] && Some(newly[|newly| - 1]) != x.winner
    ensures var held := Next(Arbiter(x, None), Watched(current));
            && held == Next(Arbiter(x, None), DroppedWatched(current))
            && held.auto.winner == x.winner && !Latest(h + [current], x.winner)
            && Next(held, Ticked(current, outcome)) == held
  {
    var y := x.(activity := Record(x.activity, current));
    PickAfter(x.activity, h, current);
    SettledIsOnCourse(x, h);
    WatchedCourse(x, h, current);
    LatestIsPick(y.activity, h + [current], x.winner);
    StrandedStays(y, h + [current], outcome);
    hide PickWinner, Record, NewlyStarted, Tracks, Latest, AutoTick;
  }

  lemma SettledIsOnCourse(x: Auto, h: seq<Snapshot>)
    requires Settled(x, h)
    ensures OnCourse(x, h)
  {
  }
}
