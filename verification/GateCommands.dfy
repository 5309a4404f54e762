/**
  The idle-gate flag at the grain of single command events (jasper/mux.py, _fanin_select_label and
  _fanin_none). Commands given under the transition lock come one at a time; the automatic idle NONE is
  sent outside it and may overlap one of them. fan-in serves one connection at a time, in the order they
  came (rust/jasper-daemon/src/uds.rs:91-165), also those whose sender has given up.
 */
module GateCommands {
  import opened FanIn

  // A command at the daemon's socket.
  datatype Command = Command(id: nat, to: Gate)

  // One sender: nothing out, waiting for a command not yet served, or for the answer of a served one.
  datatype Sender = Free | Waiting(id: nat) | Served

  datatype State = State(
    gate: Gate, noneAsserted: bool,
    queue: seq<Command>, nextId: nat,
    idle: Sender,                  // the tick's NONE
    locked: Sender, to: Gate)      // the locked command, a SELECT or a NONE

  datatype Step =
    | IdleBegins
    | LockedBegins(gate: Gate)     // a SELECT clears the flag before it goes out
    | Serve                        // the daemon carries out its oldest command
    | Drop                         // or loses it
    | IdleAnswered                 // a NONE sets the flag only now
    | LockedAnswered
    | IdleGivesUp                  // no answer; the command may still be served later
    | LockedGivesUp

  predicate Enabled(s: State, step: Step) {
    match step
    case IdleBegins => s.idle.Free? && !s.noneAsserted
    case LockedBegins(_) => s.locked.Free?
    case Serve => s.queue != []
    case Drop => s.queue != []
    case IdleAnswered => s.idle.Served?
    case LockedAnswered => s.locked.Served?
    case IdleGivesUp => !s.idle.Free?
    case LockedGivesUp => !s.locked.Free?
  }

  function Notice(sender: Sender, id: nat): Sender { if sender == Waiting(id) then Served else sender }

  function Apply(s: State, step: Step): State
    requires Enabled(s, step)
  {
    match step
    case IdleBegins =>
      s.(queue := s.queue + [Command(s.nextId, Silent)], idle := Waiting(s.nextId), nextId := s.nextId + 1)
    case LockedBegins(gate) =>
      s.(queue := s.queue + [Command(s.nextId, gate)], locked := Waiting(s.nextId), nextId := s.nextId + 1,
         to := gate, noneAsserted := s.noneAsserted && gate == Silent)
    case Serve =>
      var c := s.queue[0];
      s.(queue := s.queue[1..], gate := c.to, idle := Notice(s.idle, c.id), locked := Notice(s.locked, c.id))
    case Drop => s.(queue := s.queue[1..])
    case IdleAnswered => s.(idle := Free, noneAsserted := true)
    case LockedAnswered => s.(locked := Free, noneAsserted := s.noneAsserted || s.to == Silent)
    case IdleGivesUp => s.(idle := Free)
    case LockedGivesUp => s.(locked := Free)
  }

  // ----- one command on its own -----------------------------------------------------------

  predicate Quiet(s: State) { s.queue == [] && s.idle.Free? && s.locked.Free? }

  // Begun, then served or lost, then answered or given up.
  function Alone(s: State, begins: Step, lands: Step, ends: Step): State
    requires Enabled(s, begins) && Enabled(Apply(s, begins), lands) && Enabled(Apply(Apply(s, begins), lands), ends)
  {
    Apply(Apply(Apply(s, begins), lands), ends)
  }

  /** Alone, a command does to gate and flag what the mux sees of it: answered, it has landed, and the flag
      says whether it was a NONE; unanswered, it may have landed or not, and a SELECT has cleared the flag. */
  lemma LoneCommand(s: State, to: Gate)
    requires Quiet(s)
    ensures var e := Alone(s, LockedBegins(to), Serve, LockedAnswered);
            Quiet(e) && e.gate == to && (e.noneAsserted <==> to == Silent)
    ensures var e := Alone(s, LockedBegins(to), Serve, LockedGivesUp);
            Quiet(e) && e.gate == to && (e.noneAsserted <==> s.noneAsserted && to == Silent)
    ensures var e := Alone(s, LockedBegins(to), Drop, LockedGivesUp);
            Quiet(e) && e.gate == s.gate && (e.noneAsserted <==> s.noneAsserted && to == Silent)
    ensures Enabled(s, IdleBegins) <==> !s.noneAsserted
    ensures !s.noneAsserted ==>
              var e := Alone(s, IdleBegins, Serve, IdleAnswered); Quiet(e) && e.gate == Silent && e.noneAsserted
    ensures !s.noneAsserted ==>
              var e := Alone(s, IdleBegins, Serve, IdleGivesUp); Quiet(e) && e.gate == Silent && !e.noneAsserted
    ensures !s.noneAsserted ==>
              var e := Alone(s, IdleBegins, Drop, IdleGivesUp); Quiet(e) && e.gate == s.gate && !e.noneAsserted
  {
    assert s.queue + [Command(s.nextId, to)] == [Command(s.nextId, to)];
    assert s.queue + [Command(s.nextId, Silent)] == [Command(s.nextId, Silent)];
  }

  // ----- when the belief is wrong ---------------------------------------------------------

  // The gate is believed idle while a lane is open.
  predicate Wrong(s: State) { s.noneAsserted && s.gate != Silent }

  // ----- what the commands already given can do -------------------------------------------

  predicate Fresh(queue: seq<Command>, id: nat) { forall i :: 0 <= i < |queue| ==> queue[i].id < id }

  // Command numbers grow, and what a sender waits for is its own command.
  predicate Numbered(s: State) {
    && Fresh(s.queue, s.nextId)
    && (s.idle.Waiting? ==> s.idle.id < s.nextId) && (s.locked.Waiting? ==> s.locked.id < s.nextId)
    && forall i :: 0 <= i < |s.queue| ==> Owned(s, s.queue[i])
  }

  predicate Owned(s: State, c: Command) {
    && (s.idle == Waiting(c.id) ==> c.to == Silent)
    && (s.locked == Waiting(c.id) ==> c.to == s.to)
  }

  lemma StepKeepsNumbered(s: State, step: Step)
    requires Numbered(s) && Enabled(s, step)
    ensures Numbered(Apply(s, step))
  {
    var e := Apply(s, step);
    forall i | 0 <= i < |e.queue| ensures Owned(e, e.queue[i]) {
      if step.Serve? || step.Drop? {
        assert e.queue[i] == s.queue[i + 1];
      } else {
        assert i < |s.queue| ==> Owned(s, s.queue[i]) && s.queue[i].id < s.nextId;
      }
    }
  }

  // Everything but a new command.
  predicate InFlight(step: Step) { !step.IdleBegins? && !step.LockedBegins? }

  predicate AllInFlight(steps: seq<Step>) { forall i :: 0 <= i < |steps| ==> InFlight(steps[i]) }

  function Run(s: State, steps: seq<Step>): State {
    if steps == [] then s else
    var before := Run(s, steps[..|steps| - 1]);
    if Enabled(before, steps[|steps| - 1]) then Apply(before, steps[|steps| - 1]) else before
  }

  // A lane is still to be opened.
  predicate LaneComing(queue: seq<Command>) { queue != [] && (queue[0].to != Silent || LaneComing(queue[1..])) }

  // And that after command `id` has been served.
  predicate LaneAfter(queue: seq<Command>, id: nat) {
    queue != [] && if queue[0].id == id then LaneComing(queue[1..]) else LaneAfter(queue[1..], id)
  }

  // The answer this sender of a NONE waits for would set the flag over an open lane.
  predicate Misleading(sender: Sender, gate: Gate, queue: seq<Command>) {
    match sender
    case Free => false
    case Waiting(id) => LaneAfter(queue, id)
    case Served => gate != Silent || LaneComing(queue)
  }

  predicate Risky(s: State) {
    || (s.noneAsserted && (s.gate != Silent || LaneComing(s.queue)))
    || Misleading(s.idle, s.gate, s.queue)
    || (s.to == Silent && Misleading(s.locked, s.gate, s.queue))
  }

  lemma AfterMeansComing(queue: seq<Command>, id: nat)
    ensures LaneAfter(queue, id) ==> LaneComing(queue)
  {
    if queue != [] { AfterMeansComing(queue[1..], id); }
  }

  lemma InFlightStaysCalm(s: State, step: Step)
    requires Numbered(s) && !Risky(s) && Enabled(s, step) && InFlight(step)
    ensures !Risky(Apply(s, step))
  {
    if step.Serve? { assert Owned(s, s.queue[0]); }
    if step.Drop? {
      if s.idle.Waiting? { AfterMeansComing(s.queue[1..], s.idle.id); }
      if s.locked.Waiting? { AfterMeansComing(s.queue[1..], s.locked.id); }
    }
  }

  lemma {:induction false} CalmStaysRight(s: State, steps: seq<Step>)
    requires Numbered(s) && !Risky(s) && AllInFlight(steps)
    ensures !Risky(Run(s, steps)) && !Wrong(Run(s, steps))
  {
    if steps != [] {
      var prefix, step := steps[..|steps| - 1], steps[|steps| - 1];
      CalmStaysRight(s, prefix);
      RunKeepsNumbered(s, prefix);
      if Enabled(Run(s, prefix), step) { InFlightStaysCalm(Run(s, prefix), step); }
    }
  }

  ghost predicate CanGoWrong(s: State) { exists steps :: AllInFlight(steps) && Wrong(Run(s, steps)) }

  lemma {:induction false} RunFront(s: State, step: Step, steps: seq<Step>)
    requires Enabled(s, step)
    ensures Run(s, [step] + steps) == Run(Apply(s, step), steps)
  {
    var all := [step] + steps;
    if steps == [] {
      assert all[..0] == [] && Run(s, []) == s;
    } else {
      assert all[..|all| - 1] == [step] + steps[..|steps| - 1];
      RunFront(s, step, steps[..|steps| - 1]);
    }
  }

  lemma StepThenWrong(s: State, step: Step)
    requires Enabled(s, step) && InFlight(step) && CanGoWrong(Apply(s, step))
    ensures CanGoWrong(s)
  {
    var steps :| AllInFlight(steps) && Wrong(Run(Apply(s, step), steps));
    RunFront(s, step, steps);
    assert AllInFlight([step] + steps);
  }

  // Serve until the lane that is coming, or that comes after the awaited NONE, is open; then let the
  // NONE be answered.
  lemma {:induction false} RiskIsReal(s: State)
    requires Risky(s)
    ensures CanGoWrong(s)
    decreases |s.queue|, !s.noneAsserted
  {
    if Wrong(s) {
      assert AllInFlight([]) && Wrong(Run(s, []));
    } else if !s.noneAsserted && s.idle.Served? && (s.gate != Silent || LaneComing(s.queue)) {
      RiskIsReal(Apply(s, IdleAnswered));
      StepThenWrong(s, IdleAnswered);
    } else if !s.noneAsserted && s.to == Silent && s.locked.Served? && (s.gate != Silent || LaneComing(s.queue)) {
      RiskIsReal(Apply(s, LockedAnswered));
      StepThenWrong(s, LockedAnswered);
    } else {
      RiskIsReal(Apply(s, Serve));
      StepThenWrong(s, Serve);
    }
  }

  /** From any state whatever, the commands already given can lead to a wrong belief if and only if the
      state is risky: the flag is set, or an awaited answer will set it, and a lane is open then or comes
      later. */
  lemma WrongIffRisky(s: State)
    requires Numbered(s)
    ensures Risky(s) <==> CanGoWrong(s)
  {
    if Risky(s) { RiskIsReal(s); }
    if CanGoWrong(s) {
      var steps :| AllInFlight(steps) && Wrong(Run(s, steps));
      if !Risky(s) { CalmStaysRight(s, steps); }
    }
  }

  // ----- which commands bring the risk ----------------------------------------------------

  predicate Queued(queue: seq<Command>, id: nat) { queue != [] && (queue[0].id == id || Queued(queue[1..], id)) }

  // The idle NONE may still be answered.
  predicate IdlePending(s: State) { s.idle.Served? || (s.idle.Waiting? && Queued(s.queue, s.idle.id)) }

  lemma OneMoreCommand(queue: seq<Command>, c: Command, id: nat)
    requires Fresh(queue, c.id)
    ensures LaneComing(queue + [c]) <==> LaneComing(queue) || c.to != Silent
    ensures id != c.id ==> (LaneAfter(queue + [c], id) <==> LaneAfter(queue, id) || (Queued(queue, id) && c.to != Silent))
    ensures !LaneAfter(queue + [c], c.id)
  {
    if queue == [] {
      assert queue + [c] == [c] && [c][1..] == [];
    } else {
      assert queue[0].id < c.id;
      assert (queue + [c])[1..] == queue[1..] + [c];
      OneMoreCommand(queue[1..], c, id);
    }
  }

  // A SELECT begun while an idle NONE may still be answered.
  predicate Overtakes(s: State, step: Step) { step.LockedBegins? && step.gate != Silent && IdlePending(s) }

  /** Of all steps exactly this one makes a calm state risky: not an idle NONE behind a SELECT, not two
      NONEs at once, not the late landing of a command its sender gave up. */
  lemma RiskComesFromOvertaking(s: State, step: Step)
    requires Numbered(s) && !Risky(s) && Enabled(s, step)
    ensures Risky(Apply(s, step)) <==> Overtakes(s, step)
  {
    if InFlight(step) {
      InFlightStaysCalm(s, step);
    } else {
      var c := Command(s.nextId, if step.IdleBegins? then Silent else step.gate);
      OneMoreCommand(s.queue, c, if s.idle.Waiting? then s.idle.id else c.id);
      OneMoreCommand(s.queue, c, if s.locked.Waiting? then s.locked.id else c.id);
      hide LaneComing, LaneAfter, Queued;
    }
  }

  ghost predicate CalmThroughout(s: State, steps: seq<Step>) {
    !Risky(Run(s, steps)) && (steps == [] || CalmThroughout(s, steps[..|steps| - 1]))
  }

  predicate NeverOvertakes(s: State, steps: seq<Step>) {
    steps == [] || (NeverOvertakes(s, steps[..|steps| - 1])
                    && var before := Run(s, steps[..|steps| - 1]);
                       Enabled(before, steps[|steps| - 1]) ==> !Overtakes(before, steps[|steps| - 1]))
  }

  lemma {:induction false} RunKeepsNumbered(s: State, steps: seq<Step>)
    requires Numbered(s)
    ensures Numbered(Run(s, steps))
  {
    if steps != [] {
      var prefix, step := steps[..|steps| - 1], steps[|steps| - 1];
      RunKeepsNumbered(s, prefix);
      if Enabled(Run(s, prefix), step) { StepKeepsNumbered(Run(s, prefix), step); }
    }
  }

  /** A run from a calm state stays safe from a wrong belief, at every point and whatever is lost or
      late, if and only if no SELECT of it begins while an idle NONE may still be answered. */
  lemma {:induction false} IdleBeliefIsRightIff(s: State, steps: seq<Step>)
    requires Numbered(s) && !Risky(s)
    ensures CalmThroughout(s, steps) <==> NeverOvertakes(s, steps)
  {
    if steps != [] {
      var prefix, step := steps[..|steps| - 1], steps[|steps| - 1];
      IdleBeliefIsRightIff(s, prefix);
      RunKeepsNumbered(s, prefix);
      if CalmThroughout(s, prefix) && Enabled(Run(s, prefix), step) {
        CalmNow(s, prefix);
        RiskComesFromOvertaking(Run(s, prefix), step);
      }
    }
  }

  lemma CalmNow(s: State, steps: seq<Step>)
    requires CalmThroughout(s, steps)
    ensures !Risky(Run(s, steps))
  {
  }

  // No command begins while another is out.
  predicate OverlapFree(s: State, steps: seq<Step>) {
    steps == [] || (&& OverlapFree(s, steps[..|steps| - 1])
                    && var before := Run(s, steps[..|steps| - 1]);
                       !InFlight(steps[|steps| - 1]) ==> before.idle.Free? && before.locked.Free?)
  }

  lemma {:induction false} OverlapFreeNeverOvertakes(s: State, steps: seq<Step>)
    requires OverlapFree(s, steps)
    ensures NeverOvertakes(s, steps)
  {
    if steps != [] { OverlapFreeNeverOvertakes(s, steps[..|steps| - 1]); }
  }

  /** While gate commands do not overlap, an idle gate is never believed wrongly, whatever is lost or
      late. */
  lemma IdleBeliefIsRight(s: State, steps: seq<Step>)
    requires Numbered(s) && !Risky(s) && OverlapFree(s, steps)
    ensures Run(s, steps).noneAsserted ==> Run(s, steps).gate == Silent
  {
    OverlapFreeNeverOvertakes(s, steps);
    IdleBeliefIsRightIff(s, steps);
    CalmNow(s, steps);
  }

  /** A SELECT that overtakes so leaves a state from which the two commands alone can end with a lane
      open that the mux believes silent. */
  lemma OverlapMisleads(s: State, step: Step)
    requires Numbered(s) && !Risky(s) && Enabled(s, step) && Overtakes(s, step)
    ensures CanGoWrong(Apply(s, step))
  {
    RiskComesFromOvertaking(s, step);
    StepKeepsNumbered(s, step);
    WrongIffRisky(Apply(s, step));
  }
}
