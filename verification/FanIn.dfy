/**
  What jasper-mux sees of its environment: the fan-in daemon behind its control socket, and the
  monotonic clock. A command may land although its reply is lost, or not land at all.
 */
module FanIn {
  // The lane fan-in passes.
  datatype Gate = Silent | Lane(name: string)

  class Daemon {
    var gate: Gate
    var usbMuted: bool
    ghost var boots: nat         // how often it has come up
    // Whether gate and lane-mute commands always land and are always answered.
    const gateReliable: bool
    const muteReliable: bool

    // fan-in comes up silent and unmuted (rust/jasper-fanin/src/mixer.rs:694).
    constructor (gateReliable: bool, muteReliable: bool)
      ensures gate == Silent && !usbMuted && boots == 1
      ensures this.gateReliable == gateReliable && this.muteReliable == muteReliable
    {
      gate, usbMuted, boots := Silent, false, 1;
      this.gateReliable, this.muteReliable := gateReliable, muteReliable;
    }

    method Restart()
      modifies this
      ensures gate == Silent && !usbMuted && boots == old(boots) + 1
    {
      gate, usbMuted, boots := Silent, false, boots + 1;
    }

    // SELECT or NONE; an answer proves the command landed, silence proves nothing.
    method SetGate(to: Gate) returns (answered: bool)
      modifies this`gate
      ensures gate == to || (!answered && gate == old(gate))
      ensures gateReliable ==> answered
    {
      var lands: bool := *;
      var replies: bool := *;
      if lands || gateReliable { gate := to; }
      answered := (lands && replies) || gateReliable;
    }

    method MuteUsb(muted: bool) returns (answered: bool)
      modifies this`usbMuted
      ensures usbMuted == muted || (!answered && usbMuted == old(usbMuted))
      ensures muteReliable ==> answered
    {
      var lands: bool := *;
      var replies: bool := *;
      if lands || muteReliable { usbMuted := muted; }
      answered := (lands && replies) || muteReliable;
    }
  }

  /** time.monotonic(). */
  class Clock {
    var now: real

    method Read() returns (t: real)
      modifies this
      ensures t == now >= old(now)
    {
      var step: real := *;
      if step > 0.0 { now := now + step; }
      t := now;
    }

    method Sleep(seconds: real) returns (t: real)
      requires seconds >= 0.0
      modifies this
      ensures t == now >= old(now) + seconds
    {
      now := now + seconds;
      t := Read();
    }
  }
}
