/**
  The alert and patrol loop of the arbiter (jasper/mux.py, Mux.run and notify_source_changed).
  Producers only mark a source dirty and set the wake event; they may do so at every point where the
  loop awaits. One `Pass` is one turn of the loop.
 */
module MuxLoop {
  import opened Arbitration
  import opened FanIn

  const POLL_INTERVAL_SEC: real := 1.0
  const ALERT_COALESCE_SEC: real := 0.05

  datatype Trigger = Startup | Alert | Patrol | AlertAndPatrol

  // One call of the reconcile: what it was told, and the stretch of the notifications its dirty set
  // was taken from.
  datatype Handover = Handover(trigger: Trigger, dirty: set<Source>, from: nat, upTo: nat) {
    predicate Alerting() { trigger.Alert? || trigger.AlertAndPatrol? }

    predicate Patrolling() { trigger.Patrol? || trigger.AlertAndPatrol? }
  }

  function Names(notes: seq<Source>): set<Source> { set s | s in notes }

  lemma NoNames(notes: seq<Source>)
    ensures Names(notes) == {} <==> notes == []
  {
    if notes != [] { assert notes[0] in Names(notes); }
  }

  // Notifications handed over by the first i reconciles.
  function Taken(handed: seq<Handover>, i: nat): nat
    requires i <= |handed|
  {
    if i == 0 then 0 else handed[i - 1].upTo
  }

  // One reconcile got exactly the sources notified since the one before it.
  predicate Explained(notes: seq<Source>, handed: seq<Handover>, i: nat)
    requires i < |handed|
  {
    var h := handed[i];
    && h.from == Taken(handed, i) <= h.upTo <= |notes|
    && h.dirty == Names(notes[h.from..h.upTo])
    && (h.dirty != {} <==> h.Alerting())
  }

  predicate Accounted(notes: seq<Source>, handed: seq<Handover>) {
    forall i :: 0 <= i < |handed| ==> Explained(notes, handed, i)
  }

  lemma AccountedGrows(notes: seq<Source>, source: Source, handed: seq<Handover>)
    requires Accounted(notes, handed)
    ensures Accounted(notes + [source], handed)
  {
    forall i | 0 <= i < |handed| ensures Explained(notes + [source], handed, i) {
      assert Explained(notes, handed, i);
      var h := handed[i];
      assert (notes + [source])[h.from..h.upTo] == notes[h.from..h.upTo];
    }
  }

  lemma AccountedAppend(notes: seq<Source>, handed: seq<Handover>, h: Handover)
    requires Accounted(notes, handed) && h.from == Taken(handed, |handed|) <= h.upTo <= |notes|
    requires h.dirty == Names(notes[h.from..h.upTo]) && (h.dirty != {} <==> h.Alerting())
    ensures Accounted(notes, handed + [h])
  {
    forall i | 0 <= i < |handed| ensures Explained(notes, handed + [h], i) {
      assert Explained(notes, handed, i);
    }
  }

  lemma {:induction false} TakenGrows(notes: seq<Source>, handed: seq<Handover>, i: nat, j: nat)
    requires Accounted(notes, handed) && i <= j <= |handed|
    ensures Taken(handed, i) <= Taken(handed, j)
  {
    if i < j {
      TakenGrows(notes, handed, i, j - 1);
      assert Explained(notes, handed, j - 1);
    }
  }

  // The reconcile whose snapshot took notification k.
  predicate Takes(handed: seq<Handover>, i: int, k: nat) {
    0 <= i < |handed| && handed[i].from <= k < handed[i].upTo
  }

  /** No alert is lost and none is answered twice: each notification received before the last snapshot
      was taken by exactly one reconcile, which was told its source and knew it answered an alert. */
  lemma {:induction false} EveryAlertIsReconciled(notes: seq<Source>, handed: seq<Handover>, n: nat, k: nat)
    requires Accounted(notes, handed) && n <= |handed| && k < Taken(handed, n)
    ensures exists i :: Takes(handed, i, k) && k < |notes| && notes[k] in handed[i].dirty && handed[i].Alerting()
    ensures forall i, j :: Takes(handed, i, k) && Takes(handed, j, k) ==> i == j
  {
    forall i, j | Takes(handed, i, k) && Takes(handed, j, k) ensures i == j {
      OneTaker(notes, handed, i, j, k);
      OneTaker(notes, handed, j, i, k);
    }
    assert Explained(notes, handed, n - 1);
    if k < Taken(handed, n - 1) {
      EveryAlertIsReconciled(notes, handed, n - 1, k);
    } else {
      var h := handed[n - 1];
      assert Takes(handed, n - 1, k);
      assert notes[k] == notes[h.from..h.upTo][k - h.from];
      assert notes[k] in h.dirty;
    }
  }

  lemma OneTaker(notes: seq<Source>, handed: seq<Handover>, i: int, j: int, k: nat)
    requires Accounted(notes, handed) && Takes(handed, i, k) && Takes(handed, j, k)
    ensures i <= j
  {
    if j < i {
      assert Explained(notes, handed, i) && Explained(notes, handed, j);
      TakenGrows(notes, handed, j + 1, i);
    }
  }

  /** And none is invented: a source named to a reconcile was notified since the one before. */
  lemma NothingIsInvented(notes: seq<Source>, handed: seq<Handover>, i: nat, s: Source)
    requires Accounted(notes, handed) && i < |handed| && s in handed[i].dirty
    ensures exists k: nat :: Takes(handed, i, k) && k < |notes| && notes[k] == s
  {
    assert Explained(notes, handed, i);
    var h := handed[i];
    var m :| 0 <= m < h.upTo - h.from && notes[h.from..h.upTo][m] == s;
    assert Takes(handed, i, h.from + m) && notes[h.from + m] == s;
  }

  class Loop {
    const clock: Clock
    const origin: real     // when the loop started

    var wake: bool
    var dirty: set<Source>
    var nextPatrol: real
    var lastAlertAt: real

    // Everything notified, every reconcile called, and the patrol instants gone by.
    ghost var notes: seq<Source>
    ghost var handed: seq<Handover>
    ghost var periods: nat

    // What is dirty is what no reconcile has been told of.
    ghost predicate Booked()
      reads this`dirty, this`notes, this`handed
    {
      && Accounted(notes, handed) && Taken(handed, |handed|) <= |notes|
      && dirty == Names(notes[Taken(handed, |handed|)..])
    }

    ghost predicate OnPhase()
      reads this`nextPatrol, this`periods
    {
      nextPatrol == origin + periods as real * POLL_INTERVAL_SEC
    }

    // At the wait the wake event is set exactly when something is dirty.
    ghost predicate Valid()
      reads this
    {
      Booked() && OnPhase() && (wake <==> dirty != {})
    }

    // Up to the first wait: producers may already be alerting, and the startup reconcile names no
    // source.
    constructor (c: Clock)
      modifies c
      ensures Valid() && clock == c
      ensures handed == [Handover(Startup, {}, 0, 0)] && origin >= old(c.now)
    {
      clock := c;
      var now := c.Read();
      origin, nextPatrol, periods := now, now + POLL_INTERVAL_SEC, 1;
      wake, dirty, lastAlertAt := false, {}, 0.0;
      notes, handed := [], [Handover(Startup, {}, 0, 0)];
      new;
      Alerts();
    }

    method Notify(source: Source)
      requires Booked()
      modifies this`wake, this`dirty, this`notes
      ensures Booked() && wake && notes == old(notes) + [source] && dirty == old(dirty) + {source}
    {
      dirty := dirty + {source};
      wake := true;
      notes := notes + [source];
      AccountedGrows(old(notes), source, handed);
      ghost var n := Taken(handed, |handed|);
      assert notes[n..] == old(notes)[n..] + [source];
    }

    // Any number of alerts landing while the loop awaits.
    method Alerts()
      requires Booked()
      modifies this`wake, this`dirty, this`notes
      ensures Booked() && old(notes) <= notes && old(dirty) <= dirty
      ensures (wake && dirty != {}) || (wake == old(wake) && dirty == old(dirty))
    {
      var n: int := *;
      while n > 0
        invariant Booked() && old(notes) <= notes && old(dirty) <= dirty
        invariant (wake && dirty != {}) || (wake == old(wake) && dirty == old(dirty))
      {
        hide Booked;
        var source: Source := *;
        Notify(source);
        assert source in dirty;
        n := n - 1;
      }
    }

    // The wait for an alert or the patrol instant, the coalescing sleep after an alert, and the last
    // clearing of the wake event. No alert lands between that and the snapshot.
    method Await() returns (woke: bool, now: real)
      requires Booked() && (wake <==> dirty != {})
      modifies this`wake, this`dirty, this`notes, clock
      ensures Booked() && old(notes) <= notes && old(dirty) <= dirty
      ensures !wake && (woke <==> dirty != {})
      ensures now == clock.now >= old(clock.now)
      ensures woke ==> now >= lastAlertAt + ALERT_COALESCE_SEC
    {
      hide Booked;
      woke := wake;
      if !woke {
        // an alert or the patrol instant ends the wait, and an alert may land on the timeout
        Alerts();
        var timedOut: bool := *;
        woke := wake && !timedOut;
      }
      if wake { wake, woke := false, true; }
      if woke {
        var asOf := clock.Read();
        var sinceLast := asOf - lastAlertAt;
        if sinceLast < ALERT_COALESCE_SEC {
          Alerts();
          var _ := clock.Sleep(ALERT_COALESCE_SEC - sinceLast);
        }
        wake := false;
      }
      now := clock.Read();
    }

    // The first patrol instant after `now`.
    method CatchUp(now: real)
      requires OnPhase() && nextPatrol <= now
      modifies this`nextPatrol, this`periods
      ensures OnPhase() && now < nextPatrol <= now + POLL_INTERVAL_SEC
    {
      while nextPatrol <= now
        invariant OnPhase() && nextPatrol <= now + POLL_INTERVAL_SEC
        decreases now - nextPatrol
      {
        nextPatrol, periods := nextPatrol + POLL_INTERVAL_SEC, periods + 1;
      }
    }

    // Take the dirty set for one reconcile.
    method Snapshot(due: bool) returns (named: set<Source>)
      requires Booked() && !wake && (dirty != {} || due)
      modifies this`dirty, this`handed
      ensures Booked() && dirty == {} && named == old(dirty)
      ensures exists h :: && handed == old(handed) + [h] && h.trigger != Startup && h.dirty == named
                          && h.upTo == |notes| && (h.Patrolling() <==> due)
    {
      named := dirty;
      dirty := {};
      var trigger := if named != {} && due then AlertAndPatrol else if named != {} then Alert else Patrol;
      ghost var h := Handover(trigger, named, Taken(handed, |handed|), |notes|);
      assert notes[h.from..h.upTo] == notes[h.from..];
      AccountedAppend(notes, handed, h);
      handed := handed + [h];
      assert notes[|notes|..] == [];
    }

    // The reconcile awaits too. One that raises leaves no mark of the alert it answered.
    method Reconcile(named: set<Source>, raises: bool)
      requires Booked()
      modifies this`wake, this`dirty, this`notes, this`lastAlertAt, clock
      ensures Booked() && old(notes) <= notes && clock.now >= old(clock.now)
      ensures (wake && dirty != {}) || (wake == old(wake) && dirty == old(dirty))
      ensures lastAlertAt == if raises || named == {} then old(lastAlertAt) else clock.now
    {
      Alerts();
      var now := clock.Read();
      if !raises && named != {} { lastAlertAt := now; }
    }

    /** One turn of the loop, taking its snapshot at time `at`. */
    method Pass(raises: bool) returns (at: real)
      requires Valid()
      modifies this, clock
      ensures Valid() && old(notes) <= notes && old(clock.now) <= at <= clock.now
      // whatever was notified before this turn has been handed over by its end
      ensures |old(notes)| <= Taken(handed, |handed|)
      // at most one reconcile, and none without a reason
      ensures handed == old(handed) || exists h ::
                && handed == old(handed) + [h] && h.trigger != Startup && old(dirty) <= h.dirty
                && (h.Patrolling() <==> old(nextPatrol) <= at)
                && (h.Alerting() ==> at >= old(lastAlertAt) + ALERT_COALESCE_SEC)
      // the spacing of alerts counts from the end of the last answer that did not raise
      ensures lastAlertAt == if handed != old(handed) && handed[|handed| - 1].Alerting() && !raises then clock.now
                             else old(lastAlertAt)
      // a pending alert, or a patrol that has come due, is reconciled in this turn
      ensures handed == old(handed) ==> !old(wake) && at < old(nextPatrol)
      // the patrol keeps its phase and never falls behind
      ensures at < nextPatrol
      ensures if old(nextPatrol) <= at then nextPatrol <= at + POLL_INTERVAL_SEC else nextPatrol == old(nextPatrol)
    {
      var woke, now := Await();
      at := now;
      var due := now >= nextPatrol;
      if dirty == {} && !due {
        NoNames(notes[Taken(handed, |handed|)..]);
        return;
      }
      if due { CatchUp(now); }
      label before:
      var named := Snapshot(due);
      ghost var h := handed[|handed| - 1];
      assert Explained(notes, handed, |handed| - 1);
      Reconcile(named, raises);
      assert handed == old(handed) + [h];
    }

    /** Over every run of the loop, under any stream of alerts: every notification received before a
        turn has reached a reconcile by the end of it, and the bookkeeping above holds. */
    method Run(passes: nat, raises: nat -> bool)
      requires Valid()
      modifies this, clock
      ensures Valid() && old(notes) <= notes && old(handed) <= handed
      ensures passes > 0 ==> |old(notes)| <= Taken(handed, |handed|)
    {
      for i := 0 to passes
        invariant Valid() && old(notes) <= notes && old(handed) <= handed
        invariant i > 0 ==> |old(notes)| <= Taken(handed, |handed|)
      {
        hide Booked;
        var _ := Pass(raises(i));
      }
    }
  }
}
