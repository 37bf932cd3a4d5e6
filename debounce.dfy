/** Debounced digital input (drivers/input/dinDebounce.ts): every edge records the
    pin's state, the first edge of a burst starts a timer of `db` ms, and when it
    fires the callback gets the latest state. The timer itself is the
    environment's: `Expire` is its firing. */
module Debounce {
  import opened Options

  /** The state a rising edge reports, 0, and a falling edge, 1. */
  function EdgeState(rising: bool): (s: nat)
    ensures s <= 1 && (s == 0 <==> rising)
  {
    if rising then 0 else 1
  }

  class Debouncer {
    const db: nat
    /** `pinState`: the state of the latest edge, undefined before the first. */
    var pinState: Option<nat>
    /** `int !== undefined`: a timer is pending. */
    var pending: bool
    /** How many timers were started. */
    var started: nat

    ghost predicate Valid()
      reads this
    {
      pending ==> pinState.Some?
    }

    constructor (db: nat)
      ensures Valid() && this.db == db && pinState.None? && !pending && started == 0
    {
      this.db := db;
      pinState := None;
      pending := false;
      started := 0;
    }

    /** `debounce(state)`: the state is recorded; a timer starts only if none is
        pending. */
    method Edge(state: nat)
      requires Valid()
      modifies this
      ensures Valid()
      ensures pinState == Some(state) && pending
      ensures started == if old(pending) then old(started) else old(started) + 1
    {
      pinState := Some(state);
      if !pending {
        pending := true;
        started := started + 1;
      }
    }

    /** The pin's 'rise' handler. */
    method Rise()
      requires Valid()
      modifies this
      ensures Valid() && pinState == Some(0) && pending
      ensures started == if old(pending) then old(started) else old(started) + 1
    {
      Edge(EdgeState(true));
    }

    /** The pin's 'fall' handler. */
    method Fall()
      requires Valid()
      modifies this
      ensures Valid() && pinState == Some(1) && pending
      ensures started == if old(pending) then old(started) else old(started) + 1
    {
      Edge(EdgeState(false));
    }

    /** The pending timer fires: no timer is pending any more and the callback
        gets the latest state. Without a pending timer nothing happens. */
    method Expire() returns (report: Option<nat>)
      requires Valid()
      modifies this
      ensures Valid() && !pending && pinState == old(pinState) && started == old(started)
      ensures report == if old(pending) then old(pinState) else None
    {
      report := None;
      if pending {
        pending := false;
        report := pinState;
      }
    }
  }

  /** A burst of edges (true for rising) on an idle input, then the timer: one
      timer is started and the callback gets the state of the last edge. */
  method Burst(d: Debouncer, edges: seq<bool>) returns (report: Option<nat>)
    requires d.Valid() && !d.pending && edges != []
    modifies d
    ensures d.Valid() && !d.pending
    ensures d.started == old(d.started) + 1
    ensures report == Some(EdgeState(edges[|edges| - 1]))
  {
    var i := 0;
    while i < |edges|
      invariant 0 <= i <= |edges| && d.Valid()
      invariant i == 0 ==> !d.pending && d.started == old(d.started)
      invariant i > 0 ==> d.pending && d.started == old(d.started) + 1
      invariant i > 0 ==> d.pinState == Some(EdgeState(edges[i - 1]))
    {
      if edges[i] {
        d.Rise();
      } else {
        d.Fall();
      }
      i := i + 1;
    }
    report := d.Expire();
  }
}
