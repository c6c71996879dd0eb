/**
 * A trailing debounce: the wrapped function runs `wait` milliseconds after the
 * most recent call, with that call's arguments, and a call made while a timer is
 * pending cancels it. The debouncer keeps one pending-timer slot.
 *
 * `Drain` gives the executions the event loop performs for a chronological list of
 * calls; the class `Debouncer` is the slot itself, with one method per step.
 */
module Debounce {
  import opened Wrappers

  datatype Timer<A> = Timer(args: A, due: nat)
  datatype Call<A> = Call(at: nat, args: A)
  datatype Execution<A> = Execution(at: nat, args: A)

  /** The slot right after a call: the old timer is cleared and a new one armed. */
  function Arm<A>(c: Call<A>, wait: nat): Option<Timer<A>> {
    Some(Timer(c.args, c.at + wait))
  }

  /** What a pending timer has run by time `now`. */
  function FiredBy<A>(slot: Option<Timer<A>>, now: nat): seq<Execution<A>> {
    if slot.Some? && slot.value.due <= now then [Execution(slot.value.due, slot.value.args)] else []
  }

  /** What a pending timer runs once no further call comes. */
  function Settle<A>(slot: Option<Timer<A>>): seq<Execution<A>> {
    if slot.Some? then [Execution(slot.value.due, slot.value.args)] else []
  }

  /**
   * The executions, in order, starting from `slot` and then receiving `calls`: at
   * most one per call plus one for a pending timer, and the last call runs last.
   */
  function Drain<A>(slot: Option<Timer<A>>, calls: seq<Call<A>>, wait: nat): (r: seq<Execution<A>>)
    ensures |r| <= |calls| + (if slot.Some? then 1 else 0)
    ensures calls != [] ==> r != [] && r[|r| - 1] == Execution(calls[|calls| - 1].at + wait, calls[|calls| - 1].args)
    decreases |calls|
  {
    if calls == [] then Settle(slot)
    else FiredBy(slot, calls[0].at) + Drain(Arm(calls[0], wait), calls[1..], wait)
  }

  /** What the event loop runs for `calls` made to a fresh debounced function. */
  function Executions<A>(calls: seq<Call<A>>, wait: nat): (r: seq<Execution<A>>)
    ensures r == Survivors(calls, wait)
  {
    if calls == [] then Drain(None, calls, wait)
    else DrainArmed(calls, wait); Drain(None, calls, wait)
  }

  /** Each call comes no earlier than, and within `wait` of, the one before it. */
  predicate Burst<A>(calls: seq<Call<A>>, wait: nat) {
    forall i :: 0 < i < |calls| ==> calls[i - 1].at <= calls[i].at < calls[i - 1].at + wait
  }

  /**
   * Reference definition: a call runs, `wait` after it was made, exactly when it is
   * the last call or the next call comes `wait` or more after it.
   */
  function Survivors<A>(calls: seq<Call<A>>, wait: nat): seq<Execution<A>>
    decreases |calls|
  {
    if calls == [] then []
    else
      var c := calls[0];
      (if |calls| == 1 || calls[1].at >= c.at + wait then [Execution(c.at + wait, c.args)] else [])
      + Survivors(calls[1..], wait)
  }

  lemma {:induction false} DrainArmed<A>(calls: seq<Call<A>>, wait: nat)
    requires calls != []
    ensures Drain(Arm(calls[0], wait), calls[1..], wait) == Survivors(calls, wait)
    decreases |calls|
  {
    var rest := calls[1..];
    if rest != [] {
      DrainArmed(rest, wait);
      assert rest[1..] == calls[2..];
    }
  }

  lemma {:induction false} BurstSurvivors<A>(calls: seq<Call<A>>, wait: nat)
    requires calls != [] && Burst(calls, wait)
    ensures Survivors(calls, wait) == [Execution(calls[|calls| - 1].at + wait, calls[|calls| - 1].args)]
    decreases |calls|
  {
    if |calls| > 1 {
      assert calls[1].at < calls[0].at + wait;
      var rest := calls[1..];
      assert Burst(rest, wait) by {
        forall i | 0 < i < |rest| ensures rest[i - 1].at <= rest[i].at < rest[i - 1].at + wait {
          assert rest[i - 1] == calls[i] && rest[i] == calls[i + 1];
        }
      }
      BurstSurvivors(rest, wait);
    }
  }

  /** A burst runs the wrapped function once, with the last call's arguments, `wait` after that call. */
  lemma BurstRunsLastOnce<A>(calls: seq<Call<A>>, wait: nat)
    requires calls != [] && Burst(calls, wait)
    ensures Executions(calls, wait) == [Execution(calls[|calls| - 1].at + wait, calls[|calls| - 1].args)]
  {
    BurstSurvivors(calls, wait);
  }

  /** The last call always runs, and it runs last. */
  lemma {:induction false} LastCallRuns<A>(calls: seq<Call<A>>, wait: nat)
    requires calls != []
    ensures var e := Survivors(calls, wait);
      e != [] && e[|e| - 1] == Execution(calls[|calls| - 1].at + wait, calls[|calls| - 1].args)
    decreases |calls|
  {
    if |calls| > 1 {
      LastCallRuns(calls[1..], wait);
    }
  }

  /** The pending-call slot of one debounced function. */
  class Debouncer<A> {
    const wait: nat
    var timeout: Option<Timer<A>>

    constructor (wait: nat)
      ensures this.wait == wait && timeout == None
    {
      this.wait := wait;
      timeout := None;
    }

    /** A call of the debounced function: clear the pending timer and arm a new one. */
    method Invoke(args: A, now: nat)
      modifies this`timeout
      ensures timeout == Arm(Call(now, args), wait)
    {
      timeout := None;
      timeout := Some(Timer(args, now + wait));
    }

    /** The pending timer runs: the wrapped function is executed with the stored arguments. */
    method Fire() returns (e: Execution<A>)
      requires timeout.Some?
      modifies this`timeout
      ensures e == Execution(old(timeout).value.due, old(timeout).value.args)
      ensures [e] == FiredBy(old(timeout), e.at) && timeout == None
    {
      e := Execution(timeout.value.due, timeout.value.args);
      timeout := None;
    }
  }
}
