/**
 * `Timer` of link_preview.js: a restartable single-shot deferred call built on
 * `setTimeout`/`clearTimeout`. The browser's side is made explicit: `scheduled` holds
 * the registrations that have neither fired nor been cleared, so that a call the
 * timer has lost track of stays visible.
 */
module Timers {
  import opened Wrappers

  /** The callbacks the page binds to its five timers. */
  datatype Callback = ShowFrame | HideFrame | UpdateFrame | ShowIcon | HideIcon

  /** One `setTimeout` registration: its id, the argument it will pass, its delay. */
  datatype Call = Call(id: nat, arg: Option<string>, delay: int)

  /**
   * The timer's fields (`timeout`, `running`, `timer` as `handle`) together with the
   * registrations still pending in the browser and the next id `setTimeout` returns.
   */
  datatype TimerState = TimerState(
    timeout: int,
    running: bool,
    handle: Option<nat>,
    scheduled: seq<Call>,
    nextId: nat)

  function Initial(timeout: int): TimerState {
    TimerState(timeout, false, None, [], 0)
  }

  /**
   * The state the class is designed to keep: at most one pending call, `running`
   * exactly when there is one, and `handle` naming it.
   */
  predicate Settled(s: TimerState) {
    && |s.scheduled| <= 1
    && (s.running <==> |s.scheduled| == 1)
    && (s.running ==> s.handle == Some(s.scheduled[0].id))
  }

  predicate Idle(s: TimerState) {
    !s.running && s.scheduled == []
  }

  /** `clearTimeout(handle)`: drops the registration with that id; `null` clears nothing. */
  function Cancel(calls: seq<Call>, handle: Option<nat>): (r: seq<Call>)
    ensures forall c :: c in r <==> c in calls && Some(c.id) != handle
    ensures |r| <= |calls|
  {
    if calls == [] then []
    else (if Some(calls[0].id) == handle then [] else [calls[0]]) + Cancel(calls[1..], handle)
  }

  /** `start(arg)`: clears the known registration when running, then registers a new one. */
  function Started(s: TimerState, arg: Option<string>): TimerState {
    var kept := if s.running then Cancel(s.scheduled, s.handle) else s.scheduled;
    s.(running := true, handle := Some(s.nextId),
       scheduled := kept + [Call(s.nextId, arg, s.timeout)], nextId := s.nextId + 1)
  }

  /** `stop()`: clears the known registration, only when running. */
  function Stopped(s: TimerState): TimerState {
    if s.running then s.(running := false, handle := None, scheduled := Cancel(s.scheduled, s.handle))
    else s
  }

  /** `updateTimeout(t)`. */
  function Retimed(s: TimerState, t: int): TimerState {
    s.(timeout := t)
  }

  /** The browser runs registration `k`: it is no longer pending. */
  function Taken(s: TimerState, k: nat): TimerState
    requires k < |s.scheduled|
  {
    s.(scheduled := s.scheduled[..k] + s.scheduled[k + 1..])
  }

  /** The two assignments `_exec` makes once the callback has returned. */
  function Finished(s: TimerState): TimerState {
    s.(running := false, handle := None)
  }

  /** `start` on a settled timer leaves exactly one pending call, carrying the new argument. */
  lemma StartLeavesOneCall(s: TimerState, arg: Option<string>)
    requires Settled(s)
    ensures Settled(Started(s, arg))
    ensures Started(s, arg).scheduled == [Call(s.nextId, arg, s.timeout)]
  {
    if s.running {
      assert s.scheduled == [s.scheduled[0]];
    }
  }

  /** Two `start`s in a row: the first call is cancelled, the last argument wins. */
  lemma LastStartWins(s: TimerState, a: Option<string>, b: Option<string>)
    requires Settled(s)
    ensures Started(Started(s, a), b).scheduled == [Call(s.nextId + 1, b, s.timeout)]
  {
    StartLeavesOneCall(s, a);
    StartLeavesOneCall(Started(s, a), b);
  }

  /** `stop` on a timer that is not running changes nothing. */
  lemma StopIdleIsNoop(s: TimerState)
    requires !s.running
    ensures Stopped(s) == s
  {
  }

  /** `stop` on a settled timer leaves no pending call. */
  lemma StopCancels(s: TimerState)
    requires Settled(s)
    ensures Idle(Stopped(s)) && Settled(Stopped(s))
  {
    if s.running {
      assert s.scheduled == [s.scheduled[0]];
    }
  }

  /** `updateTimeout` leaves pending calls as they are; only later `start`s use the new delay. */
  lemma RetimeAffectsOnlyLaterStarts(s: TimerState, t: int, arg: Option<string>)
    ensures Retimed(s, t).scheduled == s.scheduled
    ensures Retimed(s, t).running == s.running
    ensures var s' := Started(Retimed(s, t), arg); s'.scheduled[|s'.scheduled| - 1] == Call(s.nextId, arg, t)
  {
  }

  /** A firing whose callback leaves its own timer alone ends idle. */
  lemma FireWithoutRearmEndsIdle(s: TimerState)
    requires Settled(s) && s.running
    ensures Idle(Finished(Taken(s, 0))) && Settled(Finished(Taken(s, 0)))
  {
  }

  /**
   * `_exec` clears `running` after the callback: a callback that re-arms its own timer
   * leaves a pending call while `running` is false, and `stop` can no longer cancel it.
   */
  lemma RearmInCallbackOrphansCall(s: TimerState, arg: Option<string>)
    requires Settled(s) && s.running
    ensures var t := Finished(Started(Taken(s, 0), arg));
      && !t.running
      && t.scheduled == [Call(s.nextId, arg, s.timeout)]
      && Stopped(t) == t
      && !Settled(t)
  {
    var taken := Taken(s, 0);
    assert taken.scheduled == [];
  }

  /** Once a call is orphaned, the next `start` does not cancel it: two calls are pending. */
  lemma StartAfterOrphanKeepsBoth(t: TimerState, arg: Option<string>)
    requires !t.running && |t.scheduled| == 1
    ensures |Started(t, arg).scheduled| == 2
  {
  }

  /** A timer bound to one of the page's callbacks. */
  class Timer {
    const callback: Callback
    var timeout: int
    var running: bool
    var handle: Option<nat>
    var scheduled: seq<Call>
    var nextId: nat

    function State(): TimerState
      reads this
    {
      TimerState(timeout, running, handle, scheduled, nextId)
    }

    constructor (callback: Callback, timeout: int)
      ensures this.callback == callback
      ensures State() == Initial(timeout)
    {
      this.callback := callback;
      this.timeout := timeout;
      running := false;
      handle := None;
      scheduled := [];
      nextId := 0;
    }

    method Start(arg: Option<string>)
      modifies this
      ensures State() == Started(old(State()), arg)
    {
      if running {
        scheduled := Cancel(scheduled, handle);
      }
      scheduled := scheduled + [Call(nextId, arg, timeout)];
      handle := Some(nextId);
      nextId := nextId + 1;
      running := true;
    }

    method Stop()
      modifies this
      ensures State() == Stopped(old(State()))
    {
      if running {
        scheduled := Cancel(scheduled, handle);
        running := false;
        handle := None;
      }
    }

    method UpdateTimeout(newTimeout: int)
      modifies this
      ensures State() == Retimed(old(State()), newTimeout)
    {
      timeout := newTimeout;
    }

    /** The browser removes pending call `k` and hands over its argument. */
    method Take(k: nat) returns (arg: Option<string>)
      requires k < |scheduled|
      modifies this
      ensures arg == old(scheduled[k].arg)
      ensures State() == Taken(old(State()), k)
    {
      arg := scheduled[k].arg;
      scheduled := scheduled[..k] + scheduled[k + 1..];
    }

    /** The tail of `_exec`, run after the callback has returned. */
    method Finish()
      modifies this
      ensures State() == Finished(old(State()))
    {
      running := false;
      handle := None;
    }
  }
}
