/** The deadline of a synchronous Watch, over any clock that does not run backwards. */
module WatchDeadline {
  import opened Common

  /** A wait on the event that ended: whether the event was set, and the clock just afterwards. */
  datatype Wait = Wait(changed: bool, clock: real)

  ghost predicate Monotone(start: real, waits: seq<Wait>) {
    && (forall k :: 0 <= k < |waits| ==> start <= waits[k].clock)
    && forall j, k :: 0 <= j < k < |waits| ==> waits[j].clock <= waits[k].clock
  }

  /** The wait that `watch_sync` returns after: one that timed out at or past the deadline. */
  predicate Ends(wait: Wait, deadline: Option<real>) {
    deadline.Some? && !wait.changed && deadline.value <= wait.clock
  }

  /** What a watch has done by the end of a sequence of waits. */
  datatype Progress = Progress(ended: bool, waits: nat, yielded: nat)

  function Changes(waits: seq<Wait>): nat {
    if waits == [] then 0 else Changes(waits[..|waits| - 1]) + if waits[|waits| - 1].changed then 1 else 0
  }

  /**
   * `watch_sync` after it has set its deadline. Without a deadline a wait ends only when the event
   * is set. The clock may stop short of the deadline when a timed wait ends.
   */
  method WatchSync(deadline: Option<real>, waits: seq<Wait>) returns (p: Progress)
    requires deadline.None? ==> forall k :: 0 <= k < |waits| ==> waits[k].changed
    ensures p.waits <= |waits|
    ensures p.ended <==> exists k :: 0 <= k < |waits| && Ends(waits[k], deadline)
    ensures p.ended ==> p.waits > 0 && Ends(waits[p.waits - 1], deadline)
    ensures forall k :: 0 <= k < p.waits - (if p.ended then 1 else 0) ==> !Ends(waits[k], deadline)
    ensures !p.ended ==> p.waits == |waits|
    ensures p.yielded == 1 + Changes(waits[..p.waits])
  {
    var k, yielded := 0, 1;
    while k < |waits|
      invariant 0 <= k <= |waits|
      invariant forall j :: 0 <= j < k ==> !Ends(waits[j], deadline)
      invariant yielded == 1 + Changes(waits[..k])
    {
      assert waits[..k + 1][..k] == waits[..k];
      if waits[k].changed {
        yielded := yielded + 1;
      } else if waits[k].clock >= deadline.value {
        return Progress(true, k + 1, yielded);
      }
      k := k + 1;
    }
    return Progress(false, k, yielded);
  }

  /** The context's remaining time in milliseconds, and what is left of it in seconds. */
  function TimeoutMs(endTime: real, clock: real): real {
    (endTime - clock) * 1000.0
  }

  function RemainingSeconds(endTime: Option<real>, clock: real): Option<real> {
    if endTime.None? then None
    else
      var ms := TimeoutMs(endTime.value, clock);
      Some((if ms < 0.0 then 0.0 else ms) / 1000.0)
  }

  datatype Outcome = StillOpen | Completed | TimedOut

  /**
   * `HealthServiceSync.watch` on a `StaticChecker`: the remaining time is read at `asked`, the
   * deadline is set at `started`, and the remaining time is read again at `finished`.
   */
  method ServiceWatch(endTime: Option<real>, asked: real, started: real, waits: seq<Wait>, finished: real)
    returns (outcome: Outcome)
    requires asked <= started && Monotone(started, waits)
    requires forall k :: 0 <= k < |waits| ==> waits[k].clock <= finished
    requires endTime.None? ==> forall k :: 0 <= k < |waits| ==> waits[k].changed
    // A timed call never ends in success, and never before its deadline.
    ensures outcome != Completed
    ensures outcome == TimedOut ==> endTime.Some? && endTime.value <= finished
    // It does end, at the first wait that times out once what was left on entry has passed.
    ensures outcome == StillOpen <==>
      (endTime.None? ||
       forall k :: 0 <= k < |waits| && !waits[k].changed ==>
         waits[k].clock < started + (if endTime.value < asked then 0.0 else endTime.value - asked))
  {
    var timeout := RemainingSeconds(endTime, asked);
    var deadline := if timeout.None? then None else Some(started + timeout.value);
    var p := WatchSync(deadline, waits);
    if !p.ended {
      assert forall k :: 0 <= k < |waits| ==> !Ends(waits[k], deadline);
      return StillOpen;
    }
    assert Ends(waits[p.waits - 1], deadline);
    if RemainingSeconds(endTime, finished) == Some(0.0) {
      return TimedOut;
    }
    return Completed;
  }
}
