/**
 * The race between a request's deadline and the disconnect of its client, on an asyncio loop: one
 * scope, which the loop fires at its time, and a watch that moves that time up.
 */
module Disconnect {
  import opened Common

  type Time = int

  /** An asyncio timeout: active until the loop fires it, which can't be undone. */
  datatype Scope = Scope(when: Option<Time>, expired: bool)

  /** Rescheduling a scope that has expired is an error. */
  function Reschedule(scope: Scope, when: Option<Time>): Result<Scope, ()> {
    if scope.expired then Err(()) else Ok(scope.(when := when))
  }

  /** The code of the error for a scope that was cut short. */
  function TimeoutCode(disconnected: bool, deadline: Option<Time>, when: Option<Time>): Code {
    if disconnected && (deadline.None? || when.None? || when.value < deadline.value)
    then Canceled
    else DeadlineExceeded
  }

  /** How far the watch task has got: its loop over `receive()`, its last check, or its end. */
  datatype WatchPhase = Waiting | Receiving | Checking | Finished

  /** What `receive()` delivers once the body is done, or the error it raises. */
  datatype Received = ClientDisconnected | OtherMessage | ReceiveError

  /**
   * `moved` is the time that the watch moved the scope to. `faulted` records a reschedule that the
   * scope refused.
   */
  datatype State = State(
    now: Time, deadline: Option<Time>, scope: Scope, bodyDone: bool, disconnected: bool,
    watch: WatchPhase, moved: Option<Time>, faulted: bool)

  datatype Action =
    | Tick(now: Time)
    | Fire                        // the loop expires the scope
    | BodyDone                    // the handler has read the last of the request
    | HandlerSawDisconnect        // its own receive() was told of a disconnect before that
    | WatchStarts
    | WatchReceives(message: Received)
    | WatchChecks                 // the step after its loop, which has no await in it

  predicate Init(s: State) {
    && s.scope == Scope(s.deadline, false) && !s.bodyDone && !s.disconnected
    && s.watch.Waiting? && s.moved.None? && !s.faulted
  }

  predicate Enabled(s: State, a: Action) {
    match a
    case Tick(now) => s.now <= now
    case Fire => !s.scope.expired && s.scope.when.Some? && s.scope.when.value <= s.now
    case BodyDone => !s.bodyDone
    case HandlerSawDisconnect => !s.bodyDone
    case WatchStarts => s.watch.Waiting? && s.bodyDone
    case WatchReceives(_) => s.watch.Receiving?
    case WatchChecks => s.watch.Checking?
  }

  /** The loop of the watch goes on until the receiver has seen a disconnect. */
  function LoopHead(s: State): WatchPhase {
    if s.disconnected then Checking else Receiving
  }

  function Next(s: State, a: Action): State
    requires Enabled(s, a)
  {
    match a
    case Tick(now) => s.(now := now)
    case Fire => s.(scope := s.scope.(expired := true))
    case BodyDone => s.(bodyDone := true)
    case HandlerSawDisconnect => s.(disconnected := true)
    case WatchStarts => s.(watch := LoopHead(s))
    case WatchReceives(message) =>
      (match message
       case ClientDisconnected => s.(disconnected := true, watch := Checking)
       case OtherMessage => s.(watch := LoopHead(s))
       case ReceiveError => s.(watch := Checking))
    case WatchChecks =>
      var s' := s.(watch := Finished);
      if s.disconnected && !s.scope.expired then
        match Reschedule(s.scope, Some(s.now))
        case Ok(scope) => s'.(scope := scope, moved := Some(s.now))
        case Err(_) => s'.(faulted := true)
      else s'
  }

  ghost predicate Run(s: State, actions: seq<Action>, s': State)
    decreases |actions|
  {
    if actions == [] then s' == s
    else Enabled(s, actions[0]) && Run(Next(s, actions[0]), actions[1..], s')
  }

  predicate Inv(s: State) {
    && !s.faulted
    && s.scope.when == (if s.moved.Some? then s.moved else s.deadline)
    && (s.moved.Some? ==> s.disconnected && s.watch.Finished? && s.moved.value <= s.now)
    && (s.scope.expired ==> s.scope.when.Some? && s.scope.when.value <= s.now)
  }

  lemma {:induction false} RunKeepsInv(s: State, actions: seq<Action>, s': State)
    requires Inv(s) && Run(s, actions, s')
    ensures Inv(s') && s'.deadline == s.deadline
    ensures s.scope.expired ==> s'.scope == s.scope && s'.moved == s.moved
    decreases |actions|
  {
    if actions != [] {
      RunKeepsInv(Next(s, actions[0]), actions[1..], s');
    }
  }

  /**
   * In every interleaving the watch never reschedules an expired scope, and an expired scope is
   * reported as canceled when the watch had moved it ahead of the deadline, and as past the deadline
   * otherwise.
   */
  lemma ExpiredScopeReport(s0: State, actions: seq<Action>, s: State)
    requires Init(s0) && Run(s0, actions, s)
    ensures !s.faulted
    ensures s.scope.expired ==>
      TimeoutCode(s.disconnected, s.deadline, s.scope.when) ==
        if s.moved.Some? && (s.deadline.None? || s.moved.value < s.deadline.value) then Canceled
        else DeadlineExceeded
  {
    RunKeepsInv(s0, actions, s);
  }

  /** How far the watch has got, given whether an error has ended its loop. */
  predicate WatchTold(s: State, failed: bool) {
    && (s.watch.Checking? || s.watch.Finished? ==> s.disconnected || failed)
    && (!s.watch.Waiting? ==> s.bodyDone)
    && (s.watch.Receiving? ==> !s.disconnected)
    && (s.watch.Finished? && s.disconnected ==> s.moved.Some? || s.scope.expired)
  }

  lemma {:induction false} WatchGoesOn(s: State, actions: seq<Action>, s': State, failed: bool)
    requires Inv(s) && WatchTold(s, failed) && Run(s, actions, s')
    ensures WatchTold(s', failed || WatchReceives(ReceiveError) in actions)
    ensures s'.disconnected <==>
      s.disconnected || HandlerSawDisconnect in actions || WatchReceives(ClientDisconnected) in actions
    decreases |actions|
  {
    if actions != [] {
      var first, rest := actions[0], actions[1..];
      assert actions == [first] + rest;
      RunKeepsInv(s, [first], Next(s, first));
      WatchGoesOn(Next(s, first), rest, s', failed || first == WatchReceives(ReceiveError));
    }
  }

  /**
   * A watch receives only while it has not been told of a disconnect, and ends only when it has, or can no
   * longer be told; and then a disconnect has cut the scope short, unless it had expired.
   */
  lemma DisconnectCutsShort(s0: State, actions: seq<Action>, s: State)
    requires Init(s0) && Run(s0, actions, s)
    ensures s.disconnected <==> HandlerSawDisconnect in actions || WatchReceives(ClientDisconnected) in actions
    ensures s.watch.Receiving? ==> !s.disconnected
    ensures s.watch.Finished? ==> s.disconnected || WatchReceives(ReceiveError) in actions
    ensures s.watch.Finished? && s.disconnected ==> s.scope.expired || (s.moved.Some? && s.scope.when == s.moved)
  {
    RunKeepsInv(s0, actions, s);
    WatchGoesOn(s0, actions, s, false);
  }

  /** The report is settled when the scope expires: nothing that happens later changes it. */
  lemma ReportIsFinal(s0: State, before: seq<Action>, s: State, after: seq<Action>, s': State)
    requires Init(s0) && Run(s0, before, s) && s.scope.expired && Run(s, after, s')
    ensures s'.scope == s.scope
    ensures TimeoutCode(s'.disconnected, s'.deadline, s'.scope.when)
         == TimeoutCode(s.disconnected, s.deadline, s.scope.when)
  {
    RunKeepsInv(s0, before, s);
    RunKeepsInv(s, after, s');
  }
}
