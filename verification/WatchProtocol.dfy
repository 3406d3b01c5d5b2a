/**
 * The health watch protocol: threads that call `set_status`, loops that deliver wakeups, and
 * any number of watches, interleaved at every point where one can observe another.
 */
module WatchProtocol {
  import opened Common
  import opened HealthChecker

  // ---------------------------------------------------------------- Waiters

  /** How a watch is woken: an asyncio loop, a trio run, or a plain thread (`watch_sync`). */
  datatype Kind = AsyncioLoop | TrioRun | Thread

  /** A waiter owns a current event; `fired` holds the events that are set. */
  datatype Waiter = Waiter(kind: Kind, current: nat, fired: set<nat>)

  /** A trio event can't be cleared, so resetting replaces it. */
  function ResetEvent(waiter: Waiter): Waiter {
    match waiter.kind
    case TrioRun => waiter.(current := waiter.current + 1)
    case _ => waiter.(fired := waiter.fired - {waiter.current})
  }

  /** Sets whichever event is current at this moment. */
  function SetEvent(waiter: Waiter): Waiter {
    waiter.(fired := waiter.fired + {waiter.current})
  }

  // ---------------------------------------------------------------- States

  /** Where a watch is: the points of the `while True` loop and of the loop that sends. */
  datatype Phase =
    | Resetting
    | Reading
    | Yielded(reading: Option<Status>, at: nat)
    | Sent
    | Parked(event: nat)
    | Closed

  /**
   * `queued` counts the wakeups handed to the loop and not yet run. A reading remembers the point
   * of the history it was made at; `processed` holds those that went through the send loop.
   */
  datatype Watch = Watch(
    service: Service, waiter: Waiter, phase: Phase, queued: nat, loopClosed: bool,
    processed: seq<nat>, last: Option<Status>, sent: seq<Status>)

  /**
   * `setters` holds the callbacks that each call of `set_status` has yet to make. `history` is
   * every value the statuses have had. `crashed` records a failed dictionary lookup.
   */
  datatype State = State(
    statuses: Statuses, watchers: Watchers, setters: seq<seq<WatchId>>, watches: seq<Watch>,
    history: seq<Statuses>, crashed: bool)

  ghost predicate Init(s: State) {
    && s.watchers == map[] && s.setters == [] && s.watches == []
    && s.history == [s.statuses] && !s.crashed
  }

  // ---------------------------------------------------------------- Steps

  datatype Action =
    | SetStatus(service: Service, status: Status, callbacks: seq<WatchId>)
    | Fire(setter: nat)
    | Deliver(id: WatchId)
    | Open(service: Service, kind: Kind)
    | Reset(id: WatchId)
    | Read(id: WatchId)
    | Send(id: WatchId)
    | Park(id: WatchId)
    | Wake(id: WatchId)
    | Close(id: WatchId)
    | CloseLoop(id: WatchId)

  predicate Running(s: State, id: WatchId) {
    id < |s.watches| && !s.watches[id].loopClosed
  }

  ghost predicate Enabled(s: State, a: Action) {
    match a
    case SetStatus(service, _, callbacks) =>
      // The snapshot lists the registered callbacks in any order.
      && (forall w :: w in callbacks <==> w in Callbacks(s.watchers, service))
      && (forall i, j :: 0 <= i < j < |callbacks| ==> callbacks[i] != callbacks[j])
    case Fire(t) =>
      t < |s.setters| && s.setters[t] != [] && s.setters[t][0] < |s.watches|
    case Deliver(id) => Running(s, id) && s.watches[id].queued > 0
    case Open(_, _) => true
    case Reset(id) => Running(s, id) && s.watches[id].phase.Resetting?
    case Read(id) => Running(s, id) && s.watches[id].phase.Reading? && s.history != []
    case Send(id) => Running(s, id) && s.watches[id].phase.Yielded?
    case Park(id) => Running(s, id) && s.watches[id].phase.Sent?
    case Wake(id) =>
      && Running(s, id) && s.watches[id].phase.Parked?
      && s.watches[id].phase.event in s.watches[id].waiter.fired
    case Close(id) =>
      && Running(s, id)
      && (s.watches[id].phase.Yielded? || s.watches[id].phase.Sent? || s.watches[id].phase.Parked?)
    case CloseLoop(id) => Running(s, id) && s.watches[id].waiter.kind != Thread
  }

  /** `notify`, called on a setter's thread; a loop that has closed drops the wakeup. */
  function Notified(w: Watch): Watch {
    if w.waiter.kind == Thread then w.(waiter := SetEvent(w.waiter))
    else if w.loopClosed then w
    else w.(queued := w.queued + 1)
  }

  /** The send loop of the RPC: a status goes out only when it differs from the last one. */
  function AfterSend(w: Watch): Watch
    requires w.phase.Yielded?
  {
    var current := Shown(w.phase.reading);
    if Some(current) != w.last
    then w.(phase := Sent, processed := w.processed + [w.phase.at],
            last := Some(current), sent := w.sent + [current])
    else w.(phase := Sent, processed := w.processed + [w.phase.at])
  }

  function Update(s: State, id: WatchId, w: Watch): State
    requires id < |s.watches|
  {
    s.(watches := s.watches[id := w])
  }

  function AfterClose(s: State, id: WatchId): State
    requires id < |s.watches|
  {
    var w := s.watches[id];
    var s' := Update(s, id, w.(phase := Closed));
    if w.service in s.watchers
    then s'.(watchers := Unsubscribed(s.watchers, w.service, id))
    else s'.(crashed := true)
  }

  ghost function Next(s: State, a: Action): State
    requires Enabled(s, a)
  {
    match a
    case SetStatus(service, status, callbacks) =>
      var statuses := s.statuses[service := status];
      s.(statuses := statuses, history := s.history + [statuses], setters := s.setters + [callbacks])
    case Fire(t) =>
      var id := s.setters[t][0];
      Update(s, id, Notified(s.watches[id])).(setters := s.setters[t := s.setters[t][1..]])
    case Deliver(id) =>
      var w := s.watches[id];
      Update(s, id, w.(queued := w.queued - 1, waiter := SetEvent(w.waiter)))
    case Open(service, kind) =>
      var w := Watch(service, Waiter(kind, 0, {}), Resetting, 0, false, [], None, []);
      s.(watches := s.watches + [w], watchers := Subscribed(s.watchers, service, |s.watches|))
    case Reset(id) =>
      var w := s.watches[id];
      Update(s, id, w.(phase := Reading, waiter := ResetEvent(w.waiter)))
    case Read(id) =>
      var w := s.watches[id];
      Update(s, id, w.(phase := Yielded(Report(s.statuses, w.service), |s.history| - 1)))
    case Send(id) => Update(s, id, AfterSend(s.watches[id]))
    case Park(id) =>
      var w := s.watches[id];
      Update(s, id, w.(phase := Parked(w.waiter.current)))
    case Wake(id) => Update(s, id, s.watches[id].(phase := Resetting))
    case Close(id) => AfterClose(s, id)
    case CloseLoop(id) => Update(s, id, s.watches[id].(loopClosed := true))
  }

  /** `s'` is reached from `s` by taking the actions in order. */
  ghost predicate Run(s: State, actions: seq<Action>, s': State)
    decreases |actions|
  {
    if actions == [] then s' == s
    else Enabled(s, actions[0]) && Run(Next(s, actions[0]), actions[1..], s')
  }

  ghost predicate Reachable(s: State) {
    exists s0, actions :: Init(s0) && Run(s0, actions, s)
  }

  // ---------------------------------------------------------------- Output

  /** The last element repeated is dropped: the image without stutter. */
  function Destutter(xs: seq<Status>): seq<Status> {
    if xs == [] then []
    else
      var front := Destutter(xs[..|xs| - 1]);
      var x := xs[|xs| - 1];
      if front != [] && front[|front| - 1] == x then front else front + [x]
  }

  /** The statuses seen by reading a service at the given points of the history. */
  function Readings(history: seq<Statuses>, service: Service, points: seq<nat>): seq<Status>
    requires forall k :: 0 <= k < |points| ==> points[k] < |history|
  {
    seq(|points|, k requires 0 <= k < |points| => Shown(Report(history[points[k]], service)))
  }

  ghost predicate Ascending(points: seq<nat>) {
    forall i, j :: 0 <= i < j < |points| ==> points[i] <= points[j]
  }

  // ---------------------------------------------------------------- Invariant

  ghost predicate Pending(setters: seq<seq<WatchId>>, id: WatchId) {
    exists t, k :: 0 <= t < |setters| && 0 <= k < |setters[t]| && setters[t][k] == id
  }

  /** The point of the history that the latest reading was made at. */
  function LastRead(w: Watch): nat
    requires w.phase.Yielded? || w.processed != []
  {
    if w.phase.Yielded? then w.phase.at else w.processed[|w.processed| - 1]
  }

  predicate HasRead(w: Watch) {
    w.phase.Yielded? || w.phase.Sent? || w.phase.Parked?
  }

  ghost predicate WaiterOk(w: Watch) {
    && (forall e :: e in w.waiter.fired ==> e <= w.waiter.current)
    && (w.phase.Parked? ==> w.phase.event == w.waiter.current)
  }

  ghost predicate OutputOk(w: Watch, history: seq<Statuses>) {
    && (forall k :: 0 <= k < |w.processed| ==> w.processed[k] < |history|)
    && Ascending(w.processed)
    && w.sent == Destutter(Readings(history, w.service, w.processed))
    && w.last == (if w.sent == [] then None else Some(w.sent[|w.sent| - 1]))
    && (w.phase.Sent? || w.phase.Parked? ==> w.processed != [])
    && (w.phase.Yielded? ==>
          && w.phase.at < |history|
          && (w.processed != [] ==> w.processed[|w.processed| - 1] <= w.phase.at)
          && w.phase.reading == Report(history[w.phase.at], w.service))
  }

  /** The watch's latest reading is current, or something is on its way to wake it. */
  ghost predicate FreshOrNotified(s: State, id: WatchId)
    requires id < |s.watches|
    requires OutputOk(s.watches[id], s.history)
  {
    var w := s.watches[id];
    HasRead(w) && !w.loopClosed ==>
      || w.waiter.current in w.waiter.fired
      || w.queued > 0
      || Pending(s.setters, id)
      || Report(s.history[LastRead(w)], w.service) == Report(s.statuses, w.service)
  }

  predicate Registered(s: State, service: Service, id: WatchId) {
    id < |s.watches| && s.watches[id].service == service && !s.watches[id].phase.Closed?
  }

  /** `_watchers` holds exactly the callbacks of the watches that have not closed. */
  ghost predicate WatchersOk(s: State) {
    && NoEmptySets(s.watchers)
    && forall service, id :: id in Callbacks(s.watchers, service) <==> Registered(s, service, id)
  }

  ghost predicate SettersOk(s: State) {
    forall t, k :: 0 <= t < |s.setters| && 0 <= k < |s.setters[t]| ==> s.setters[t][k] < |s.watches|
  }

  ghost predicate WatchOk(s: State, id: WatchId)
    requires id < |s.watches|
  {
    && WaiterOk(s.watches[id])
    && OutputOk(s.watches[id], s.history)
    && FreshOrNotified(s, id)
  }

  ghost predicate Inv(s: State) {
    && s.history != [] && s.history[|s.history| - 1] == s.statuses
    && !s.crashed
    && WatchersOk(s)
    && SettersOk(s)
    && forall id :: 0 <= id < |s.watches| ==> WatchOk(s, id)
  }

  // ---------------------------------------------------------------- Preservation

  /** A callback that is pending stays pending until it is the one that fires. */
  lemma PendingAfterFire(setters: seq<seq<WatchId>>, t: nat, id: WatchId)
    requires t < |setters| && setters[t] != [] && setters[t][0] != id
    requires Pending(setters, id)
    ensures Pending(setters[t := setters[t][1..]], id)
  {
    var u, k :| 0 <= u < |setters| && 0 <= k < |setters[u]| && setters[u][k] == id;
    var after := setters[t := setters[t][1..]];
    if u == t {
      assert after[u][k - 1] == id;
    } else {
      assert after[u][k] == id;
    }
  }

  lemma PendingAfterSet(setters: seq<seq<WatchId>>, callbacks: seq<WatchId>, id: WatchId)
    requires Pending(setters, id) || id in callbacks
    ensures Pending(setters + [callbacks], id)
  {
    var after := setters + [callbacks];
    if id in callbacks {
      var k :| 0 <= k < |callbacks| && callbacks[k] == id;
      assert after[|setters|][k] == id;
    } else {
      var u, k :| 0 <= u < |setters| && 0 <= k < |setters[u]| && setters[u][k] == id;
      assert after[u][k] == id;
    }
  }

  /** What a watch has read and sent is unaffected by later changes. */
  lemma OutputStable(w: Watch, history: seq<Statuses>, statuses: Statuses)
    requires OutputOk(w, history)
    ensures OutputOk(w, history + [statuses])
  {
    assert Readings(history + [statuses], w.service, w.processed) == Readings(history, w.service, w.processed);
  }

  lemma SetStatusKeepsInv(s: State, a: Action)
    requires Inv(s) && a.SetStatus? && Enabled(s, a)
    ensures Inv(Next(s, a))
  {
    var s' := Next(s, a);
    assert SettersOk(s') by {
      assert forall k :: 0 <= k < |a.callbacks| ==> a.callbacks[k] in Callbacks(s.watchers, a.service);
    }
    forall id | 0 <= id < |s'.watches|
      ensures WatchOk(s', id)
    {
      var w := s.watches[id];
      assert WatchOk(s, id);
      OutputStable(w, s.history, s'.statuses);
      if HasRead(w) && !w.loopClosed {
        if w.service == a.service {
          assert Registered(s, w.service, id);
          PendingAfterSet(s.setters, a.callbacks, id);
        } else if Pending(s.setters, id) {
          PendingAfterSet(s.setters, a.callbacks, id);
        }
      }
    }
  }

  /** The watch whose callback fires is now notified; the others are as they were. */
  lemma FireKeepsWatch(s: State, a: Action, id: WatchId)
    requires Inv(s) && a.Fire? && Enabled(s, a) && id < |s.watches|
    ensures WatchOk(Next(s, a), id)
  {
    assert WatchOk(s, id);
    var fired, after := s.setters[a.setter][0], Next(s, a).watches[id];
    if id == fired {
      assert after == Notified(s.watches[id]);
    } else {
      assert after == s.watches[id];
      if Pending(s.setters, id) {
        PendingAfterFire(s.setters, a.setter, id);
      }
    }
  }

  lemma FireKeepsInv(s: State, a: Action)
    requires Inv(s) && a.Fire? && Enabled(s, a)
    ensures Inv(Next(s, a))
  {
    var s' := Next(s, a);
    assert SettersOk(s') by {
      var first := s.setters[a.setter];
      assert forall k :: 0 <= k < |first[1..]| ==> first[1..][k] == first[k + 1];
    }
    assert WatchersOk(s') by {
      forall service, id
        ensures Registered(s', service, id) <==> Registered(s, service, id)
      {
      }
    }
    forall id | 0 <= id < |s'.watches|
      ensures WatchOk(s', id)
    {
      FireKeepsWatch(s, a, id);
    }
  }

  /** A step of one watch that keeps its registration touches no other watch. */
  lemma UpdateKeepsInv(s: State, id: WatchId, w: Watch)
    requires Inv(s) && id < |s.watches|
    requires w.service == s.watches[id].service
    requires w.phase.Closed? == s.watches[id].phase.Closed?
    requires WatchOk(Update(s, id, w), id)
    ensures Inv(Update(s, id, w))
  {
    var s' := Update(s, id, w);
    forall other | 0 <= other < |s'.watches| && other != id
      ensures WatchOk(s', other)
    {
      assert WatchOk(s, other);
    }
  }

  /** Reading once more appends the reading unless it repeats the last one. */
  lemma DestutterSnoc(xs: seq<Status>, x: Status)
    ensures var front := Destutter(xs);
            Destutter(xs + [x]) == if front != [] && front[|front| - 1] == x then front else front + [x]
  {
    assert (xs + [x])[..|xs|] == xs;
  }

  lemma ReadingsSnoc(history: seq<Statuses>, service: Service, points: seq<nat>, point: nat)
    requires forall k :: 0 <= k < |points| ==> points[k] < |history|
    requires point < |history|
    ensures forall k :: 0 <= k < |points + [point]| ==> (points + [point])[k] < |history|
    ensures Readings(history, service, points + [point])
         == Readings(history, service, points) + [Shown(Report(history[point], service))]
  {
  }

  lemma AscendingSnoc(points: seq<nat>, point: nat)
    requires Ascending(points) && (points != [] ==> points[|points| - 1] <= point)
    ensures Ascending(points + [point])
  {
  }

  lemma SentAfterSend(w: Watch, history: seq<Statuses>)
    requires w.phase.Yielded? && OutputOk(w, history)
    ensures AfterSend(w).sent == Destutter(Readings(history, w.service, w.processed) + [Shown(w.phase.reading)])
    ensures AfterSend(w).last == Some(Shown(w.phase.reading)) && AfterSend(w).sent != []
    ensures AfterSend(w).last == Some(AfterSend(w).sent[|AfterSend(w).sent| - 1])
  {
    var readings, shown := Readings(history, w.service, w.processed), Shown(w.phase.reading);
    DestutterSnoc(readings, shown);
    assert w.sent == Destutter(readings);
    assert w.last == if w.sent == [] then None else Some(w.sent[|w.sent| - 1]);
    if Some(shown) == w.last {
      assert AfterSend(w).sent == w.sent;
    } else {
      assert AfterSend(w).sent == w.sent + [shown];
    }
  }

  lemma SendKeepsOutput(w: Watch, history: seq<Statuses>)
    requires w.phase.Yielded? && OutputOk(w, history)
    ensures OutputOk(AfterSend(w), history)
  {
    var w' := AfterSend(w);
    assert w'.processed == w.processed + [w.phase.at] && w'.service == w.service && w'.phase.Sent?;
    AscendingSnoc(w.processed, w.phase.at);
    ReadingsSnoc(history, w.service, w.processed, w.phase.at);
    SentAfterSend(w, history);
    assert w'.sent == Destutter(Readings(history, w'.service, w'.processed));
  }

  lemma SendKeepsInv(s: State, a: Action)
    requires Inv(s) && a.Send? && Enabled(s, a)
    ensures Inv(Next(s, a))
  {
    var w := s.watches[a.id];
    assert WatchOk(s, a.id);
    SendKeepsOutput(w, s.history);
    var w' := AfterSend(w);
    assert LastRead(w') == LastRead(w);
    UpdateKeepsInv(s, a.id, w');
  }

  /** A delivered wakeup sets the current event, so the reading may go stale no further. */
  lemma DeliverKeepsInv(s: State, a: Action)
    requires Inv(s) && a.Deliver? && Enabled(s, a)
    ensures Inv(Next(s, a))
  {
    assert WatchOk(s, a.id);
    UpdateKeepsInv(s, a.id, Next(s, a).watches[a.id]);
  }

  /** A reading is of the status at the moment it is made, so it is fresh. */
  lemma ReadKeepsInv(s: State, a: Action)
    requires Inv(s) && Enabled(s, a) && a.Read?
    ensures Inv(Next(s, a))
  {
    assert WatchOk(s, a.id);
    UpdateKeepsInv(s, a.id, Next(s, a).watches[a.id]);
  }

  lemma PhaseStepKeepsInv(s: State, a: Action)
    requires Inv(s) && Enabled(s, a)
    requires a.Reset? || a.Park? || a.Wake? || a.CloseLoop?
    ensures Inv(Next(s, a))
  {
    assert WatchOk(s, a.id);
    UpdateKeepsInv(s, a.id, Next(s, a).watches[a.id]);
  }

  lemma OpenKeepsInv(s: State, a: Action)
    requires Inv(s) && a.Open?
    ensures Inv(Next(s, a))
  {
    var s' := Next(s, a);
    forall id | 0 <= id < |s'.watches|
      ensures WatchOk(s', id)
    {
      if id < |s.watches| {
        assert WatchOk(s, id);
      }
    }
    forall service, id
      ensures id in Callbacks(s'.watchers, service) <==> Registered(s', service, id)
    {
      assert id in Callbacks(s.watchers, service) <==> Registered(s, service, id);
    }
  }

  lemma CloseKeepsWatchers(s: State, a: Action)
    requires Inv(s) && a.Close? && Enabled(s, a)
    ensures !Next(s, a).crashed && WatchersOk(Next(s, a))
  {
    var s' := Next(s, a);
    assert Registered(s, s.watches[a.id].service, a.id);
    forall service, id
      ensures id in Callbacks(s'.watchers, service) <==> Registered(s', service, id)
    {
      assert id in Callbacks(s.watchers, service) <==> Registered(s, service, id);
    }
  }

  /** The cleanup finds its service, and leaves no empty set behind. */
  lemma CloseKeepsInv(s: State, a: Action)
    requires Inv(s) && a.Close? && Enabled(s, a)
    ensures Inv(Next(s, a))
  {
    CloseKeepsWatchers(s, a);
    var s' := Next(s, a);
    forall id | 0 <= id < |s'.watches|
      ensures WatchOk(s', id)
    {
      assert WatchOk(s, id);
    }
  }

  lemma NextKeepsInv(s: State, a: Action)
    requires Inv(s) && Enabled(s, a)
    ensures Inv(Next(s, a))
  {
    match a
    case SetStatus(_, _, _) => SetStatusKeepsInv(s, a);
    case Fire(_) => FireKeepsInv(s, a);
    case Deliver(_) => DeliverKeepsInv(s, a);
    case Open(_, _) => OpenKeepsInv(s, a);
    case Send(_) => SendKeepsInv(s, a);
    case Read(_) => ReadKeepsInv(s, a);
    case Close(_) => CloseKeepsInv(s, a);
    case _ => PhaseStepKeepsInv(s, a);
  }

  lemma {:induction false} RunKeepsInv(s: State, actions: seq<Action>, s': State)
    requires Inv(s) && Run(s, actions, s')
    ensures Inv(s')
    decreases |actions|
  {
    if actions != [] {
      NextKeepsInv(s, actions[0]);
      RunKeepsInv(Next(s, actions[0]), actions[1..], s');
    }
  }

  lemma ReachableInv(s: State)
    requires Reachable(s)
    ensures Inv(s)
  {
    var s0, actions :| Init(s0) && Run(s0, actions, s);
    RunKeepsInv(s0, actions, s);
  }

  // ---------------------------------------------------------------- Safety

  /**
   * A status that Watch may send for a service: the one that was set, or else serving for the server as
   * a whole, and unknown for any other service.
   */
  ghost predicate IsStatusOf(status: Status, statuses: Statuses, service: Service) {
    && (service in statuses ==> status == statuses[service])
    && (service !in statuses && service == "" ==> status == Serving)
    && (service !in statuses && service != "" ==> status == ServiceUnknown)
  }

  lemma ShownIsStatus(statuses: Statuses, service: Service)
    ensures IsStatusOf(Shown(Report(statuses, service)), statuses, service)
  {
  }

  /** Nothing is on its way to wake the watch. */
  ghost predicate Unnotified(s: State, id: WatchId)
    requires id < |s.watches|
  {
    var w := s.watches[id];
    w.waiter.current !in w.waiter.fired && w.queued == 0 && !Pending(s.setters, id)
  }

  lemma LastReadingIsLastSent(s: State, id: WatchId)
    requires Inv(s) && id < |s.watches|
    requires s.watches[id].phase.Parked? || s.watches[id].phase.Sent?
    ensures var w := s.watches[id];
            && w.processed != [] && LastRead(w) < |s.history|
            && w.sent != [] && w.sent[|w.sent| - 1] == Shown(Report(s.history[LastRead(w)], w.service))
  {
    var w := s.watches[id];
    assert WatchOk(s, id);
    var n := |w.processed| - 1;
    ReadingsSnoc(s.history, w.service, w.processed[..n], w.processed[n]);
    assert w.processed[..n] + [w.processed[n]] == w.processed;
    var last := Shown(Report(s.history[w.processed[n]], w.service));
    DestutterSnoc(Readings(s.history, w.service, w.processed[..n]), last);
  }

  /**
   * No update is lost: a watch that waits, with its event clear and no wakeup on its way, has
   * already sent the current status of its service.
   */
  lemma NoLostUpdate(s: State, id: WatchId)
    requires Reachable(s)
    requires Running(s, id) && s.watches[id].phase.Parked?
    requires s.watches[id].phase.event !in s.watches[id].waiter.fired
    requires s.watches[id].queued == 0 && !Pending(s.setters, id)
    ensures s.watches[id].sent != []
    ensures var last, service := s.watches[id].sent[|s.watches[id].sent| - 1], s.watches[id].service;
      && (service in s.statuses ==> last == s.statuses[service])
      && (service !in s.statuses && service == "" ==> last == Serving)
      && (service !in s.statuses && service != "" ==> last == ServiceUnknown)
  {
    ReachableInv(s);
    assert WatchOk(s, id);
    LastReadingIsLastSent(s, id);
    ShownIsStatus(s.statuses, s.watches[id].service);
  }

  predicate Sets(a: Action, service: Service) {
    a.SetStatus? && a.service == service
  }

  /** The last status that the actions set for a service. */
  function LastSet(actions: seq<Action>, service: Service): Option<Status> {
    if actions == [] then None
    else
      var later := LastSet(actions[1..], service);
      if later.Some? then later
      else if Sets(actions[0], service) then Some(actions[0].status)
      else None
  }

  lemma NextStatuses(s: State, a: Action, service: Service)
    requires Enabled(s, a)
    ensures Sets(a, service) ==> service in Next(s, a).statuses && Next(s, a).statuses[service] == a.status
    ensures !Sets(a, service) ==> (service in Next(s, a).statuses <==> service in s.statuses)
    ensures !Sets(a, service) && service in s.statuses ==>
      service in Next(s, a).statuses && Next(s, a).statuses[service] == s.statuses[service]
  {
  }

  /**
   * The statuses are those that were set: after a run a service has the last one that was set for it,
   * or what it had before if none was.
   */
  lemma {:induction false} StatusesAreLastSet(s: State, actions: seq<Action>, s': State, service: Service)
    requires Run(s, actions, s')
    ensures match LastSet(actions, service)
      case Some(status) => service in s'.statuses && s'.statuses[service] == status
      case None =>
        && (service in s'.statuses <==> service in s.statuses)
        && (service in s.statuses ==> s'.statuses[service] == s.statuses[service])
    decreases |actions|
  {
    if actions != [] {
      NextStatuses(s, actions[0], service);
      StatusesAreLastSet(Next(s, actions[0]), actions[1..], s', service);
    }
  }

  /** What the statuses have been is never rewritten, and the latest of it is what they are. */
  lemma {:induction false} HistoryOnlyGrows(s: State, actions: seq<Action>, s': State)
    requires Run(s, actions, s')
    requires s.history != [] && s.history[|s.history| - 1] == s.statuses
    ensures s.history <= s'.history && s'.history[|s'.history| - 1] == s'.statuses
    decreases |actions|
  {
    if actions != [] {
      HistoryOnlyGrows(Next(s, actions[0]), actions[1..], s');
    }
  }

  /** Leaving a watch never misses its entry: the dictionary lookup always succeeds. */
  lemma CleanupNeverMisses(s: State, id: WatchId)
    requires Reachable(s) && id < |s.watches| && !s.watches[id].phase.Closed?
    ensures !s.crashed
    ensures s.watches[id].service in s.watchers && id in s.watchers[s.watches[id].service]
  {
    ReachableInv(s);
    assert Registered(s, s.watches[id].service, id);
  }

  /** Once the watches have closed nothing is left of them in the dictionary. */
  lemma NoLeakedCallbacks(s: State)
    requires Reachable(s)
    requires forall id :: 0 <= id < |s.watches| ==> s.watches[id].phase.Closed?
    ensures s.watchers == map[]
  {
    ReachableInv(s);
    forall service
      ensures service !in s.watchers
    {
      assert forall id :: !Registered(s, service, id);
      assert Callbacks(s.watchers, service) == {};
    }
  }

  // ---------------------------------------------------------------- Output

  /**
   * Dropping the stutter keeps the first and the last element, never repeats one, and keeps
   * the elements in order: `starts` says where each run of equal elements begins.
   */
  lemma {:induction false} DestutterShape(xs: seq<Status>) returns (starts: seq<nat>)
    ensures |starts| == |Destutter(xs)|
    ensures forall k :: 0 <= k < |starts| ==> starts[k] < |xs| && Destutter(xs)[k] == xs[starts[k]]
    ensures forall j, k :: 0 <= j < k < |starts| ==> starts[j] < starts[k]
    ensures forall k :: 0 <= k < |Destutter(xs)| - 1 ==> Destutter(xs)[k] != Destutter(xs)[k + 1]
    ensures xs != [] ==> Destutter(xs) != [] && starts[0] == 0
    ensures xs != [] ==> Destutter(xs)[|Destutter(xs)| - 1] == xs[|xs| - 1]
  {
    if xs == [] {
      starts := [];
    } else {
      var n := |xs| - 1;
      starts := DestutterShape(xs[..n]);
      var front := Destutter(xs[..n]);
      if front == [] || front[|front| - 1] != xs[n] {
        starts := starts + [n];
      }
    }
  }

  /**
   * The statuses sent on one Watch begin with the first one read, never repeat one in a row, and
   * were the status of the service at ascending points of its history.
   */
  lemma WatchOutput(s: State, id: WatchId) returns (points: seq<nat>)
    requires Reachable(s) && id < |s.watches|
    ensures var sent := s.watches[id].sent;
      && |points| == |sent|
      && (forall k :: 0 <= k < |sent| ==>
            points[k] < |s.history| && IsStatusOf(sent[k], s.history[points[k]], s.watches[id].service))
      && Ascending(points)
      && (forall k :: 0 <= k < |sent| - 1 ==> sent[k] != sent[k + 1])
    ensures s.watches[id].processed != [] ==> points != [] && points[0] == s.watches[id].processed[0]
  {
    ReachableInv(s);
    var w := s.watches[id];
    assert WatchOk(s, id);
    var starts := DestutterShape(Readings(s.history, w.service, w.processed));
    points := seq(|starts|, k requires 0 <= k < |starts| => w.processed[starts[k]]);
    forall k | 0 <= k < |w.sent|
      ensures IsStatusOf(w.sent[k], s.history[points[k]], w.service)
    {
      ShownIsStatus(s.history[points[k]], w.service);
    }
  }

  // ---------------------------------------------------------------- Convergence

  /** Every step but a new status and a new watch. */
  predicate Internal(a: Action) {
    !a.SetStatus? && !a.Open?
  }

  function PhaseWeight(phase: Phase): nat {
    match phase
    case Closed => 0
    case Parked(_) => 1
    case Sent => 2
    case Yielded(_, _) => 3
    case Reading => 4
    case Resetting => 5
  }

  /** How many steps a watch can still take, counting a wakeup for the turn of the loop it causes. */
  function Weight(w: Watch): nat {
    if w.loopClosed then 0
    else
      1 + PhaseWeight(w.phase) + 6 * w.queued
      + (if w.waiter.current in w.waiter.fired && !w.phase.Resetting? && !w.phase.Closed? then 5 else 0)
  }

  function WatchesWeight(watches: seq<Watch>): nat {
    if watches == [] then 0
    else WatchesWeight(watches[..|watches| - 1]) + Weight(watches[|watches| - 1])
  }

  function SettersWeight(setters: seq<seq<WatchId>>): nat {
    if setters == [] then 0
    else SettersWeight(setters[..|setters| - 1]) + 7 * |setters[|setters| - 1]|
  }

  function Measure(s: State): nat {
    WatchesWeight(s.watches) + SettersWeight(s.setters)
  }

  lemma {:induction false} WatchesWeightUpdate(watches: seq<Watch>, id: nat, w: Watch)
    requires id < |watches|
    ensures WatchesWeight(watches[id := w]) + Weight(watches[id]) == WatchesWeight(watches) + Weight(w)
  {
    var n := |watches| - 1;
    if id == n {
      assert watches[id := w][..n] == watches[..n];
    } else {
      assert watches[id := w][..n] == watches[..n][id := w];
      WatchesWeightUpdate(watches[..n], id, w);
    }
  }

  lemma {:induction false} SettersWeightFire(setters: seq<seq<WatchId>>, t: nat)
    requires t < |setters| && setters[t] != []
    ensures SettersWeight(setters[t := setters[t][1..]]) + 7 == SettersWeight(setters)
  {
    var n := |setters| - 1;
    var after := setters[t := setters[t][1..]];
    if t == n {
      assert after[..n] == setters[..n];
    } else {
      assert after[..n] == setters[..n][t := setters[t][1..]];
      SettersWeightFire(setters[..n], t);
    }
  }

  lemma NotifiedWeight(w: Watch)
    ensures Weight(Notified(w)) <= Weight(w) + 6
  {
  }

  lemma StepWeight(s: State, a: Action)
    requires Enabled(s, a) && Internal(a) && !a.Fire?
    requires WaiterOk(s.watches[a.id])
    ensures Next(s, a).watches == s.watches[a.id := Next(s, a).watches[a.id]]
    ensures Weight(Next(s, a).watches[a.id]) < Weight(s.watches[a.id])
  {
  }

  lemma InternalStepDecreases(s: State, a: Action)
    requires Inv(s) && Enabled(s, a) && Internal(a)
    ensures Measure(Next(s, a)) < Measure(s)
  {
    if a.Fire? {
      var id := s.setters[a.setter][0];
      NotifiedWeight(s.watches[id]);
      WatchesWeightUpdate(s.watches, id, Notified(s.watches[id]));
      SettersWeightFire(s.setters, a.setter);
    } else {
      assert WatchOk(s, a.id);
      StepWeight(s, a);
      WatchesWeightUpdate(s.watches, a.id, Next(s, a).watches[a.id]);
    }
  }

  /** A run without new statuses and new watches is no longer than the measure it starts from. */
  lemma {:induction false} InternalRunsAreBounded(s: State, actions: seq<Action>, s': State)
    requires Inv(s) && Run(s, actions, s')
    requires forall k :: 0 <= k < |actions| ==> Internal(actions[k])
    ensures |actions| + Measure(s') <= Measure(s)
    decreases |actions|
  {
    if actions != [] {
      assert Internal(actions[0]);
      InternalStepDecreases(s, actions[0]);
      NextKeepsInv(s, actions[0]);
      InternalRunsAreBounded(Next(s, actions[0]), actions[1..], s');
    }
  }

  /** No loop or thread has anything left to do; only closing a watch or a new status can happen. */
  ghost predicate Quiescent(s: State) {
    forall a :: Internal(a) && !a.Close? && !a.CloseLoop? ==> !Enabled(s, a)
  }

  lemma QuiescentWatchIsParked(s: State, id: WatchId)
    requires Inv(s) && Quiescent(s) && Running(s, id) && !s.watches[id].phase.Closed?
    ensures s.watches[id].phase.Parked? && Unnotified(s, id)
  {
    var w := s.watches[id];
    assert WatchOk(s, id);
    assert !Enabled(s, Reset(id)) && !Enabled(s, Read(id)) && !Enabled(s, Send(id)) && !Enabled(s, Park(id));
    assert !Enabled(s, Wake(id)) && !Enabled(s, Deliver(id));
    if Pending(s.setters, id) {
      var t, k :| 0 <= t < |s.setters| && 0 <= k < |s.setters[t]| && s.setters[t][k] == id;
      assert Enabled(s, Fire(t));
    }
  }

  /**
   * Convergence: from any reachable state, once statuses stop changing, every schedule comes to
   * rest within `Measure` steps, and then every open watch has last sent the current status.
   */
  lemma Convergence(s: State, actions: seq<Action>, s': State)
    requires Reachable(s) && Run(s, actions, s')
    requires forall k :: 0 <= k < |actions| ==> Internal(actions[k])
    ensures |actions| <= Measure(s)
    ensures Quiescent(s') ==>
      forall id :: 0 <= id < |s'.watches| && Running(s', id) && !s'.watches[id].phase.Closed? ==>
        && s'.watches[id].sent != []
        && IsStatusOf(s'.watches[id].sent[|s'.watches[id].sent| - 1], s'.statuses, s'.watches[id].service)
  {
    ReachableInv(s);
    InternalRunsAreBounded(s, actions, s');
    RunKeepsInv(s, actions, s');
    if Quiescent(s') {
      forall id | 0 <= id < |s'.watches| && Running(s', id) && !s'.watches[id].phase.Closed?
        ensures s'.watches[id].sent != []
        ensures IsStatusOf(s'.watches[id].sent[|s'.watches[id].sent| - 1], s'.statuses, s'.watches[id].service)
      {
        QuiescentWatchIsParked(s', id);
        assert WatchOk(s', id);
        LastReadingIsLastSent(s', id);
        ShownIsStatus(s'.statuses, s'.watches[id].service);
      }
    }
  }
}
