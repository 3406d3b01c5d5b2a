/** Hoisting metadata interceptors out of the call chain, compared with nesting them in it. */
module Hoisting {
  import opened Common
  import opened Exceptions
  import opened Interceptors

  // ---------------------------------------------------------------- Nested hooks on a stack

  /** The hooks nested around a body. */
  function NestHooks<S, T, Req, Res>(
      form: Form, hs: seq<Hooks<S, T>>, body: Call<S, T, Req, Res>)
    : Call<S, T, Req, Res>
  {
    if hs == [] then body else Invoke(form, hs[0], NestHooks(form, hs[1..], body))
  }

  /** How nested hooks end: each sees the outcome that the ones within it left. */
  function EndNested<S, T, Res>(form: Form, stack: seq<Frame<S, T>>, outcome: Outcome<Res>, w: World<S, T>)
    : (World<S, T>, Outcome<Res>)
    decreases |stack|
  {
    if stack == [] then (w, outcome)
    else
      var top, rest := stack[|stack| - 1], stack[..|stack| - 1];
      var (w1, ended) := End(top.hooks, top.token, NestedError(form, outcome), w);
      EndNested(form, rest, if ended.Return? then outcome else Thrown(ended), w1)
  }

  /** The bottom of a stack ends last. */
  lemma {:induction false} EndNestedBottom<S, T, Res>(
      form: Form, bottom: Frame<S, T>, stack: seq<Frame<S, T>>, outcome: Outcome<Res>, w: World<S, T>)
    ensures var (w1, o) := EndNested(form, stack, outcome, w);
      EndNested(form, [bottom] + stack, outcome, w) == EndNested(form, [bottom], o, w1)
    decreases |stack|
  {
    var whole := [bottom] + stack;
    if stack == [] {
      assert whole == [bottom];
    } else {
      var top, rest := stack[|stack| - 1], stack[..|stack| - 1];
      assert whole[|whole| - 1] == top && whole[..|whole| - 1] == [bottom] + rest;
      var (w1, ended) := End(top.hooks, top.token, NestedError(form, outcome), w);
      EndNestedBottom(form, bottom, rest, if ended.Return? then outcome else Thrown(ended), w1);
    }
  }

  lemma EndNestedOne<S, T, Res>(form: Form, frame: Frame<S, T>, outcome: Outcome<Res>, w: World<S, T>)
    ensures var (w1, ended) := End(frame.hooks, frame.token, NestedError(form, outcome), w);
      EndNested(form, [frame], outcome, w) == (w1, if ended.Return? then outcome else Thrown(ended))
  {
    assert [frame][..0] == [];
  }

  lemma NestHooksStep<S, T, Req, Res>(
      form: Form, hs: seq<Hooks<S, T>>, body: Call<S, T, Req, Res>, req: Req, w: World<S, T>)
    requires hs != []
    ensures var (w1, started) := Start(hs[0], w);
      NestHooks(form, hs, body)(req, w) ==
        if !started.Return? then (w1, Thrown(started))
        else
          var (w2, result) := NestHooks(form, hs[1..], body)(req, w1);
          var (w3, ended) := End(hs[0], started.value, NestedError(form, result), w2);
          (w3, if ended.Return? then result else Thrown(ended))
  {
  }

  lemma BodyStep<S, T, Req, Res>(hs: seq<Hooks<S, T>>, body: Call<S, T, Req, Res>, req: Req, w: World<S, T>)
    requires hs != []
    ensures var (w1, started) := Start(hs[0], w);
      Body(hs, body, req, w) ==
        if !started.Return? then ([], w1, Thrown(started))
        else
          var (stack, w2, outcome) := Body(hs[1..], body, req, w1);
          ([Frame(hs[0], started.value)] + stack, w2, outcome)
  {
  }

  /** Nested calls start their hooks in order, run the body, and end the hooks in reverse. */
  lemma {:induction false} NestedIsEndNested<S, T, Req, Res>(
      form: Form, hs: seq<Hooks<S, T>>, body: Call<S, T, Req, Res>, req: Req, w: World<S, T>)
    ensures var (started, w1, outcome) := Body(hs, body, req, w);
      NestHooks(form, hs, body)(req, w) == EndNested(form, started, outcome, w1)
    decreases |hs|
  {
    if hs != [] {
      NestHooksStep(form, hs, body, req, w);
      BodyStep(hs, body, req, w);
      var (w1, started) := Start(hs[0], w);
      if started.Return? {
        NestedIsEndNested(form, hs[1..], body, req, w1);
        var (stack, w2, outcome) := Body(hs[1..], body, req, w1);
        var (w3, o) := EndNested(form, stack, outcome, w2);
        EndNestedBottom(form, Frame(hs[0], started.value), stack, outcome, w2);
        EndNestedOne(form, Frame(hs[0], started.value), o, w3);
      }
    }
  }

  lemma {:induction false} NestLeading<S, T, Req, Res>(
      form: Form, list: seq<Interceptor<S, T, Req, Res>>, endpoint: Call<S, T, Req, Res>)
    ensures Nest(form, list, endpoint) == NestHooks(form, Leading(list), Nest(form, list[|Leading(list)|..], endpoint))
    decreases |list|
  {
    if list != [] && list[0].Metadata? {
      var n := |Leading(list[1..])|;
      assert list[1..][n..] == list[n + 1..];
      NestLeading(form, list[1..], endpoint);
    }
  }

  // ---------------------------------------------------------------- What the hooks see

  /** Unless a hook is interrupted, both forms unwind alike; from an interruption on they do not. */
  lemma {:induction false} EndNestedIsUnwind<S, T, Res>(
      stack: seq<Frame<S, T>>, outcome: Outcome<Res>, cancelled: bool, w: World<S, T>)
    requires !outcome.Interrupted?
    ensures var u := Unwind(stack, NestedError(Async, outcome), cancelled, w);
      var (w1, o) := EndNested(Async, stack, outcome, w);
      if u.interrupted then (w1, o) == EndNested(Async, u.rest, Interrupted, u.world)
      else w1 == u.world && NestedError(Async, o) == u.error && !o.Interrupted?
    decreases |stack|
  {
    if stack != [] {
      var top, rest := stack[|stack| - 1], stack[..|stack| - 1];
      var (w1, ended) := End(top.hooks, top.token, NestedError(Async, outcome), w);
      if !ended.Interrupted? {
        EndNestedIsUnwind(rest, if ended.Return? then outcome else Thrown(ended), cancelled || ended.Cancelled?, w1);
      }
    }
  }

  lemma {:induction false} EndNestedIsUnwindSync<S, T, Res>(
      stack: seq<Frame<S, T>>, outcome: Outcome<Res>, w: World<S, T>)
    requires outcome.Return? || outcome.Raise?
    ensures var u := UnwindSync(stack, ErrorOf(outcome), w);
      var (w1, o) := EndNested(Sync, stack, outcome, w);
      if u.outcome.Return? then w1 == u.world && ErrorOf(o) == u.outcome.value && (o.Return? ==> o == outcome)
      else
        && (u.outcome.Cancelled? || u.outcome.Interrupted?)
        && (w1, o) == EndNested(Sync, u.rest, Thrown(u.outcome), u.world)
    ensures UnwindSync(stack, ErrorOf(outcome), w).outcome.Return? ==>
      var o := EndNested(Sync, stack, outcome, w).1;
      o.Return? || o.Raise?
    decreases |stack|
  {
    if stack != [] {
      var top, rest := stack[|stack| - 1], stack[..|stack| - 1];
      var (w1, ended) := End(top.hooks, top.token, ErrorOf(outcome), w);
      if ended.Return? || ended.Raise? {
        EndNestedIsUnwindSync(rest, if ended.Return? then outcome else Thrown(ended), w1);
      }
    }
  }

  /** The log goes on from `before`, with a hook that was given this error. */
  ghost predicate NextIsGiven<T>(before: seq<Event<T>>, log: seq<Event<T>>, error: Option<Exn>) {
    && |before| < |log| && log[..|before|] == before
    && log[|before|].Ended? && log[|before|].error == error
  }

  lemma {:induction false} EndNestedLogs<S, T, Res>(
      form: Form, stack: seq<Frame<S, T>>, outcome: Outcome<Res>, w: World<S, T>)
    ensures var log := EndNested(form, stack, outcome, w).0.log;
      if stack == [] then log == w.log else NextIsGiven(w.log, log, NestedError(form, outcome))
    decreases |stack|
  {
    if stack != [] {
      var top, rest := stack[|stack| - 1], stack[..|stack| - 1];
      var (w1, ended) := End(top.hooks, top.token, NestedError(form, outcome), w);
      EndNestedLogs(form, rest, if ended.Return? then outcome else Thrown(ended), w1);
    }
  }

  lemma {:induction false} UnwindLogs<S, T>(
      stack: seq<Frame<S, T>>, error: Option<Exn>, cancelled: bool, w: World<S, T>)
    ensures var log := Unwind(stack, error, cancelled, w).world.log;
      if stack == [] then log == w.log else NextIsGiven(w.log, log, error)
    decreases |stack|
  {
    if stack != [] {
      var top, rest := stack[|stack| - 1], stack[..|stack| - 1];
      var (w1, outcome) := End(top.hooks, top.token, error, w);
      UnwindLogs(rest, Replaced(error, outcome), cancelled || outcome.Cancelled?, w1);
    }
  }

  lemma {:induction false} UnwindSyncLogs<S, T>(stack: seq<Frame<S, T>>, error: Option<Exn>, w: World<S, T>)
    ensures var log := UnwindSync(stack, error, w).world.log;
      if stack == [] then log == w.log else NextIsGiven(w.log, log, error)
    decreases |stack|
  {
    if stack != [] {
      var top, rest := stack[|stack| - 1], stack[..|stack| - 1];
      var (w1, outcome) := End(top.hooks, top.token, error, w);
      UnwindSyncLogs(rest, Replaced(error, outcome), w1);
    }
  }

  /** The error that the first hook to end is given, hoisted: what the request has saved by then. */
  function FirstGiven<Res>(outcome: Outcome<Res>, own: Option<Exn>): Option<Exn> {
    SavedError(Plain(outcome), ErrorOf(outcome), own)
  }

  /**
   * When hooks see the same in both forms: nothing started; or the outcome of the endpoint, which the
   * first nested hook to end is given, and what the request makes of it, which the first hoisted one
   * is, are the same error, and no hook is interrupted but the last to end.
   */
  ghost predicate SeesTheSame<S, T, Res>(
      started: seq<Frame<S, T>>, outcome: Outcome<Res>, exit: Outcome<()>, own: Option<Exn>, w: World<S, T>)
  {
    || started == []
    || (&& NestedError(Async, outcome) == FirstGiven(AfterExit(outcome, exit), own)
        && Unwind(started, NestedError(Async, outcome), false, w).rest == [])
  }

  /** With a clean exit, the errors differ for interruptions, and for the scope's own cancellations. */
  lemma FirstErrorIsTheSame<Res>(outcome: Outcome<Res>, own: Option<Exn>)
    ensures NestedError(Async, outcome) == FirstGiven(outcome, own) <==>
      !outcome.Interrupted? && (outcome.Cancelled? ==> own.None? || own == Some(CANCELED))
  {
  }

  /** Where hoisted hooks stop being like a plain unwinding: at the first that is interrupted. */
  lemma EndRequestIsUnwind<S, T, Res>(
      started: seq<Frame<S, T>>, outcome: Outcome<Res>, own: Option<Exn>, w: World<S, T>)
    ensures var u := Unwind(started, FirstGiven(outcome, own), false, w);
      EndRequest(started, outcome, own, w).0 ==
        if outcome.Return? || outcome.Raise? then Unwind(u.rest, Some(INTERRUPTED), false, u.world).world
        else u.world
  {
    RestIsInterrupted(started, FirstGiven(outcome, own), false, w);
  }

  /** The same hooks run with the same errors and come out alike exactly under that condition. */
  lemma HooksSeeTheSame<S, T, Res>(
      started: seq<Frame<S, T>>, outcome: Outcome<Res>, exit: Outcome<()>, own: Option<Exn>, w: World<S, T>)
    ensures EndNested(Async, started, outcome, w).0 == EndRequest(started, AfterExit(outcome, exit), own, w).0 <==>
      SeesTheSame(started, outcome, exit, own, w)
  {
    var nested, first := NestedError(Async, outcome), FirstGiven(AfterExit(outcome, exit), own);
    var u := Unwind(started, first, false, w);
    EndRequestIsUnwind(started, AfterExit(outcome, exit), own, w);
    UnwindLogs(started, first, false, w);
    UnwindLogs(u.rest, Some(INTERRUPTED), false, u.world);
    if nested != first {
      EndNestedLogs(Async, started, outcome, w);
    } else {
      EndNestedIsUnwind(started, outcome, false, w);
      RestIsInterrupted(started, nested, false, w);
      var interrupted: Outcome<Res> := Interrupted;
      EndNestedLogs(Async, u.rest, interrupted, u.world);
    }
  }

  lemma {:induction false} RestIsInterrupted<S, T>(
      stack: seq<Frame<S, T>>, error: Option<Exn>, cancelled: bool, w: World<S, T>)
    ensures var u := Unwind(stack, error, cancelled, w);
      u.rest != [] ==> u.interrupted
    decreases |stack|
  {
    if stack != [] {
      var top, rest := stack[|stack| - 1], stack[..|stack| - 1];
      var (w1, outcome) := End(top.hooks, top.token, error, w);
      if !outcome.Interrupted? {
        RestIsInterrupted(rest, Replaced(error, outcome), cancelled || outcome.Cancelled?, w1);
      }
    }
  }

  // ---------------------------------------------------------------- How the request comes out

  function OutcomeOf<T>(event: Event<T>): Outcome<()> {
    if event.Ended? then event.outcome else Return(())
  }

  function Outcomes<T>(events: seq<Event<T>>): seq<Outcome<()>> {
    seq(|events|, k requires 0 <= k < |events| => OutcomeOf(events[k]))
  }

  lemma OutcomesCons<T>(event: Event<T>, more: seq<Event<T>>)
    ensures Outcomes([event] + more) == [OutcomeOf(event)] + Outcomes(more)
  {
  }

  lemma OutcomesAppend<T>(events: seq<Event<T>>, more: seq<Event<T>>)
    ensures Outcomes(events + more) == Outcomes(events) + Outcomes(more)
  {
  }

  /** The last of these that did not return, or else a return. */
  function LastFailure(outcomes: seq<Outcome<()>>): Outcome<()> {
    if outcomes == [] then Return(())
    else if !outcomes[|outcomes| - 1].Return? then outcomes[|outcomes| - 1]
    else LastFailure(outcomes[..|outcomes| - 1])
  }

  /** The last that did not return raised an ordinary exception, and one before it was cancelled. */
  predicate RaisesAfterCancelled(outcomes: seq<Outcome<()>>) {
    exists j, k :: 0 <= j < k < |outcomes| && outcomes[j].Cancelled? && IsLastFailure(outcomes, k) && outcomes[k].Raise?
  }

  predicate IsLastFailure(outcomes: seq<Outcome<()>>, k: nat)
    requires k < |outcomes|
  {
    !outcomes[k].Return? && forall i :: k < i < |outcomes| ==> outcomes[i].Return?
  }

  predicate AnyIsCancelled(outcomes: seq<Outcome<()>>) {
    exists k :: 0 <= k < |outcomes| && outcomes[k].Cancelled?
  }

  /**
   * When a request comes out the same in both forms, given how its body and its hooks came out.
   *
   * A cancellation from outside: no hook raises after the last one. The scope's own, of a hook: the
   * nested request reports the last exception, or the scope's error if a cancellation is last; the
   * hoisted one reports the exception of the body, or the scope's error if it had none. The scope's
   * own, of the body: a hook that is cancelled after the scope has been left cancels the request.
   */
  predicate ComesOutTheSame<Res>(body: Outcome<Res>, hooks: seq<Outcome<()>>, own: Option<Exn>) {
    if own.None? then !RaisesAfterCancelled([Plain(body)] + hooks)
    else if !AnyIsCancelled(hooks) || LastFailure(hooks).Interrupted? then true
    else !body.Cancelled? && ErrorOr(LastFailure(hooks), own.value) == ErrorOr(Plain(body), own.value)
  }

  function ErrorOr(outcome: Outcome<()>, own: Exn): Exn {
    if outcome.Raise? then outcome.error else own
  }

  lemma {:induction false} LastFailureIs(outcomes: seq<Outcome<()>>) returns (k: int)
    ensures if LastFailure(outcomes).Return? then
        LastFailure(outcomes) == Return(()) && forall i :: 0 <= i < |outcomes| ==> outcomes[i].Return?
      else 0 <= k < |outcomes| && IsLastFailure(outcomes, k) && outcomes[k] == LastFailure(outcomes)
    decreases |outcomes|
  {
    k := |outcomes| - 1;
    if outcomes != [] && outcomes[k].Return? {
      var n := k;
      k := LastFailureIs(outcomes[..n]);
    }
  }

  /** Of a last failure that raised, an earlier cancellation is any cancellation. */
  lemma RaisesAfterCancelledIff(outcomes: seq<Outcome<()>>)
    ensures RaisesAfterCancelled(outcomes) <==> LastFailure(outcomes).Raise? && AnyIsCancelled(outcomes)
  {
    var k := LastFailureIs(outcomes);
    if LastFailure(outcomes).Raise? && AnyIsCancelled(outcomes) {
      var j :| 0 <= j < |outcomes| && outcomes[j].Cancelled?;
      assert j < k;
      assert RaisesAfterCancelled(outcomes);
    }
    if RaisesAfterCancelled(outcomes) {
      var j, m :| 0 <= j < m < |outcomes| && outcomes[j].Cancelled? && IsLastFailure(outcomes, m) && outcomes[m].Raise?;
      assert m == k;
    }
  }

  lemma {:induction false} LastFailureAfter(first: Outcome<()>, outcomes: seq<Outcome<()>>)
    ensures LastFailure([first] + outcomes) ==
      if !LastFailure(outcomes).Return? then LastFailure(outcomes) else if first.Return? then Return(()) else first
    decreases |outcomes|
  {
    var all := [first] + outcomes;
    if outcomes == [] {
      assert all[..0] == [];
    } else {
      var n := |outcomes| - 1;
      assert all[..n + 1] == [first] + outcomes[..n];
      LastFailureAfter(first, outcomes[..n]);
    }
  }

  /** The last failure of the hooks replaces the outcome. */
  function AfterFailures<Res>(body: Outcome<Res>, hooks: seq<Outcome<()>>): Outcome<Res> {
    if LastFailure(hooks).Return? then body else Thrown(LastFailure(hooks))
  }

  /** A hook that returns leaves the outcome as it is, and any other replaces it. */
  lemma FailureStep<Res>(outcome: Outcome<Res>, ended: Outcome<()>, hooks: seq<Outcome<()>>)
    ensures AfterFailures(outcome, [ended] + hooks) ==
      AfterFailures(if ended.Return? then outcome else Thrown(ended), hooks)
  {
    LastFailureAfter(ended, hooks);
  }

  /** Nested hooks leave the last failure, of the body's outcome and their own. */
  lemma {:induction false} EndNestedTrace<S, T, Res>(
      form: Form, stack: seq<Frame<S, T>>, outcome: Outcome<Res>, w: World<S, T>)
    returns (events: seq<Event<T>>)
    ensures EndNested(form, stack, outcome, w).0.log == w.log + events
    ensures EndNested(form, stack, outcome, w).1 == AfterFailures(outcome, Outcomes(events))
    decreases |stack|
  {
    if stack == [] {
      events := [];
    } else {
      var top, rest := stack[|stack| - 1], stack[..|stack| - 1];
      var (w1, ended) := End(top.hooks, top.token, NestedError(form, outcome), w);
      var more := EndNestedTrace(form, rest, if ended.Return? then outcome else Thrown(ended), w1);
      var first := Ended(top.hooks.id, top.token, NestedError(form, outcome), ended);
      events := [first] + more;
      OutcomesCons(first, more);
      FailureStep(outcome, ended, Outcomes(more));
    }
  }

  /** Nested hooks are called in reverse, each in the state that the one before it left. */
  lemma {:induction false} EndNestedCalls<S, T, Res>(
      form: Form, stack: seq<Frame<S, T>>, outcome: Outcome<Res>, w: World<S, T>)
    returns (events: seq<Event<T>>, states: seq<S>)
    ensures EndNested(form, stack, outcome, w).0.log == w.log + events
    ensures AreCalls(stack, events, states, w.state, EndNested(form, stack, outcome, w).0.state)
    ensures EndsInReverse(stack, events, [])
    decreases |stack|
  {
    if stack == [] {
      events, states := [], [w.state];
    } else {
      var top, rest := stack[|stack| - 1], stack[..|stack| - 1];
      var (w1, ended) := End(top.hooks, top.token, NestedError(form, outcome), w);
      var more, after := EndNestedCalls(form, rest, if ended.Return? then outcome else Thrown(ended), w1);
      var first := Ended(top.hooks.id, top.token, NestedError(form, outcome), ended);
      events, states := [first] + more, [w.state] + after;
      ConsEvent(stack, first, more, []);
      CallsCons(stack, first, more, w.state, after, w1.state, EndNested(form, stack, outcome, w).0.state);
    }
  }

  lemma AnyIsCancelledCons(first: Outcome<()>, outcomes: seq<Outcome<()>>)
    ensures AnyIsCancelled([first] + outcomes) <==> first.Cancelled? || AnyIsCancelled(outcomes)
  {
    var all := [first] + outcomes;
    if first.Cancelled? {
      assert all[0].Cancelled?;
    } else if AnyIsCancelled(outcomes) {
      var k :| 0 <= k < |outcomes| && outcomes[k].Cancelled?;
      assert all[k + 1].Cancelled?;
    }
  }

  lemma UnwindCancelled<S, T>(stack: seq<Frame<S, T>>, error: Option<Exn>, w: World<S, T>, events: seq<Event<T>>)
    requires Unwind(stack, error, false, w).world.log == w.log + events
    ensures Unwind(stack, error, false, w).cancelled <==> AnyIsCancelled(Outcomes(events))
  {
    var trace, states := UnwindTrace(stack, error, false, w);
    assert trace == (w.log + events)[|w.log|..] == events;
    if AnyCancelled(events) {
      var k :| 0 <= k < |events| && events[k].outcome.Cancelled?;
      assert Outcomes(events)[k].Cancelled?;
    }
  }

  // ---------------------------------------------------------------- How a hoisted request comes out

  predicate AnyIsInterrupted(outcomes: seq<Outcome<()>>) {
    exists k :: 0 <= k < |outcomes| && outcomes[k].Interrupted?
  }

  /** The first interruption, or the number of outcomes if there is none. */
  function FirstInterrupted(outcomes: seq<Outcome<()>>): (k: nat)
    ensures k <= |outcomes| && (k < |outcomes| ==> outcomes[k].Interrupted?)
    ensures forall j :: 0 <= j < k ==> !outcomes[j].Interrupted?
  {
    if outcomes == [] || outcomes[0].Interrupted? then 0 else 1 + FirstInterrupted(outcomes[1..])
  }

  /** What hooks that end after the scope do to the outcome. */
  function AfterLateHooks<Res>(hooks: seq<Outcome<()>>, otherwise: Outcome<Res>): Outcome<Res> {
    if AnyIsInterrupted(hooks) then Interrupted
    else if AnyIsCancelled(hooks) then Cancelled
    else otherwise
  }

  /** The outcome of a hoisted request, given how its body and each of its hooks came out. */
  function Reported<Res>(body: Outcome<Res>, hooks: seq<Outcome<()>>, own: Option<Exn>): Outcome<Res> {
    if body.Return? || body.Raise? then
      var k := FirstInterrupted(hooks);
      if k < |hooks| then AfterLateHooks(hooks[k + 1..], Interrupted)
      else if AnyIsCancelled(hooks) && own.Some? then Raise(ErrorOr(Plain(body), own.value))
      else if AnyIsCancelled(hooks) then Cancelled
      else AfterFailures(body, hooks)
    else if body.Cancelled? && own.Some? then AfterLateHooks(hooks, Raise(ErrorOr(LastFailure(hooks), own.value)))
    else AfterLateHooks(hooks, body)
  }

  lemma AnyIsInterruptedCons(first: Outcome<()>, outcomes: seq<Outcome<()>>)
    ensures AnyIsInterrupted([first] + outcomes) <==> first.Interrupted? || AnyIsInterrupted(outcomes)
  {
    var all := [first] + outcomes;
    if first.Interrupted? {
      assert all[0].Interrupted?;
    } else if AnyIsInterrupted(outcomes) {
      var k :| 0 <= k < |outcomes| && outcomes[k].Interrupted?;
      assert all[k + 1].Interrupted?;
    }
  }

  /** Only the last hook to end can have been interrupted, and a cancellation is remembered. */
  lemma {:induction false} UnwindFlags<S, T>(
      stack: seq<Frame<S, T>>, error: Option<Exn>, cancelled: bool, w: World<S, T>)
    returns (events: seq<Event<T>>)
    ensures var u, hooks := Unwind(stack, error, cancelled, w), Outcomes(events);
      && u.world.log == w.log + events
      && (u.cancelled <==> cancelled || AnyIsCancelled(hooks))
      && (u.interrupted <==> AnyIsInterrupted(hooks))
      && FirstInterrupted(hooks) == (if u.interrupted then |hooks| - 1 else |hooks|)
    decreases |stack|
  {
    if stack == [] {
      events := [];
    } else {
      var top, rest := stack[|stack| - 1], stack[..|stack| - 1];
      var (w1, outcome) := End(top.hooks, top.token, error, w);
      var more := [];
      if !outcome.Interrupted? {
        more := UnwindFlags(rest, Replaced(error, outcome), cancelled || outcome.Cancelled?, w1);
      }
      var first, hooks := Ended(top.hooks.id, top.token, error, outcome), Outcomes(more);
      events := [first] + more;
      OutcomesCons(first, more);
      assert ([outcome] + hooks)[1..] == hooks;
      AnyIsCancelledCons(outcome, hooks);
      AnyIsInterruptedCons(outcome, hooks);
    }
  }

  lemma LastFailureCons(first: Outcome<()>, more: seq<Outcome<()>>, error: Option<Exn>)
    requires !first.Interrupted? && !LastFailure(more).Interrupted?
    ensures !LastFailure([first] + more).Interrupted?
    ensures Replaced(error, LastFailure([first] + more)) == Replaced(Replaced(error, first), LastFailure(more))
  {
    LastFailureAfter(first, more);
  }

  /** Unless a hook is interrupted, the last failure is what is left of the error. */
  lemma {:induction false} UnwindLastError<S, T>(
      stack: seq<Frame<S, T>>, error: Option<Exn>, cancelled: bool, w: World<S, T>)
    returns (events: seq<Event<T>>)
    requires !Unwind(stack, error, cancelled, w).interrupted
    ensures var u, last := Unwind(stack, error, cancelled, w), LastFailure(Outcomes(events));
      u.world.log == w.log + events && !last.Interrupted? && u.error == Replaced(error, last)
    decreases |stack|
  {
    if stack == [] {
      events := [];
    } else {
      var top, rest := stack[|stack| - 1], stack[..|stack| - 1];
      var (w1, outcome) := End(top.hooks, top.token, error, w);
      var more := UnwindLastError(rest, Replaced(error, outcome), cancelled || outcome.Cancelled?, w1);
      var first := Ended(top.hooks.id, top.token, error, outcome);
      events := [first] + more;
      OutcomesCons(first, more);
      LastFailureCons(outcome, Outcomes(more), error);
    }
  }

  /** How unwinding comes out, read off the hooks that it ended. */
  lemma UnwindReport<S, T>(stack: seq<Frame<S, T>>, error: Option<Exn>, cancelled: bool, w: World<S, T>)
    returns (events: seq<Event<T>>)
    ensures var u, hooks := Unwind(stack, error, cancelled, w), Outcomes(events);
      && u.world.log == w.log + events
      && (u.cancelled <==> cancelled || AnyIsCancelled(hooks))
      && (u.interrupted <==> AnyIsInterrupted(hooks))
      && FirstInterrupted(hooks) == (if u.interrupted then |hooks| - 1 else |hooks|)
      && (!u.interrupted ==> u.error == Replaced(error, LastFailure(hooks)))
  {
    events := UnwindFlags(stack, error, cancelled, w);
    if !Unwind(stack, error, cancelled, w).interrupted {
      var same := UnwindLastError(stack, error, cancelled, w);
      assert events == (w.log + events)[|w.log|..] == (w.log + same)[|w.log|..] == same;
    }
  }

  lemma {:induction false} FirstInterruptedAppend(a: seq<Outcome<()>>, b: seq<Outcome<()>>)
    requires FirstInterrupted(a) < |a|
    ensures FirstInterrupted(a + b) == FirstInterrupted(a)
    decreases |a|
  {
    assert (a + b)[0] == a[0];
    if !a[0].Interrupted? {
      assert (a + b)[1..] == a[1..] + b;
      FirstInterruptedAppend(a[1..], b);
    }
  }

  lemma NoneIsInterrupted(hooks: seq<Outcome<()>>)
    requires !AnyIsInterrupted(hooks)
    ensures FirstInterrupted(hooks) == |hooks| && !LastFailure(hooks).Interrupted?
    ensures !AnyIsCancelled(hooks) ==> !LastFailure(hooks).Cancelled?
  {
    var k := LastFailureIs(hooks);
  }

  /** Hooks of a body that was cancelled or interrupted end after the scope. */
  lemma LateReport<S, T, Res>(started: seq<Frame<S, T>>, body: Outcome<Res>, own: Option<Exn>, w: World<S, T>)
    returns (events: seq<Event<T>>)
    requires body.Cancelled? || body.Interrupted?
    ensures EndRequest(started, body, own, w).0.log == w.log + events
    ensures EndRequest(started, body, own, w).1 == Reported(body, Outcomes(events), own)
  {
    events := UnwindReport(started, SavedError(Plain(body), None, own), false, w);
    if !AnyIsInterrupted(Outcomes(events)) {
      NoneIsInterrupted(Outcomes(events));
    }
  }

  lemma ReportedAfterInterruption<Res>(
      body: Outcome<Res>, first: seq<Outcome<()>>, second: seq<Outcome<()>>, own: Option<Exn>)
    requires (body.Return? || body.Raise?) && first != [] && FirstInterrupted(first) == |first| - 1
    ensures Reported(body, first + second, own) == AfterLateHooks(second, Interrupted)
  {
    FirstInterruptedAppend(first, second);
    assert (first + second)[|first|..] == second;
  }

  lemma EndRequestInterrupted<S, T, Res>(
      started: seq<Frame<S, T>>, body: Outcome<Res>, own: Option<Exn>, w: World<S, T>)
    requires (body.Return? || body.Raise?) && Unwind(started, ErrorOf(body), false, w).interrupted
    ensures var u := Unwind(started, ErrorOf(body), false, w);
      var late := Unwind(u.rest, Some(INTERRUPTED), false, u.world);
      EndRequest(started, body, own, w) ==
        (late.world, if late.interrupted then Interrupted else if late.cancelled then Cancelled else Interrupted)
  {
  }

  /** An interruption within the scope leaves hooks that end after it. */
  lemma InterruptedReport<S, T, Res>(started: seq<Frame<S, T>>, body: Outcome<Res>, own: Option<Exn>, w: World<S, T>)
    returns (events: seq<Event<T>>)
    requires (body.Return? || body.Raise?) && Unwind(started, ErrorOf(body), false, w).interrupted
    ensures EndRequest(started, body, own, w).0.log == w.log + events
    ensures EndRequest(started, body, own, w).1 == Reported(body, Outcomes(events), own)
  {
    var u := Unwind(started, ErrorOf(body), false, w);
    var early := UnwindFlags(started, ErrorOf(body), false, w);
    var late := UnwindFlags(u.rest, Some(INTERRUPTED), false, u.world);
    events := early + late;
    assert w.log + events == (w.log + early) + late;
    var first, second := Outcomes(early), Outcomes(late);
    assert first != [] && FirstInterrupted(first) == |first| - 1;
    ReportedAfterInterruption(body, first, second, own);
    assert Outcomes(events) == first + second by {
      OutcomesAppend(early, late);
    }
    EndRequestInterrupted(started, body, own, w);
  }

  /** Otherwise the hooks of a body that returned, or raised an ordinary exception, end within the scope. */
  lemma EarlyReport<S, T, Res>(started: seq<Frame<S, T>>, body: Outcome<Res>, own: Option<Exn>, w: World<S, T>)
    returns (events: seq<Event<T>>)
    requires (body.Return? || body.Raise?) && !Unwind(started, ErrorOf(body), false, w).interrupted
    ensures EndRequest(started, body, own, w).0.log == w.log + events
    ensures EndRequest(started, body, own, w).1 == Reported(body, Outcomes(events), own)
  {
    events := UnwindReport(started, ErrorOf(body), false, w);
    RestIsInterrupted(started, ErrorOf(body), false, w);
    NoneIsInterrupted(Outcomes(events));
  }

  lemma HoistedReport<S, T, Res>(started: seq<Frame<S, T>>, body: Outcome<Res>, own: Option<Exn>, w: World<S, T>)
    returns (events: seq<Event<T>>)
    ensures EndRequest(started, body, own, w).0.log == w.log + events
    ensures EndRequest(started, body, own, w).1 == Reported(body, Outcomes(events), own)
  {
    if body.Cancelled? || body.Interrupted? {
      events := LateReport(started, body, own, w);
    } else if Unwind(started, ErrorOf(body), false, w).interrupted {
      events := InterruptedReport(started, body, own, w);
    } else {
      events := EarlyReport(started, body, own, w);
    }
  }

  // ---------------------------------------------------------------- The same outcome

  /** Only the last of these, if any, was interrupted. */
  predicate LastMayBeInterrupted(hooks: seq<Outcome<()>>) {
    FirstInterrupted(hooks) >= |hooks| - 1
  }

  lemma InterruptedLast(hooks: seq<Outcome<()>>)
    requires LastMayBeInterrupted(hooks)
    ensures LastFailure(hooks).Interrupted? <==> FirstInterrupted(hooks) < |hooks|
    ensures AnyIsInterrupted(hooks) <==> FirstInterrupted(hooks) < |hooks|
    ensures FirstInterrupted(hooks) < |hooks| ==> hooks[FirstInterrupted(hooks) + 1..] == []
  {
    var k := FirstInterrupted(hooks);
    if k < |hooks| {
      assert hooks[k].Interrupted?;
    } else {
      NoneIsInterrupted(hooks);
    }
  }

  lemma NoHooks()
    ensures !AnyIsInterrupted([]) && !AnyIsCancelled([]) && LastFailure([]) == Return(()) && FirstInterrupted([]) == 0
  {
  }

  /** Of the same hooks, around a body that was not interrupted. */
  lemma ReportedIsTheSame<Res>(body: Outcome<Res>, hooks: seq<Outcome<()>>, own: Option<Exn>)
    requires LastMayBeInterrupted(hooks) && (body.Interrupted? ==> hooks == [])
    ensures Reported(AfterFailures(body, hooks), [], own) == Reported(body, hooks, own) <==>
      ComesOutTheSame(body, hooks, own)
  {
    NoHooks();
    InterruptedLast(hooks);
    LastFailureAfter(Plain(body), hooks);
    RaisesAfterCancelledIff([Plain(body)] + hooks);
    AnyIsCancelledCons(Plain(body), hooks);
    var k := LastFailureIs(hooks);
  }

  /** Where the hooks see the same, the request comes out the same exactly under that condition. */
  lemma RequestComesOutTheSame<S, T, Res>(
      started: seq<Frame<S, T>>, outcome: Outcome<Res>, own: Option<Exn>, w: World<S, T>, events: seq<Event<T>>)
    requires SeesTheSame(started, outcome, Return(()), own, w)
    requires EndNested(Async, started, outcome, w).0.log == w.log + events
    ensures var (w1, o) := EndNested(Async, started, outcome, w);
      EndRequest([], o, own, w1).1 == EndRequest(started, outcome, own, w).1 <==>
      ComesOutTheSame(outcome, Outcomes(events), own)
  {
    HooksSeeTheSame(started, outcome, Return(()), own, w);
    var (w1, o) := EndNested(Async, started, outcome, w);
    var nested := EndNestedTrace(Async, started, outcome, w);
    var hoisted := HoistedReport(started, outcome, own, w);
    assert events == (w.log + events)[|w.log|..] == (w.log + nested)[|w.log|..] == nested;
    assert hoisted == (w.log + hoisted)[|w.log|..] == events;
    var none := HoistedReport([], o, own, w1);
    assert none == [] && Outcomes(none) == [];
    LastOfUnwinding(started, outcome, own, w, events);
    ReportedIsTheSame(outcome, Outcomes(events), own);
  }

  lemma LastOfUnwinding<S, T, Res>(
      started: seq<Frame<S, T>>, outcome: Outcome<Res>, own: Option<Exn>, w: World<S, T>, events: seq<Event<T>>)
    requires SeesTheSame(started, outcome, Return(()), own, w)
    requires EndNested(Async, started, outcome, w).0.log == w.log + events
    ensures LastMayBeInterrupted(Outcomes(events)) && (outcome.Interrupted? ==> events == [])
  {
    if started == [] {
      assert w.log + events == w.log;
    } else {
      var u := Unwind(started, NestedError(Async, outcome), false, w);
      EndNestedIsUnwind(started, outcome, false, w);
      var same := UnwindFlags(started, NestedError(Async, outcome), false, w);
      assert events == (w.log + events)[|w.log|..] == (w.log + same)[|w.log|..] == same;
    }
  }

  // ---------------------------------------------------------------- Hoisting preserves meaning

  /**
   * What a server does between the start and the end of hoisted hooks: it reads the request, and
   * calls the endpoint, if it could be read, within a watch whose exit can throw.
   */
  function Reading<S, T, Req, Res>(read: Outcome<Req>, endpoint: Call<S, T, Req, Res>, exit: Outcome<()>)
    : Call<S, T, (), Res>
  {
    (q: (), w: World<S, T>) =>
      if !read.Return? then (w, Thrown(read))
      else
        var (w1, outcome) := endpoint(read.value, w);
        (w1, AfterExit(outcome, exit))
  }

  /** A request whose interceptors are all nested around the endpoint. */
  function ServeNested<S, T, Req, Res>(
      list: seq<Interceptor<S, T, Req, Res>>, endpoint: Call<S, T, Req, Res>, read: Outcome<Req>, exit: Outcome<()>,
      own: Option<Exn>, w: World<S, T>)
    : (World<S, T>, Outcome<Res>)
  {
    Serve([], Reading(read, Nest(Async, list, endpoint), exit), (), own, w)
  }

  /** What is left of the chain when its leading metadata interceptors are hoisted. */
  function Remaining<S, T, Req, Res>(form: Form, list: seq<Interceptor<S, T, Req, Res>>, endpoint: Call<S, T, Req, Res>)
    : Call<S, T, Req, Res>
  {
    Nest(form, list[|Leading(list)|..], endpoint)
  }

  function ServeHoisted<S, T, Req, Res>(
      list: seq<Interceptor<S, T, Req, Res>>, endpoint: Call<S, T, Req, Res>, read: Outcome<Req>, exit: Outcome<()>,
      own: Option<Exn>, w: World<S, T>)
    : (World<S, T>, Outcome<Res>)
  {
    Serve(Leading(list), Reading(read, Remaining(Async, list, endpoint), exit), (), own, w)
  }

  /** The watch is entered when all hooks have started; a hook that fails leaves nothing to exit. */
  function ExitOf<S, T>(hs: seq<Hooks<S, T>>, w: World<S, T>, exit: Outcome<()>): Outcome<()> {
    if StartAll(hs, w).outcome.Return? then exit else Return(())
  }

  lemma ServeNestedIs<S, T, Req, Res>(
      list: seq<Interceptor<S, T, Req, Res>>, endpoint: Call<S, T, Req, Res>, read: Outcome<Req>, exit: Outcome<()>,
      own: Option<Exn>, w: World<S, T>)
    requires read.Return?
    ensures var (started, w1, outcome) := Body(Leading(list), Remaining(Async, list, endpoint), read.value, w);
      var (w2, o) := EndNested(Async, started, outcome, w1);
      ServeNested(list, endpoint, read, exit, own, w) == EndRequest([], AfterExit(o, exit), own, w2)
  {
    NestLeading(Async, list, endpoint);
    NestedIsEndNested(Async, Leading(list), Remaining(Async, list, endpoint), read.value, w);
  }

  lemma ServeHoistedIs<S, T, Req, Res>(
      list: seq<Interceptor<S, T, Req, Res>>, endpoint: Call<S, T, Req, Res>, read: Outcome<Req>, exit: Outcome<()>,
      own: Option<Exn>, w: World<S, T>)
    requires read.Return?
    ensures var (started, w1, outcome) := Body(Leading(list), Remaining(Async, list, endpoint), read.value, w);
      ServeHoisted(list, endpoint, read, exit, own, w) ==
        EndRequest(started, AfterExit(outcome, ExitOf(Leading(list), w, exit)), own, w1)
  {
  }

  /** Starting hooks is seen in the log, and nothing takes it back. */
  lemma StartAllLogs<S, T>(hs: seq<Hooks<S, T>>, w: World<S, T>)
    ensures w.log <= StartAll(hs, w).world.log
    ensures hs != [] ==> |StartAll(hs, w).world.log| > |w.log|
    decreases |hs|
  {
    if hs != [] {
      StartAllLogs(hs[1..], Start(hs[0], w).0);
    }
  }

  /** A request that can't be read: nested, no hook runs; hoisted, all that lead the list do. */
  lemma UnreadIsSeen<S, T, Req, Res>(
      list: seq<Interceptor<S, T, Req, Res>>, endpoint: Call<S, T, Req, Res>, read: Outcome<Req>, exit: Outcome<()>,
      own: Option<Exn>, w: World<S, T>)
    requires !read.Return?
    ensures ServeNested(list, endpoint, read, exit, own, w) == (w, Reported(Thrown(read), [], own))
    ensures ServeNested(list, endpoint, read, exit, own, w).0 == ServeHoisted(list, endpoint, read, exit, own, w).0
      <==> Leading(list) == []
  {
    var (started, w1, outcome) := Body(Leading(list), Reading(read, Remaining(Async, list, endpoint), exit), (), w);
    StartAllLogs(Leading(list), w);
    var events := HoistedReport(started, outcome, own, w1);
    var thrown: Outcome<Res> := Thrown(read);
    var none := HoistedReport([], thrown, own, w);
  }

  /**
   * Hoisting preserves meaning: for any list, endpoint and hooks, whatever the request reads and
   * whatever cancels it, the state, the hooks that run, what they are given and how they come out are
   * the same exactly where `SeesTheSame` says, if the request can be read, and exactly where nothing is
   * hoisted if it can't.
   */
  lemma HoistingPreservesMeaning<S, T, Req, Res>(
      list: seq<Interceptor<S, T, Req, Res>>, endpoint: Call<S, T, Req, Res>, read: Outcome<Req>, exit: Outcome<()>,
      own: Option<Exn>, w: World<S, T>)
    ensures var nested := ServeNested(list, endpoint, read, exit, own, w);
      var hoisted := ServeHoisted(list, endpoint, read, exit, own, w);
      nested.0 == hoisted.0 <==>
        if read.Return? then
          var (started, w1, outcome) := Body(Leading(list), Remaining(Async, list, endpoint), read.value, w);
          SeesTheSame(started, outcome, ExitOf(Leading(list), w, exit), own, w1)
        else Leading(list) == []
  {
    if read.Return? {
      ServeNestedIs(list, endpoint, read, exit, own, w);
      ServeHoistedIs(list, endpoint, read, exit, own, w);
      var (started, w1, outcome) := Body(Leading(list), Remaining(Async, list, endpoint), read.value, w);
      HooksSeeTheSame(started, outcome, ExitOf(Leading(list), w, exit), own, w1);
    } else {
      UnreadIsSeen(list, endpoint, read, exit, own, w);
    }
  }

  /**
   * How both forms come out, for every request, given how its hooks came out in each: nested, the
   * hooks' failures come before the exit of the watch; hoisted, after it.
   */
  lemma HowRequestsComeOut<S, T, Req, Res>(
      list: seq<Interceptor<S, T, Req, Res>>, endpoint: Call<S, T, Req, Res>, read: Outcome<Req>, exit: Outcome<()>,
      own: Option<Exn>, w: World<S, T>)
    returns (nestedEvents: seq<Event<T>>, hoistedEvents: seq<Event<T>>)
    requires read.Return?
    ensures var (started, w1, outcome) := Body(Leading(list), Remaining(Async, list, endpoint), read.value, w);
      var nested := ServeNested(list, endpoint, read, exit, own, w);
      var hoisted := ServeHoisted(list, endpoint, read, exit, own, w);
      && nested.0.log == w1.log + nestedEvents
      && hoisted.0.log == w1.log + hoistedEvents
      && nested.1 == Reported(AfterExit(AfterFailures(outcome, Outcomes(nestedEvents)), exit), [], own)
      && hoisted.1 == Reported(AfterExit(outcome, ExitOf(Leading(list), w, exit)), Outcomes(hoistedEvents), own)
  {
    ServeNestedIs(list, endpoint, read, exit, own, w);
    ServeHoistedIs(list, endpoint, read, exit, own, w);
    var (started, w1, outcome) := Body(Leading(list), Remaining(Async, list, endpoint), read.value, w);
    var (w2, o) := EndNested(Async, started, outcome, w1);
    nestedEvents := EndNestedTrace(Async, started, outcome, w1);
    var none := HoistedReport([], AfterExit(o, exit), own, w2);
    hoistedEvents := HoistedReport(started, AfterExit(outcome, ExitOf(Leading(list), w, exit)), own, w1);
  }

  /** A request that can't be read comes out the same exactly when its hooks, as it has them report, leave that. */
  lemma HowUnreadRequestsComeOut<S, T, Req, Res>(
      list: seq<Interceptor<S, T, Req, Res>>, endpoint: Call<S, T, Req, Res>, read: Outcome<Req>, exit: Outcome<()>,
      own: Option<Exn>, w: World<S, T>)
    returns (events: seq<Event<T>>)
    requires !read.Return?
    ensures var run := StartAll(Leading(list), w);
      var body: Outcome<Res> := if run.outcome.Return? then Thrown(read) else Thrown(run.outcome);
      var nested := ServeNested(list, endpoint, read, exit, own, w);
      var hoisted := ServeHoisted(list, endpoint, read, exit, own, w);
      && hoisted.0.log == run.world.log + events
      && nested.1 == Reported(Thrown(read), [], own)
      && hoisted.1 == Reported(body, Outcomes(events), own)
  {
    UnreadIsSeen(list, endpoint, read, exit, own, w);
    var (started, w1, outcome) := Body(Leading(list), Reading(read, Remaining(Async, list, endpoint), exit), (), w);
    events := HoistedReport(started, outcome, own, w1);
  }

  /** When hooks leave the outcome of a body that did not return as it was. */
  predicate HooksLeave<Res>(body: Outcome<Res>, hooks: seq<Outcome<()>>, own: Option<Exn>) {
    var last := LastFailure(hooks);
    match body
    case Return(_) => last.Return?
    case Raise(e) =>
      && !AnyIsInterrupted(hooks)
      && if AnyIsCancelled(hooks) then own.Some? else last.Return? || last == Raise(e)
    case Cancelled =>
      && !AnyIsInterrupted(hooks)
      && (own.None? || (!AnyIsCancelled(hooks) && (last.Return? || last == Raise(own.value))))
    case Interrupted => AnyIsInterrupted(hooks) || !AnyIsCancelled(hooks)
  }

  lemma ReportedIsLeft<Res>(body: Outcome<Res>, hooks: seq<Outcome<()>>, own: Option<Exn>)
    requires !body.Return?
    ensures Reported(body, hooks, own) == Reported(body, [], own) <==> HooksLeave(body, hooks, own)
  {
    assert !AnyIsInterrupted([]) && !AnyIsCancelled([]) && LastFailure([]) == Return(());
    if !AnyIsInterrupted(hooks) {
      NoneIsInterrupted(hooks);
    } else {
      var k :| 0 <= k < |hooks| && hooks[k].Interrupted?;
      assert FirstInterrupted(hooks) < |hooks|;
    }
  }

  /** An unreadable request whose hooks all start comes out the same exactly when they leave the outcome. */
  lemma UnreadComesOutTheSame<S, T, Req, Res>(
      list: seq<Interceptor<S, T, Req, Res>>, endpoint: Call<S, T, Req, Res>, read: Outcome<Req>, exit: Outcome<()>,
      own: Option<Exn>, w: World<S, T>)
    returns (events: seq<Event<T>>)
    requires !read.Return? && StartAll(Leading(list), w).outcome.Return?
    ensures var nested := ServeNested(list, endpoint, read, exit, own, w);
      var hoisted := ServeHoisted(list, endpoint, read, exit, own, w);
      && hoisted.0.log == StartAll(Leading(list), w).world.log + events
      && (nested.1 == hoisted.1 <==> HooksLeave(read, Outcomes(events), own))
  {
    events := HowUnreadRequestsComeOut(list, endpoint, read, exit, own, w);
    var thrown: Outcome<Res> := Thrown(read);
    ReportedIsLeft(thrown, Outcomes(events), own);
  }

  /**
   * A request that can be read, with a clean exit: where the hooks see the same, it comes out the same
   * exactly where `ComesOutTheSame` says.
   */
  lemma ReadComesOutTheSame<S, T, Req, Res>(
      list: seq<Interceptor<S, T, Req, Res>>, endpoint: Call<S, T, Req, Res>, read: Outcome<Req>, own: Option<Exn>,
      w: World<S, T>)
    returns (events: seq<Event<T>>)
    requires read.Return?
    ensures var (started, w1, outcome) := Body(Leading(list), Remaining(Async, list, endpoint), read.value, w);
      var nested := ServeNested(list, endpoint, read, Return(()), own, w);
      var hoisted := ServeHoisted(list, endpoint, read, Return(()), own, w);
      && nested.0.log == w1.log + events
      && (nested.0 == hoisted.0 ==> (nested.1 == hoisted.1 <==> ComesOutTheSame(outcome, Outcomes(events), own)))
  {
    HoistingPreservesMeaning(list, endpoint, read, Return(()), own, w);
    ServeNestedIs(list, endpoint, read, Return(()), own, w);
    ServeHoistedIs(list, endpoint, read, Return(()), own, w);
    var (started, w1, outcome) := Body(Leading(list), Remaining(Async, list, endpoint), read.value, w);
    events := EndNestedTrace(Async, started, outcome, w1);
    if SeesTheSame(started, outcome, Return(()), own, w1) {
      RequestComesOutTheSame(started, outcome, own, w1, events);
    }
  }

  /**
   * A request that can be read, an endpoint that returns or raises an ordinary exception, hooks that
   * do and a clean exit: nothing tells the two forms apart.
   */
  lemma OrdinaryRequestsAreTheSame<S, T, Req, Res>(
      list: seq<Interceptor<S, T, Req, Res>>, endpoint: Call<S, T, Req, Res>, read: Outcome<Req>, own: Option<Exn>,
      w: World<S, T>)
    requires read.Return?
    requires var (started, w1, outcome) := Body(Leading(list), Remaining(Async, list, endpoint), read.value, w);
      && (outcome.Return? || outcome.Raise?)
      && EndOutcome(Unwind(started, ErrorOf(outcome), false, w1)).Return?
    ensures ServeNested(list, endpoint, read, Return(()), own, w) ==
      ServeHoisted(list, endpoint, read, Return(()), own, w)
  {
    var (started, w1, outcome) := Body(Leading(list), Remaining(Async, list, endpoint), read.value, w);
    RestIsInterrupted(started, ErrorOf(outcome), false, w1);
    ServeHoistedIs(list, endpoint, read, Return(()), own, w);
    HoistingPreservesMeaning(list, endpoint, read, Return(()), own, w);
    var events := ReadComesOutTheSame(list, endpoint, read, own, w);
    UnwindCancelled(started, ErrorOf(outcome), w1, events);
    AnyIsCancelledCons(Plain(outcome), Outcomes(events));
    RaisesAfterCancelledIff([Plain(outcome)] + Outcomes(events));
  }

  // ---------------------------------------------------------------- The synchronous server

  /** The synchronous server has no watch, and its hooks stop at the first that is interrupted. */
  ghost predicate SeesTheSameSync<S, T, Res>(started: seq<Frame<S, T>>, outcome: Outcome<Res>, w: World<S, T>) {
    || started == []
    || ((outcome.Return? || outcome.Raise?) && UnwindSync(started, ErrorOf(outcome), w).rest == [])
  }

  function ServeNestedSync<S, T, Req, Res>(
      list: seq<Interceptor<S, T, Req, Res>>, endpoint: Call<S, T, Req, Res>, read: Outcome<Req>, w: World<S, T>)
    : (World<S, T>, Outcome<Res>)
  {
    ServeSync([], Reading(read, Nest(Sync, list, endpoint), Return(())), (), w)
  }

  function ServeHoistedSync<S, T, Req, Res>(
      list: seq<Interceptor<S, T, Req, Res>>, endpoint: Call<S, T, Req, Res>, read: Outcome<Req>, w: World<S, T>)
    : (World<S, T>, Outcome<Res>)
  {
    ServeSync(Leading(list), Reading(read, Remaining(Sync, list, endpoint), Return(())), (), w)
  }

  lemma {:induction false} RestIsInterruptedSync<S, T>(stack: seq<Frame<S, T>>, error: Option<Exn>, w: World<S, T>)
    ensures var u := UnwindSync(stack, error, w);
      u.rest != [] ==> u.outcome.Cancelled? || u.outcome.Interrupted?
    decreases |stack|
  {
    if stack != [] {
      var top, rest := stack[|stack| - 1], stack[..|stack| - 1];
      var (w1, outcome) := End(top.hooks, top.token, error, w);
      if outcome.Return? || outcome.Raise? {
        RestIsInterruptedSync(rest, Replaced(error, outcome), w1);
      }
    }
  }

  /** Around an endpoint that is called, the hooks see the same exactly there, and then it comes out the same. */
  lemma HooksSeeTheSameSync<S, T, Res>(started: seq<Frame<S, T>>, outcome: Outcome<Res>, w: World<S, T>)
    ensures var (w1, o) := EndNested(Sync, started, outcome, w);
      var nested, hoisted := EndRequestSync([], o, w1), EndRequestSync(started, outcome, w);
      && (nested.0 == hoisted.0 <==> SeesTheSameSync(started, outcome, w))
      && (nested.0 == hoisted.0 ==> nested == hoisted)
  {
    EndNestedLogs(Sync, started, outcome, w);
    if outcome.Return? || outcome.Raise? {
      var u := UnwindSync(started, ErrorOf(outcome), w);
      EndNestedIsUnwindSync(started, outcome, w);
      RestIsInterruptedSync(started, ErrorOf(outcome), w);
      if u.rest != [] {
        var left: Outcome<Res> := Thrown(u.outcome);
        EndNestedLogs(Sync, u.rest, left, u.world);
      }
    } else {
      UnwindSyncLogs(started, Some(INTERRUPTED), w);
    }
  }

  /** How a hoisted synchronous request comes out, given how its body and each of its hooks did. */
  function ReportedSync<Res>(body: Outcome<Res>, hooks: seq<Outcome<()>>): Outcome<Res> {
    if LastFailure(hooks).Raise? && (body.Cancelled? || body.Interrupted?) then body
    else AfterFailures(body, hooks)
  }

  lemma {:induction false} UnwindSyncReport<S, T>(stack: seq<Frame<S, T>>, error: Option<Exn>, w: World<S, T>)
    returns (events: seq<Event<T>>)
    ensures var u, last := UnwindSync(stack, error, w), LastFailure(Outcomes(events));
      && u.world.log == w.log + events
      && u.outcome == if last.Cancelled? || last.Interrupted? then Thrown(last) else Return(Replaced(error, last))
    decreases |stack|
  {
    if stack == [] {
      events := [];
    } else {
      var top, rest := stack[|stack| - 1], stack[..|stack| - 1];
      var (w1, outcome) := End(top.hooks, top.token, error, w);
      var more := [];
      if outcome.Return? || outcome.Raise? {
        more := UnwindSyncReport(rest, Replaced(error, outcome), w1);
      }
      var first := Ended(top.hooks.id, top.token, error, outcome);
      events := [first] + more;
      OutcomesCons(first, more);
      LastFailureAfter(outcome, Outcomes(more));
    }
  }

  lemma HoistedSyncReport<S, T, Res>(started: seq<Frame<S, T>>, body: Outcome<Res>, w: World<S, T>)
    returns (events: seq<Event<T>>)
    ensures EndRequestSync(started, body, w).0.log == w.log + events
    ensures EndRequestSync(started, body, w).1 == ReportedSync(body, Outcomes(events))
  {
    var interrupted := body.Cancelled? || body.Interrupted?;
    events := UnwindSyncReport(started, if interrupted then Some(INTERRUPTED) else ErrorOf(body), w);
  }

  /**
   * The same for a synchronous request. If it can be read, it comes out the same wherever the hooks see
   * the same; if it can't, it comes out as the hooks that it has started report.
   */
  lemma HoistingSyncPreservesMeaning<S, T, Req, Res>(
      list: seq<Interceptor<S, T, Req, Res>>, endpoint: Call<S, T, Req, Res>, read: Outcome<Req>, w: World<S, T>)
    returns (events: seq<Event<T>>)
    ensures var nested, hoisted := ServeNestedSync(list, endpoint, read, w), ServeHoistedSync(list, endpoint, read, w);
      if read.Return? then
        var (started, w1, outcome) := Body(Leading(list), Remaining(Sync, list, endpoint), read.value, w);
        && (nested.0 == hoisted.0 <==> SeesTheSameSync(started, outcome, w1))
        && (nested.0 == hoisted.0 ==> nested == hoisted)
      else
        var run := StartAll(Leading(list), w);
        && (nested.0 == hoisted.0 <==> Leading(list) == [])
        && hoisted.0.log == run.world.log + events
        && nested == (w, Thrown(read))
        && var body: Outcome<Res> := if run.outcome.Return? then Thrown(read) else Thrown(run.outcome);
          hoisted.1 == ReportedSync(body, Outcomes(events))
  {
    events := [];
    if read.Return? {
      NestLeading(Sync, list, endpoint);
      NestedIsEndNested(Sync, Leading(list), Remaining(Sync, list, endpoint), read.value, w);
      var (started, w1, outcome) := Body(Leading(list), Remaining(Sync, list, endpoint), read.value, w);
      HooksSeeTheSameSync(started, outcome, w1);
    } else {
      var body := Reading(read, Remaining(Sync, list, endpoint), Return(()));
      var (started, w1, outcome) := Body(Leading(list), body, (), w);
      StartAllLogs(Leading(list), w);
      events := HoistedSyncReport(started, outcome, w1);
    }
  }

  // ---------------------------------------------------------------- Where the forms differ

  /** A hook that comes out like this when it ends. */
  function EndingHook(ended: Outcome<()>): Hooks<int, int> {
    Hooks(0, (s: int) => (s, Return(0)), (s: int, t: int, e: Option<Exn>) => (s, ended))
  }

  /** One such hook around an endpoint that comes out like this. */
  function OneHook(ended: Outcome<()>): seq<Interceptor<int, int, int, int>> {
    [Metadata(EndingHook(ended))]
  }

  function EndpointWith(outcome: Outcome<int>): Call<int, int, int, int> {
    (r: int, w: World<int, int>) => (w, outcome)
  }

  const EMPTY: World<int, int> := World(0, [])

  /** What is logged of one hook that was given this error. */
  function OneRun(error: Option<Exn>, ended: Outcome<()>): seq<Event<int>> {
    [Started(0), Ended(0, 0, error, ended)]
  }

  lemma OneStarts(ended: Outcome<()>, outcome: Outcome<int>)
    ensures var list := OneHook(ended);
      && Leading(list) == [EndingHook(ended)]
      && StartAll(Leading(list), EMPTY).outcome.Return?
      && Body(Leading(list), Remaining(Async, list, EndpointWith(outcome)), 0, EMPTY)
        == ([Frame(EndingHook(ended), 0)], World(0, [Started(0)]), outcome)
      && StartAll(Leading(list), EMPTY) == StartRun(World(0, [Started(0)]), [Frame(EndingHook(ended), 0)], Return(()))
  {
    var hook, list := EndingHook(ended), OneHook(ended);
    assert list[1..] == [] && Leading(list) == [hook] && list[|Leading(list)|..] == [];
    assert [hook][1..] == [] && EMPTY.log + [Started(0)] == [Started(0)];
    assert [Frame(hook, 0)] + [] == [Frame(hook, 0)];
  }

  lemma OneEnds(ended: Outcome<()>, error: Option<Exn>)
    ensures var frame, w := Frame(EndingHook(ended), 0), World(0, [Started(0)]);
      Unwind([frame], error, false, w) == Unwound(
        World(0, OneRun(error, ended)), [], if ended.Interrupted? then error else Replaced(error, ended),
        ended.Cancelled?, ended.Interrupted?)
  {
    var frame, w := Frame(EndingHook(ended), 0), World(0, [Started(0)]);
    assert [frame][..1] == [frame] && [frame][..0] == [];
    UnwindStep([frame], 0, error, false, w);
    assert [Started(0)] + [Ended(0, 0, error, ended)] == OneRun(error, ended);
  }

  /** One hook around an endpoint, nested. */
  lemma OneNested(ended: Outcome<()>, outcome: Outcome<int>, exit: Outcome<()>, own: Option<Exn>)
    ensures var error := NestedError(Async, outcome);
      var o := if ended.Return? then outcome else Thrown(ended);
      ServeNested(OneHook(ended), EndpointWith(outcome), Return(0), exit, own, EMPTY)
        == EndRequest([], AfterExit(o, exit), own, World(0, OneRun(error, ended)))
  {
    var frame, w := Frame(EndingHook(ended), 0), World(0, [Started(0)]);
    OneStarts(ended, outcome);
    ServeNestedIs(OneHook(ended), EndpointWith(outcome), Return(0), exit, own, EMPTY);
    EndNestedOne(Async, frame, outcome, w);
    var error := NestedError(Async, outcome);
    assert [Started(0)] + [Ended(0, 0, error, ended)] == OneRun(error, ended);
  }

  /** And hoisted. */
  lemma OneHoisted(ended: Outcome<()>, outcome: Outcome<int>, exit: Outcome<()>, own: Option<Exn>)
    ensures var left := AfterExit(outcome, exit);
      ServeHoisted(OneHook(ended), EndpointWith(outcome), Return(0), exit, own, EMPTY)
        == EndRequest([Frame(EndingHook(ended), 0)], left, own, World(0, [Started(0)]))
    ensures ServeHoisted(OneHook(ended), EndpointWith(outcome), Return(0), exit, own, EMPTY).0.log
      == OneRun(FirstGiven(AfterExit(outcome, exit), own), ended)
  {
    var frame, w := Frame(EndingHook(ended), 0), World(0, [Started(0)]);
    OneStarts(ended, outcome);
    ServeHoistedIs(OneHook(ended), EndpointWith(outcome), Return(0), exit, own, EMPTY);
    OneEnds(ended, FirstGiven(AfterExit(outcome, exit), own));
    EndRequestIsUnwind([frame], AfterExit(outcome, exit), own, w);
  }

  /** An unreadable request: nested, no hook runs; hoisted, its hook runs and is told why. */
  lemma UnreadableIsSeenDifferently()
    ensures var read: Outcome<int> := Raise(ConnectError(InvalidArgument));
      var list, endpoint := OneHook(Return(())), EndpointWith(Return(0));
      && ServeNested(list, endpoint, read, Return(()), None, EMPTY).0.log == []
      && ServeHoisted(list, endpoint, read, Return(()), None, EMPTY).0.log
        == OneRun(Some(ConnectError(InvalidArgument)), Return(()))
  {
    var read: Outcome<int> := Raise(ConnectError(InvalidArgument));
    var list, endpoint := OneHook(Return(())), EndpointWith(Return(0));
    var frame, w := Frame(EndingHook(Return(())), 0), World(0, [Started(0)]);
    UnreadIsSeen(list, endpoint, read, Return(()), None, EMPTY);
    OneStarts(Return(()), Return(0));
    OneEnds(Return(()), Some(ConnectError(InvalidArgument)));
    var thrown: Outcome<int> := Thrown(read);
    EndRequestIsUnwind([frame], thrown, None, w);
  }

  /** A cancelled request whose hook raises: nested reports the hook's error, hoisted the cancellation. */
  lemma CancellationIsReportedDifferently()
    ensures var list, endpoint := OneHook(Raise(OtherError(1))), EndpointWith(Cancelled);
      && ServeNested(list, endpoint, Return(0), Return(()), None, EMPTY).1 == Raise(OtherError(1))
      && ServeHoisted(list, endpoint, Return(0), Return(()), None, EMPTY).1 == Cancelled
  {
    OneNested(Raise(OtherError(1)), Cancelled, Return(()), None);
    OneHoisted(Raise(OtherError(1)), Cancelled, Return(()), None);
    OneEnds(Raise(OtherError(1)), Some(CANCELED));
  }

  /** A request cancelled by its deadline: nested, its hook is told of a cancellation; hoisted, of the deadline. */
  lemma DeadlineIsSeenDifferently()
    ensures var list, endpoint := OneHook(Return(())), EndpointWith(Cancelled);
      var own := Some(ConnectError(DeadlineExceeded));
      && ServeNested(list, endpoint, Return(0), Return(()), own, EMPTY).0.log
        == OneRun(Some(ConnectError(Canceled)), Return(()))
      && ServeHoisted(list, endpoint, Return(0), Return(()), own, EMPTY).0.log == OneRun(own, Return(()))
  {
    OneNested(Return(()), Cancelled, Return(()), Some(ConnectError(DeadlineExceeded)));
    OneHoisted(Return(()), Cancelled, Return(()), Some(ConnectError(DeadlineExceeded)));
  }

  /** A deadline that passes as the watch is left: nested, its hook has ended in success; hoisted, it is told. */
  lemma ExitIsSeenDifferently()
    ensures var list, endpoint := OneHook(Return(())), EndpointWith(Return(0));
      var own := Some(ConnectError(DeadlineExceeded));
      && ServeNested(list, endpoint, Return(0), Cancelled, own, EMPTY).0.log == OneRun(None, Return(()))
      && ServeHoisted(list, endpoint, Return(0), Cancelled, own, EMPTY).0.log == OneRun(own, Return(()))
  {
    OneNested(Return(()), Return(0), Cancelled, Some(ConnectError(DeadlineExceeded)));
    OneHoisted(Return(()), Return(0), Cancelled, Some(ConnectError(DeadlineExceeded)));
  }

  /** An interrupted request: nested, its hook is given no error; hoisted, an unknown one. */
  lemma InterruptionIsSeenDifferently()
    ensures var list, endpoint := OneHook(Return(())), EndpointWith(Interrupted);
      && ServeNested(list, endpoint, Return(0), Return(()), None, EMPTY).0.log == OneRun(None, Return(()))
      && ServeHoisted(list, endpoint, Return(0), Return(()), None, EMPTY).0.log
        == OneRun(Some(ConnectError(Unknown)), Return(()))
  {
    OneNested(Return(()), Interrupted, Return(()), None);
    OneHoisted(Return(()), Interrupted, Return(()), None);
  }
}
