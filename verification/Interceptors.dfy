/**
 * Metadata interceptors: nested around the endpoint function, or hoisted to the front of the
 * request with an explicit stack of the ones that started.
 */
module Interceptors {
  import opened Common
  import opened Exceptions

  // ---------------------------------------------------------------- Hooks and their trace

  /** A hook reads and changes the state of the program, and can raise. */
  datatype Hooks<!S, !T> = Hooks(
    id: nat,
    onStart: S -> (S, Outcome<T>),
    onEnd: (S, T, Option<Exn>) -> (S, Outcome<()>))

  /** What an observer sees of the hooks: which ran, what they were given and how they came out. */
  datatype Event<+T> =
    | Started(id: nat)
    | Ended(id: nat, token: T, error: Option<Exn>, outcome: Outcome<()>)

  datatype World<+S, +T> = World(state: S, log: seq<Event<T>>)

  function Start<S, T>(h: Hooks<S, T>, w: World<S, T>): (World<S, T>, Outcome<T>) {
    var (state, outcome) := h.onStart(w.state);
    (World(state, w.log + [Started(h.id)]), outcome)
  }

  function End<S, T>(h: Hooks<S, T>, token: T, error: Option<Exn>, w: World<S, T>): (World<S, T>, Outcome<()>) {
    var (state, outcome) := h.onEnd(w.state, token, error);
    (World(state, w.log + [Ended(h.id, token, error, outcome)]), outcome)
  }

  // ---------------------------------------------------------------- Nesting

  type Call<!S, !T, !Req, Res> = (Req, World<S, T>) -> (World<S, T>, Outcome<Res>)

  /**
   * An interceptor of the endpoint's kind of method wraps the next call. One of another kind is
   * skipped.
   */
  datatype Interceptor<!S, !T, !Req, !Res> =
    | Metadata(hooks: Hooks<S, T>)
    | Message(wrap: Call<S, T, Req, Res> -> Call<S, T, Req, Res>)
    | OtherKind

  const CANCELED: Exn := ConnectError(Canceled)

  const INTERRUPTED: Exn := ConnectError(Unknown)

  /** Only the asynchronous form tells a cancellation from any other `BaseException`. */
  datatype Form = Async | Sync

  /** The error that the invoker gives to `on_end`. */
  function NestedError<R>(form: Form, outcome: Outcome<R>): Option<Exn> {
    match outcome
    case Return(_) => None
    case Raise(e) => Some(e)
    case Cancelled => if form.Async? then Some(CANCELED) else None
    case Interrupted => None
  }

  /** `MetadataInterceptorInvoker.intercept_unary`, and `intercept_unary_sync`. */
  function Invoke<S, T, Req, Res>(form: Form, h: Hooks<S, T>, next: Call<S, T, Req, Res>): Call<S, T, Req, Res> {
    (req: Req, w: World<S, T>) =>
      var (w1, started) := Start(h, w);
      if !started.Return? then (w1, Thrown(started))
      else
        var (w2, outcome) := next(req, w1);
        var (w3, ended) := End(h, started.value, NestedError(form, outcome), w2);
        (w3, if ended.Return? then outcome else Thrown(ended))
  }

  function Wrap<S, T, Req, Res>(form: Form, i: Interceptor<S, T, Req, Res>, next: Call<S, T, Req, Res>)
    : Call<S, T, Req, Res>
  {
    match i
    case Metadata(h) => Invoke(form, h, next)
    case Message(wrap) => wrap(next)
    case OtherKind => next
  }

  /** The first interceptor is the outermost. */
  function Nest<S, T, Req, Res>(form: Form, list: seq<Interceptor<S, T, Req, Res>>, endpoint: Call<S, T, Req, Res>)
    : Call<S, T, Req, Res>
  {
    if list == [] then endpoint else Wrap(form, list[0], Nest(form, list[1..], endpoint))
  }

  /** A hook around a call: it starts, the call is made if it did, and it ends with the call's error. */
  ghost predicate HookRuns<S, T, Req, Res>(
      form: Form, h: Hooks<S, T>, next: Call<S, T, Req, Res>, req: Req, w: World<S, T>,
      after: World<S, T>, outcome: Outcome<Res>)
  {
    var (s1, started) := h.onStart(w.state);
    var w1 := World(s1, w.log + [Started(h.id)]);
    if !started.Return? then after == w1 && outcome == Thrown(started)
    else
      var (w2, result) := next(req, w1);
      var error :=
        if result.Raise? then Some(result.error)
        else if result.Cancelled? && form.Async? then Some(ConnectError(Canceled))
        else None;
      var (s3, ended) := h.onEnd(w2.state, started.value, error);
      && after == World(s3, w2.log + [Ended(h.id, started.value, error, ended)])
      && outcome == if ended.Return? then result else Thrown(ended)
  }

  lemma InvokeRuns<S, T, Req, Res>(form: Form, h: Hooks<S, T>, next: Call<S, T, Req, Res>, req: Req, w: World<S, T>)
    ensures var (after, outcome) := Invoke(form, h, next)(req, w);
      HookRuns(form, h, next, req, w, after, outcome)
  {
    var (w1, started) := Start(h, w);
    assert Invoke(form, h, next)(req, w) ==
      if !started.Return? then (w1, Thrown(started))
      else
        var (w2, result) := next(req, w1);
        var (w3, ended) := End(h, started.value, NestedError(form, result), w2);
        (w3, if ended.Return? then result else Thrown(ended));
  }

  /**
   * A message interceptor is called with the rest of the chain as its next call, one of another kind
   * is passed over, and a metadata interceptor runs its hooks around the rest.
   */
  lemma NestCalls<S, T, Req, Res>(
      form: Form, first: Interceptor<S, T, Req, Res>, rest: seq<Interceptor<S, T, Req, Res>>,
      endpoint: Call<S, T, Req, Res>, req: Req, w: World<S, T>)
    ensures var next, call := Nest(form, rest, endpoint), Nest(form, [first] + rest, endpoint);
      && (first.Message? ==> call(req, w) == first.wrap(next)(req, w))
      && (first.OtherKind? ==> call(req, w) == next(req, w))
      && (first.Metadata? ==> HookRuns(form, first.hooks, next, req, w, call(req, w).0, call(req, w).1))
  {
    var list, next := [first] + rest, Nest(form, rest, endpoint);
    assert list[1..] == rest;
    assert Nest(form, list, endpoint) == Wrap(form, first, next);
    if first.Metadata? {
      InvokeRuns(form, first.hooks, next, req, w);
    }
  }

  /** `_apply_interceptors`: wraps the function in a loop over the reversed list. */
  method ApplyInterceptors<S, T, Req, Res>(
      form: Form, list: seq<Interceptor<S, T, Req, Res>>, endpoint: Call<S, T, Req, Res>)
    returns (func: Call<S, T, Req, Res>)
    ensures func == Nest(form, list, endpoint)
  {
    func := endpoint;
    var k := |list|;
    while k > 0
      invariant 0 <= k <= |list|
      invariant func == Nest(form, list[k..], endpoint)
    {
      k := k - 1;
      assert list[k..][1..] == list[k + 1..];
      func := Wrap(form, list[k], func);
    }
    assert list[0..] == list;
  }

  // ---------------------------------------------------------------- Hoisting

  /** The metadata interceptors before the first interceptor of another sort. */
  function Leading<S, T, Req, Res>(list: seq<Interceptor<S, T, Req, Res>>): (hs: seq<Hooks<S, T>>)
    ensures |hs| <= |list|
  {
    if list == [] || !list[0].Metadata? then [] else [list[0].hooks] + Leading(list[1..])
  }

  /** `split_leading_metadata_interceptors`. */
  method SplitLeading<S, T, Req, Res>(list: seq<Interceptor<S, T, Req, Res>>)
    returns (leading: seq<Hooks<S, T>>, rest: seq<Interceptor<S, T, Req, Res>>)
    ensures leading == Leading(list)
    ensures rest == list[|leading|..]
    ensures rest != [] ==> !rest[0].Metadata?
    ensures forall k :: 0 <= k < |leading| ==> list[k] == Metadata(leading[k])
  {
    leading := [];
    for k := 0 to |list|
      invariant |leading| == k
      invariant forall j :: 0 <= j < k ==> list[j] == Metadata(leading[j])
      invariant leading + Leading(list[k..]) == Leading(list)
    {
      if !list[k].Metadata? {
        assert Leading(list[k..]) == [];
        return leading, list[k..];
      }
      assert list[k..][1..] == list[k + 1..];
      leading := leading + [list[k].hooks];
    }
    rest := [];
  }

  /** A hook that started, with the token its `on_start` returned. */
  datatype Frame<!S, !T> = Frame(hooks: Hooks<S, T>, token: T)

  datatype StartRun<!S, !T> = StartRun(world: World<S, T>, started: seq<Frame<S, T>>, outcome: Outcome<()>)

  /** Starts the hooks in order, up to the first that raises. */
  function StartAll<S, T>(hs: seq<Hooks<S, T>>, w: World<S, T>): StartRun<S, T> {
    if hs == [] then StartRun(w, [], Return(()))
    else
      var (w1, outcome) := Start(hs[0], w);
      if !outcome.Return? then StartRun(w1, [], Thrown(outcome))
      else
        var run := StartAll(hs[1..], w1);
        run.(started := [Frame(hs[0], outcome.value)] + run.started)
  }

  /** Starting the hooks from the `k`th on, with some started already. */
  lemma StartAllFrom<S, T>(hs: seq<Hooks<S, T>>, k: nat, started: seq<Frame<S, T>>, w: World<S, T>)
    requires k < |hs|
    ensures var (w1, outcome) := Start(hs[k], w);
      StartAfter(hs, k, started, w) ==
        if !outcome.Return? then StartRun(w1, started, Thrown(outcome))
        else StartAfter(hs, k + 1, started + [Frame(hs[k], outcome.value)], w1)
  {
    assert hs[k..][1..] == hs[k + 1..];
    var (w1, outcome) := Start(hs[k], w);
    if outcome.Return? {
      var more := StartAll(hs[k + 1..], w1).started;
      assert started + ([Frame(hs[k], outcome.value)] + more) == started + [Frame(hs[k], outcome.value)] + more;
    }
  }

  function StartAfter<S, T>(hs: seq<Hooks<S, T>>, k: nat, started: seq<Frame<S, T>>, w: World<S, T>): StartRun<S, T>
    requires k <= |hs|
  {
    var run := StartAll(hs[k..], w);
    run.(started := started + run.started)
  }

  /**
   * Where unwinding got to: the hooks that are left, the error that the next one would be given,
   * whether any was cancelled, and whether one was interrupted.
   */
  datatype Unwound<!S, !T> = Unwound(
    world: World<S, T>, rest: seq<Frame<S, T>>, error: Option<Exn>, cancelled: bool, interrupted: bool)

  /** The error after a hook: its exception replaces the one it was given. */
  function Replaced(error: Option<Exn>, outcome: Outcome<()>): Option<Exn> {
    match outcome
    case Return(_) => error
    case Raise(e) => Some(e)
    case Cancelled => Some(CANCELED)
    case Interrupted => error
  }

  /** Ends the hooks of a stack, the last one first. */
  function Unwind<S, T>(stack: seq<Frame<S, T>>, error: Option<Exn>, cancelled: bool, w: World<S, T>): Unwound<S, T>
    decreases |stack|
  {
    if stack == [] then Unwound(w, [], error, cancelled, false)
    else
      var top, rest := stack[|stack| - 1], stack[..|stack| - 1];
      var (w1, outcome) := End(top.hooks, top.token, error, w);
      if outcome.Interrupted? then Unwound(w1, rest, error, cancelled, true)
      else Unwind(rest, Replaced(error, outcome), cancelled || outcome.Cancelled?, w1)
  }

  lemma UnwindStep<S, T>(stack: seq<Frame<S, T>>, k: nat, error: Option<Exn>, cancelled: bool, w: World<S, T>)
    requires k < |stack|
    ensures var (w1, outcome) := End(stack[k].hooks, stack[k].token, error, w);
      Unwind(stack[..k + 1], error, cancelled, w) ==
        if outcome.Interrupted? then Unwound(w1, stack[..k], error, cancelled, true)
        else Unwind(stack[..k], Replaced(error, outcome), cancelled || outcome.Cancelled?, w1)
  {
    assert stack[..k + 1][..k] == stack[..k];
  }

  /** What `MetadataInterceptorsRun.end` returns or raises. */
  function EndOutcome<S, T>(u: Unwound<S, T>): Outcome<Option<Exn>> {
    if u.interrupted then Interrupted else if u.cancelled then Cancelled else Return(u.error)
  }

  class MetadataInterceptorsRun<S, T> {
    const interceptors: seq<Hooks<S, T>>
    var started: seq<Frame<S, T>>
    var world: World<S, T>

    constructor (interceptors: seq<Hooks<S, T>>, world: World<S, T>)
      ensures this.interceptors == interceptors && this.world == world && started == []
    {
      this.interceptors, this.world, this.started := interceptors, world, [];
    }

    method Start() returns (outcome: Outcome<()>)
      requires started == []
      modifies this
      ensures StartRun(world, started, outcome) == StartAll(interceptors, old(world))
    {
      assert interceptors[0..] == interceptors;
      for k := 0 to |interceptors|
        invariant StartAfter(interceptors, k, started, world) == StartAll(interceptors, old(world))
      {
        StartAllFrom(interceptors, k, started, world);
        var (state, token) := interceptors[k].onStart(world.state);
        world := World(state, world.log + [Started(interceptors[k].id)]);
        if !token.Return? {
          return Thrown(token);
        }
        started := started + [Frame(interceptors[k], token.value)];
      }
      return Return(());
    }

    method End(error: Option<Exn>) returns (outcome: Outcome<Option<Exn>>)
      modifies this
      ensures var u := Unwind(old(started), error, false, old(world));
        world == u.world && started == u.rest && outcome == EndOutcome(u)
      // Nothing is left unended when it returns, or raises a cancellation.
      ensures !outcome.Interrupted? ==> started == []
      // An error can be replaced, but not discarded.
      ensures error.Some? && outcome.Return? ==> outcome.value.Some?
    {
      var current, cancelled := error, false;
      while started != []
        invariant error.Some? ==> current.Some?
        invariant Unwind(started, current, cancelled, world) == Unwind(old(started), error, false, old(world))
        decreases |started|
      {
        var top := started[|started| - 1];
        started := started[..|started| - 1];
        var (state, ended) := top.hooks.onEnd(world.state, top.token, current);
        world := World(state, world.log + [Ended(top.hooks.id, top.token, current, ended)]);
        match ended
        case Return(_) =>
        case Raise(e) => current := Some(e);
        case Cancelled =>
          cancelled := true;
          current := Some(CANCELED);
        case Interrupted => return Interrupted;
      }
      return if cancelled then Cancelled else Return(current);
    }
  }

  // ---------------------------------------------------------------- Unwinding

  /** The events of the hooks of a stack, ended in reverse down to the ones that are left. */
  ghost predicate EndsInReverse<S, T>(stack: seq<Frame<S, T>>, events: seq<Event<T>>, rest: seq<Frame<S, T>>) {
    && |events| + |rest| == |stack| && rest == stack[..|rest|]
    && forall k :: 0 <= k < |events| ==>
         && events[k].Ended?
         && events[k].id == stack[|stack| - 1 - k].hooks.id
         && events[k].token == stack[|stack| - 1 - k].token
  }

  /** Each hook is given the error left by the one before it, the first one `error`. */
  ghost predicate ErrorsChain<T>(events: seq<Event<T>>, error: Option<Exn>, last: Option<Exn>)
    requires forall k :: 0 <= k < |events| ==> events[k].Ended?
    decreases |events|
  {
    if events == [] then last == error
    else
      var next :=
        match events[0].outcome
        case Raise(e) => Some(e)
        case Cancelled => Some(ConnectError(Canceled))
        case _ => error;
      events[0].error == error && ErrorsChain(events[1..], next, last)
  }

  /**
   * The events are what the hooks of a stack did, the last one first: each was called in the state
   * that the one before it left, with the token and the error of its event, and came out as it says.
   */
  ghost predicate AreCalls<S, T>(stack: seq<Frame<S, T>>, events: seq<Event<T>>, states: seq<S>, before: S, after: S) {
    && |events| <= |stack| && |states| == |events| + 1 && states[0] == before && states[|events|] == after
    && forall k :: 0 <= k < |events| ==>
         && events[k].Ended?
         && (states[k + 1], events[k].outcome)
              == stack[|stack| - 1 - k].hooks.onEnd(states[k], events[k].token, events[k].error)
  }

  lemma CallsCons<S, T>(
      stack: seq<Frame<S, T>>, first: Event<T>, more: seq<Event<T>>, before: S, states: seq<S>, next: S, after: S)
    requires stack != [] && first.Ended?
    requires (next, first.outcome) == stack[|stack| - 1].hooks.onEnd(before, first.token, first.error)
    requires AreCalls(stack[..|stack| - 1], more, states, next, after)
    ensures AreCalls(stack, [first] + more, [before] + states, before, after)
  {
    var events, all := [first] + more, [before] + states;
    forall k | 0 <= k < |events|
      ensures events[k].Ended?
      ensures (all[k + 1], events[k].outcome)
        == stack[|stack| - 1 - k].hooks.onEnd(all[k], events[k].token, events[k].error)
    {
      if k > 0 {
        assert events[k] == more[k - 1] && all[k] == states[k - 1] && all[k + 1] == states[k];
      }
    }
  }

  lemma CallsAppend<S, T>(
      stack: seq<Frame<S, T>>, first: seq<Event<T>>, firstStates: seq<S>, more: seq<Event<T>>, moreStates: seq<S>,
      before: S, middle: S, after: S)
    requires AreCalls(stack, first, firstStates, before, middle)
    requires AreCalls(stack[..|stack| - |first|], more, moreStates, middle, after)
    ensures AreCalls(stack, first + more, firstStates[..|first|] + moreStates, before, after)
  {
    var events, states := first + more, firstStates[..|first|] + moreStates;
    forall k | 0 <= k < |events|
      ensures events[k].Ended?
      ensures (states[k + 1], events[k].outcome)
        == stack[|stack| - 1 - k].hooks.onEnd(states[k], events[k].token, events[k].error)
    {
      if k < |first| {
        assert events[k] == first[k] && states[k] == firstStates[k];
        assert states[k + 1] == firstStates[k + 1];
      } else {
        var j := k - |first|;
        assert events[k] == more[j] && states[k] == moreStates[j] && states[k + 1] == moreStates[j + 1];
      }
    }
  }

  lemma {:induction false} UnwindCalls<S, T>(
      stack: seq<Frame<S, T>>, error: Option<Exn>, cancelled: bool, w: World<S, T>)
    returns (events: seq<Event<T>>, states: seq<S>)
    ensures var u := Unwind(stack, error, cancelled, w);
      u.world.log == w.log + events && AreCalls(stack, events, states, w.state, u.world.state)
    decreases |stack|
  {
    if stack == [] {
      events, states := [], [w.state];
    } else {
      var top, rest := stack[|stack| - 1], stack[..|stack| - 1];
      var (w1, outcome) := End(top.hooks, top.token, error, w);
      var first := Ended(top.hooks.id, top.token, error, outcome);
      var more, after := [], [w1.state];
      if !outcome.Interrupted? {
        more, after := UnwindCalls(rest, Replaced(error, outcome), cancelled || outcome.Cancelled?, w1);
      }
      events, states := [first] + more, [w.state] + after;
      CallsCons(stack, first, more, w.state, after, w1.state, Unwind(stack, error, cancelled, w).world.state);
    }
  }

  /** What a start calls: the hooks in order, each in the state that the one before it left. */
  ghost predicate AreStarts<S, T>(
      hs: seq<Hooks<S, T>>, outcomes: seq<Outcome<T>>, states: seq<S>, before: S, after: S)
  {
    && |outcomes| <= |hs| && |states| == |outcomes| + 1 && states[0] == before && states[|outcomes|] == after
    && forall k :: 0 <= k < |outcomes| ==> (states[k + 1], outcomes[k]) == hs[k].onStart(states[k])
  }

  lemma StartsCons<S, T>(
      hs: seq<Hooks<S, T>>, first: Outcome<T>, more: seq<Outcome<T>>, before: S, states: seq<S>, next: S, after: S)
    requires hs != [] && (next, first) == hs[0].onStart(before)
    requires AreStarts(hs[1..], more, states, next, after)
    ensures AreStarts(hs, [first] + more, [before] + states, before, after)
  {
    var outcomes, all := [first] + more, [before] + states;
    forall k | 0 <= k < |outcomes|
      ensures (all[k + 1], outcomes[k]) == hs[k].onStart(all[k])
    {
      if k > 0 {
         assert outcomes[k] == more[k - 1] && hs[k] == hs[1..][k - 1];
        assert all[k] == states[k - 1] && all[k + 1] == states[k];
      }
    }
  }

  /**
   * Starting calls every hook up to the first that does not return, logs each, and keeps exactly the
   * ones that returned, with the tokens they returned.
   */
  lemma {:induction false} StartTrace<S, T>(hs: seq<Hooks<S, T>>, w: World<S, T>)
    returns (outcomes: seq<Outcome<T>>, states: seq<S>)
    ensures var run := StartAll(hs, w);
      && AreStarts(hs, outcomes, states, w.state, run.world.state)
      && run.world.log == w.log + seq(|outcomes|, k requires 0 <= k < |outcomes| => Started(hs[k].id))
      && |run.started| <= |outcomes|
      && (forall k :: 0 <= k < |run.started| ==>
            run.started[k].hooks == hs[k] && outcomes[k] == Return(run.started[k].token))
      && (run.outcome.Return? ==> |run.started| == |outcomes| == |hs|)
      && (!run.outcome.Return? ==>
            && |outcomes| == |run.started| + 1 && !outcomes[|run.started|].Return?
            && run.outcome == Plain(outcomes[|run.started|]))
    decreases |hs|
  {
    if hs == [] {
      outcomes, states := [], [w.state];
    } else {
      var (w1, first) := Start(hs[0], w);
      var more, after := [], [w1.state];
      if first.Return? {
        more, after := StartTrace(hs[1..], w1);
      }
      outcomes, states := [first] + more, [w.state] + after;
      StartsCons(hs, first, more, w.state, after, w1.state, StartAll(hs, w).world.state);
    }
  }

  ghost predicate AnyCancelled<T>(events: seq<Event<T>>)
    requires forall k :: 0 <= k < |events| ==> events[k].Ended?
  {
    exists k :: 0 <= k < |events| && events[k].outcome.Cancelled?
  }

  lemma AnyCancelledCons<T>(first: Event<T>, more: seq<Event<T>>)
    requires forall k :: 0 <= k < |[first] + more| ==> ([first] + more)[k].Ended?
    requires first.Ended? && forall k :: 0 <= k < |more| ==> more[k].Ended?
    ensures AnyCancelled([first] + more) <==> first.outcome.Cancelled? || AnyCancelled(more)
  {
    var events := [first] + more;
    if first.outcome.Cancelled? {
      assert events[0].outcome.Cancelled?;
    } else if AnyCancelled(more) {
      var k :| 0 <= k < |more| && more[k].outcome.Cancelled?;
      assert events[k + 1].outcome.Cancelled?;
    }
  }

  lemma ConsEvent<S, T>(stack: seq<Frame<S, T>>, first: Event<T>, more: seq<Event<T>>, rest: seq<Frame<S, T>>)
    requires stack != [] && first.Ended?
    requires first.id == stack[|stack| - 1].hooks.id && first.token == stack[|stack| - 1].token
    requires EndsInReverse(stack[..|stack| - 1], more, rest)
    ensures EndsInReverse(stack, [first] + more, rest)
  {
    var events := [first] + more;
    forall k | 0 <= k < |events|
      ensures events[k].Ended?
      ensures events[k].id == stack[|stack| - 1 - k].hooks.id && events[k].token == stack[|stack| - 1 - k].token
    {
      if k > 0 {
        assert events[k] == more[k - 1];
      }
    }
  }

  lemma {:induction false} UnwindEvents<S, T>(
      stack: seq<Frame<S, T>>, error: Option<Exn>, cancelled: bool, w: World<S, T>)
    returns (events: seq<Event<T>>)
    ensures var u := Unwind(stack, error, cancelled, w);
      u.world.log == w.log + events && EndsInReverse(stack, events, u.rest) && (!u.interrupted ==> u.rest == [])
    decreases |stack|
  {
    if stack == [] {
      events := [];
    } else {
      var top, rest := stack[|stack| - 1], stack[..|stack| - 1];
      var (w1, outcome) := End(top.hooks, top.token, error, w);
      var more := [];
      if !outcome.Interrupted? {
        more := UnwindEvents(rest, Replaced(error, outcome), cancelled || outcome.Cancelled?, w1);
      }
      events := [Ended(top.hooks.id, top.token, error, outcome)] + more;
      ConsEvent(stack, events[0], more, Unwind(stack, error, cancelled, w).rest);
    }
  }

  lemma {:induction false} UnwindErrors<S, T>(
      stack: seq<Frame<S, T>>, error: Option<Exn>, cancelled: bool, w: World<S, T>)
    returns (events: seq<Event<T>>)
    ensures forall k :: 0 <= k < |events| ==> events[k].Ended?
    ensures var u := Unwind(stack, error, cancelled, w);
      && u.world.log == w.log + events
      && ErrorsChain(events, error, u.error)
      && (u.cancelled <==> cancelled || AnyCancelled(events))
    decreases |stack|
  {
    if stack == [] {
      events := [];
    } else {
      var top, rest := stack[|stack| - 1], stack[..|stack| - 1];
      var (w1, outcome) := End(top.hooks, top.token, error, w);
      var first := Ended(top.hooks.id, top.token, error, outcome);
      var more := [];
      if !outcome.Interrupted? {
        more := UnwindErrors(rest, Replaced(error, outcome), cancelled || outcome.Cancelled?, w1);
      }
      events := [first] + more;
      assert events[1..] == more;
      AnyCancelledCons(first, more);
    }
  }

  /**
   * Unwinding ends a suffix of the stack in reverse, and all of it unless a hook is interrupted.
   * Each hook is called in the state left by the one before it, with its own token and the error left
   * by the hooks before it.
   */
  lemma UnwindTrace<S, T>(stack: seq<Frame<S, T>>, error: Option<Exn>, cancelled: bool, w: World<S, T>)
    returns (events: seq<Event<T>>, states: seq<S>)
    ensures var u := Unwind(stack, error, cancelled, w);
      && u.world.log == w.log + events
      && EndsInReverse(stack, events, u.rest)
      && (!u.interrupted ==> u.rest == [])
      && ErrorsChain(events, error, u.error)
      && (u.cancelled <==> cancelled || AnyCancelled(events))
      && AreCalls(stack, events, states, w.state, u.world.state)
  {
    events := UnwindEvents(stack, error, cancelled, w);
    var same := UnwindErrors(stack, error, cancelled, w);
    assert events == (w.log + events)[|w.log|..] == (w.log + same)[|w.log|..] == same;
    var calls;
    calls, states := UnwindCalls(stack, error, cancelled, w);
    assert calls == (w.log + calls)[|w.log|..] == events;
  }

  /** An error can be replaced, but not discarded. */
  lemma {:induction false} UnwindKeepsError<S, T>(
      stack: seq<Frame<S, T>>, error: Option<Exn>, cancelled: bool, w: World<S, T>)
    requires error.Some?
    ensures Unwind(stack, error, cancelled, w).error.Some?
    decreases |stack|
  {
    if stack != [] {
      var top, rest := stack[|stack| - 1], stack[..|stack| - 1];
      var (w1, outcome) := End(top.hooks, top.token, error, w);
      UnwindKeepsError(rest, Replaced(error, outcome), cancelled || outcome.Cancelled?, w1);
    }
  }

  /** What is left after a run of calls of `end`, each with its own error. */
  function EndCalls<S, T>(
      stack: seq<Frame<S, T>>, errors: seq<Option<Exn>>, w: World<S, T>)
    : (World<S, T>, seq<Frame<S, T>>)
    decreases |errors|
  {
    if errors == [] then (w, stack)
    else
      var u := Unwind(stack, errors[0], false, w);
      EndCalls(u.rest, errors[1..], u.world)
  }

  lemma {:induction false} EndCallsSnoc<S, T>(
      stack: seq<Frame<S, T>>, errors: seq<Option<Exn>>, error: Option<Exn>, w: World<S, T>)
    ensures var (w1, rest) := EndCalls(stack, errors, w);
      var u := Unwind(rest, error, false, w1);
      EndCalls(stack, errors + [error], w) == (u.world, u.rest)
    decreases |errors|
  {
    var all := errors + [error];
    if errors == [] {
      assert all[1..] == [];
    } else {
      assert all[0] == errors[0] && all[1..] == errors[1..] + [error];
      var u := Unwind(stack, errors[0], false, w);
      EndCallsSnoc(u.rest, errors[1..], error, u.world);
    }
  }

  /**
   * However often `end` is called, and however its hooks come out, the hooks end in the reverse of
   * the order they started in, and none of them twice; each is called in the state left by the one
   * before it.
   */
  lemma {:induction false} EndCallsTrace<S, T>(stack: seq<Frame<S, T>>, errors: seq<Option<Exn>>, w: World<S, T>)
    returns (events: seq<Event<T>>, states: seq<S>)
    ensures var (w', rest) := EndCalls(stack, errors, w);
      && w'.log == w.log + events && EndsInReverse(stack, events, rest)
      && AreCalls(stack, events, states, w.state, w'.state)
    decreases |errors|
  {
    if errors == [] {
      events, states := [], [w.state];
    } else {
      var u := Unwind(stack, errors[0], false, w);
      var first, firstStates := UnwindTrace(stack, errors[0], false, w);
      var more, moreStates := EndCallsTrace(u.rest, errors[1..], u.world);
      events, states := first + more, firstStates[..|first|] + moreStates;
      CallsAppend(
        stack, first, firstStates, more, moreStates, w.state, u.world.state, EndCalls(stack, errors, w).0.state);
    }
  }

  // ---------------------------------------------------------------- The hoisted run

  /**
   * The error saved for the client and for the hooks that are left. `own` is the error of the
   * request's own scope, if that is what cancelled it: its deadline, or a disconnect. A
   * cancellation of the scope's own leaves an error that there was already.
   */
  function SavedError(leaving: Outcome<()>, error: Option<Exn>, own: Option<Exn>): Option<Exn> {
    match leaving
    case Cancelled => if own.None? then Some(CANCELED) else if error.Some? then error else own
    case Interrupted => Some(INTERRUPTED)
    case _ => error
  }

  /** How the scope of a request is left: after the first call of `end`, if it gets there. */
  datatype Scoped<!S, !T> = Scoped(world: World<S, T>, left: seq<Frame<S, T>>, leaving: Outcome<()>, error: Option<Exn>)

  function LeaveScope<S, T, Res>(started: seq<Frame<S, T>>, outcome: Outcome<Res>, w: World<S, T>): Scoped<S, T> {
    if outcome.Cancelled? || outcome.Interrupted? then Scoped(w, started, Thrown(outcome), None)
    else
      var u := Unwind(started, ErrorOf(outcome), false, w);
      var ended := EndOutcome(u);
      if ended.Return? then Scoped(u.world, u.rest, Return(()), ended.value)
      else Scoped(u.world, u.rest, Thrown(ended), ErrorOf(outcome))
  }

  /** A cancellation that is not the scope's own, and an interruption, stay in flight. */
  function InFlight(leaving: Outcome<()>, own: Option<Exn>): Outcome<()> {
    if leaving.Cancelled? && own.Some? then Return(()) else leaving
  }

  /** What the request raises or returns, after the last call of `end`. */
  function FinalOutcome<Res>(outcome: Outcome<Res>, inFlight: Outcome<()>, final: Outcome<Option<Exn>>): Outcome<Res> {
    if !final.Return? then Thrown(final)
    else if !inFlight.Return? then Thrown(inFlight)
    else if final.value.Some? then Raise(final.value.value)
    else outcome
  }

  /** Ends the hooks of a request whose body came out like this, within its scope and after it. */
  function EndRequest<S, T, Res>(started: seq<Frame<S, T>>, outcome: Outcome<Res>, own: Option<Exn>, w: World<S, T>)
    : (World<S, T>, Outcome<Res>)
  {
    var s := LeaveScope(started, outcome, w);
    var u := Unwind(s.left, SavedError(s.leaving, s.error, own), false, s.world);
    (u.world, FinalOutcome(outcome, InFlight(s.leaving, own), EndOutcome(u)))
  }

  /** The hooks of a request end in reverse, none of them twice, each in the state left by the one before it. */
  lemma EndRequestTrace<S, T, Res>(started: seq<Frame<S, T>>, outcome: Outcome<Res>, own: Option<Exn>, w: World<S, T>)
    returns (events: seq<Event<T>>, states: seq<S>, left: seq<Frame<S, T>>)
    ensures var w' := EndRequest(started, outcome, own, w).0;
      && w'.log == w.log + events
      && EndsInReverse(started, events, left)
      && AreCalls(started, events, states, w.state, w'.state)
  {
    var s := LeaveScope(started, outcome, w);
    var saved := SavedError(s.leaving, s.error, own);
    var errors := if outcome.Cancelled? || outcome.Interrupted? then [] else [ErrorOf(outcome)];
    assert EndCalls(started, errors, w) == (s.world, s.left) by {
      assert [ErrorOf(outcome)][1..] == [];
    }
    EndCallsSnoc(started, errors, saved, w);
    left := EndCalls(started, errors + [saved], w).1;
    events, states := EndCallsTrace(started, errors + [saved], w);
  }

  /** The hooks that start, and how the body comes out, if they all do. */
  function Body<S, T, Req, Res>(hs: seq<Hooks<S, T>>, body: Call<S, T, Req, Res>, req: Req, w: World<S, T>)
    : (seq<Frame<S, T>>, World<S, T>, Outcome<Res>)
  {
    var run := StartAll(hs, w);
    var (w1, outcome) := if run.outcome.Return? then body(req, run.world) else (run.world, Thrown(run.outcome));
    (run.started, w1, outcome)
  }

  /** A request: start the hooks, run the body unless one raised, and end the hooks that started. */
  function Serve<S, T, Req, Res>(
      hs: seq<Hooks<S, T>>, body: Call<S, T, Req, Res>, req: Req, own: Option<Exn>, w: World<S, T>)
    : (World<S, T>, Outcome<Res>)
  {
    var (started, w1, outcome) := Body(hs, body, req, w);
    EndRequest(started, outcome, own, w1)
  }

  /** `_handle_request`, as far as its hooks and its body go. */
  method HandleHoisted<S, T, Req, Res>(
      hs: seq<Hooks<S, T>>, body: Call<S, T, Req, Res>, req: Req, own: Option<Exn>, w: World<S, T>)
    returns (world: World<S, T>, result: Outcome<Res>)
    ensures (world, result) == Serve(hs, body, req, own, w)
  {
    var run := new MetadataInterceptorsRun(hs, w);
    var started := run.Start();
    var outcome: Outcome<Res>;
    if started.Return? {
      var (w1, out) := body(req, run.world);
      run.world := w1;
      outcome := out;
    } else {
      outcome := Thrown(started);
    }
    var leaving, error := Plain(outcome), ErrorOf(outcome);
    if outcome.Return? || outcome.Raise? {
      var ended := run.End(error);
      if ended.Return? {
        leaving, error := Return(()), ended.value;
      } else {
        leaving := Thrown(ended);
      }
    }
    var final := run.End(SavedError(leaving, error, own));
    return run.world, FinalOutcome(outcome, InFlight(leaving, own), final);
  }

  // ---------------------------------------------------------------- The synchronous run

  /** Where unwinding got to when nothing is caught but ordinary exceptions. */
  datatype UnwoundSync<!S, !T> = UnwoundSync(
    world: World<S, T>, rest: seq<Frame<S, T>>, outcome: Outcome<Option<Exn>>)

  function UnwindSync<S, T>(stack: seq<Frame<S, T>>, error: Option<Exn>, w: World<S, T>): UnwoundSync<S, T>
    decreases |stack|
  {
    if stack == [] then UnwoundSync(w, [], Return(error))
    else
      var top, rest := stack[|stack| - 1], stack[..|stack| - 1];
      var (w1, outcome) := End(top.hooks, top.token, error, w);
      if outcome.Cancelled? || outcome.Interrupted? then UnwoundSync(w1, rest, Thrown(outcome))
      else UnwindSync(rest, Replaced(error, outcome), w1)
  }

  lemma UnwindSyncStep<S, T>(stack: seq<Frame<S, T>>, k: nat, error: Option<Exn>, w: World<S, T>)
    requires k < |stack|
    ensures var (w1, outcome) := End(stack[k].hooks, stack[k].token, error, w);
      UnwindSync(stack[..k + 1], error, w) ==
        if outcome.Cancelled? || outcome.Interrupted? then UnwoundSync(w1, stack[..k], Thrown(outcome))
        else UnwindSync(stack[..k], Replaced(error, outcome), w1)
  {
    assert stack[..k + 1][..k] == stack[..k];
  }

  lemma {:induction false} UnwindSyncCalls<S, T>(stack: seq<Frame<S, T>>, error: Option<Exn>, w: World<S, T>)
    returns (events: seq<Event<T>>, states: seq<S>)
    ensures var u := UnwindSync(stack, error, w);
      && u.world.log == w.log + events
      && EndsInReverse(stack, events, u.rest)
      && AreCalls(stack, events, states, w.state, u.world.state)
    decreases |stack|
  {
    if stack == [] {
      events, states := [], [w.state];
    } else {
      var top, rest := stack[|stack| - 1], stack[..|stack| - 1];
      var (w1, outcome) := End(top.hooks, top.token, error, w);
      var first := Ended(top.hooks.id, top.token, error, outcome);
      var more, after := [], [w1.state];
      if outcome.Return? || outcome.Raise? {
        more, after := UnwindSyncCalls(rest, Replaced(error, outcome), w1);
      }
      events, states := [first] + more, [w.state] + after;
      ConsEvent(stack, first, more, UnwindSync(stack, error, w).rest);
      CallsCons(stack, first, more, w.state, after, w1.state, UnwindSync(stack, error, w).world.state);
    }
  }

  lemma {:induction false} UnwindSyncErrors<S, T>(stack: seq<Frame<S, T>>, error: Option<Exn>, w: World<S, T>)
    returns (events: seq<Event<T>>, last: Option<Exn>)
    ensures forall k :: 0 <= k < |events| ==> events[k].Ended?
    ensures var u := UnwindSync(stack, error, w);
      && u.world.log == w.log + events
      && ErrorsChain(events, error, last)
      && (u.outcome.Return? ==> u.rest == [] && u.outcome.value == last)
      && (!u.outcome.Return? ==>
            && events != [] && !events[|events| - 1].outcome.Return?
            && !u.outcome.Raise? && u.outcome == Thrown(events[|events| - 1].outcome))
    decreases |stack|
  {
    if stack == [] {
      events, last := [], error;
    } else {
      var top, rest := stack[|stack| - 1], stack[..|stack| - 1];
      var (w1, outcome) := End(top.hooks, top.token, error, w);
      var first := Ended(top.hooks.id, top.token, error, outcome);
      var more := [];
      last := if outcome.Cancelled? then Some(ConnectError(Canceled)) else error;
      if outcome.Return? || outcome.Raise? {
        more, last := UnwindSyncErrors(rest, Replaced(error, outcome), w1);
      }
      events := [first] + more;
      assert events[1..] == more;
    }
  }

  /**
   * The same of the synchronous unwinding: the hooks end in reverse, each is called with the error left
   * by the ones before it, and the first to raise more than an ordinary exception is the last.
   */
  lemma UnwindSyncTrace<S, T>(stack: seq<Frame<S, T>>, error: Option<Exn>, w: World<S, T>)
    returns (events: seq<Event<T>>, states: seq<S>, last: Option<Exn>)
    ensures var u := UnwindSync(stack, error, w);
      && u.world.log == w.log + events
      && EndsInReverse(stack, events, u.rest)
      && ErrorsChain(events, error, last)
      && AreCalls(stack, events, states, w.state, u.world.state)
      && (u.outcome.Return? ==> u.rest == [] && u.outcome.value == last)
      && (!u.outcome.Return? ==>
            && events != [] && !events[|events| - 1].outcome.Return?
            && !u.outcome.Raise? && u.outcome == Thrown(events[|events| - 1].outcome))
  {
    events, states := UnwindSyncCalls(stack, error, w);
    var same;
    same, last := UnwindSyncErrors(stack, error, w);
    assert same == (w.log + same)[|w.log|..] == (w.log + events)[|w.log|..] == events;
  }

  class MetadataInterceptorsRunSync<S, T> {
    const interceptors: seq<Hooks<S, T>>
    var started: seq<Frame<S, T>>
    var ended: bool
    var world: World<S, T>

    constructor (interceptors: seq<Hooks<S, T>>, world: World<S, T>)
      ensures this.interceptors == interceptors && this.world == world && started == [] && !ended
    {
      this.interceptors, this.world, this.started, this.ended := interceptors, world, [], false;
    }

    method Start() returns (outcome: Outcome<()>)
      requires started == []
      modifies this`started, this`world
      ensures StartRun(world, started, outcome) == StartAll(interceptors, old(world))
    {
      assert interceptors[0..] == interceptors;
      for k := 0 to |interceptors|
        invariant StartAfter(interceptors, k, started, world) == StartAll(interceptors, old(world))
      {
        StartAllFrom(interceptors, k, started, world);
        var (state, token) := interceptors[k].onStart(world.state);
        world := World(state, world.log + [Started(interceptors[k].id)]);
        if !token.Return? {
          return Thrown(token);
        }
        started := started + [Frame(interceptors[k], token.value)];
      }
      return Return(());
    }

    /** Only the first call invokes the hooks; without a `BaseException` it unwinds all of them. */
    method End(error: Option<Exn>) returns (outcome: Outcome<Option<Exn>>)
      modifies this`ended, this`world
      ensures ended
      ensures old(ended) ==> world == old(world) && outcome == Return(error)
      ensures !old(ended) ==>
        var u := UnwindSync(started, error, old(world));
        world == u.world && outcome == u.outcome
    {
      if ended {
        return Return(error);
      }
      ended := true;
      var current := error;
      ghost var whole := UnwindSync(started, error, world);
      assert started[..|started|] == started;
      for k := |started| downto 0
        invariant ended && UnwindSync(started[..k], current, world) == whole
      {
        var frame := started[k];
        UnwindSyncStep(started, k, current, world);
        var (state, result) := frame.hooks.onEnd(world.state, frame.token, current);
        world := World(state, world.log + [Ended(frame.hooks.id, frame.token, current, result)]);
        match result
        case Return(_) =>
        case Raise(e) => current := Some(e);
        case Cancelled => return Cancelled;
        case Interrupted => return Interrupted;
      }
      return Return(current);
    }
  }

  /** A synchronous request: every hook ends in one call, after the body. */
  function EndRequestSync<S, T, Res>(started: seq<Frame<S, T>>, outcome: Outcome<Res>, w: World<S, T>)
    : (World<S, T>, Outcome<Res>)
  {
    var interrupted := outcome.Cancelled? || outcome.Interrupted?;
    var u := UnwindSync(started, if interrupted then Some(INTERRUPTED) else ErrorOf(outcome), w);
    (u.world, FinalOutcome(outcome, if interrupted then Thrown(outcome) else Return(()), u.outcome))
  }

  function ServeSync<S, T, Req, Res>(hs: seq<Hooks<S, T>>, body: Call<S, T, Req, Res>, req: Req, w: World<S, T>)
    : (World<S, T>, Outcome<Res>)
  {
    var (started, w1, outcome) := Body(hs, body, req, w);
    EndRequestSync(started, outcome, w1)
  }

  /** `_handle_unary` of the synchronous server, up to its response. */
  method HandleHoistedSync<S, T, Req, Res>(
      hs: seq<Hooks<S, T>>, body: Call<S, T, Req, Res>, req: Req, w: World<S, T>)
    returns (world: World<S, T>, result: Outcome<Res>)
    ensures (world, result) == ServeSync(hs, body, req, w)
  {
    var run := new MetadataInterceptorsRunSync(hs, w);
    var started := run.Start();
    var outcome: Outcome<Res>;
    if started.Return? {
      var (w1, out) := body(req, run.world);
      run.world := w1;
      outcome := out;
    } else {
      outcome := Thrown(started);
    }
    var error := ErrorOf(outcome);
    if outcome.Cancelled? || outcome.Interrupted? {
      error := Some(INTERRUPTED);
    }
    var ended := run.End(error);
    if !ended.Return? {
      return run.world, Thrown(ended);
    }
    if outcome.Cancelled? || outcome.Interrupted? || ended.value.None? {
      return run.world, outcome;
    }
    return run.world, Raise(ended.value.value);
  }
}
