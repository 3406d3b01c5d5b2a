/** Which error a request reports, from what its environment was asked for. */
module AsgiErrors {
  import opened Common
  import opened Exceptions
  import opened AsgiRequest
  import Disconnect
  import I = Interceptors

  // ---------------------------------------------------------------- What goes wrong first

  predicate IsFirstFailure(writes: seq<Outcome<()>>, k: nat)
    requires k < |writes|
  {
    !writes[k].Return? && forall j :: 0 <= j < k ==> writes[j].Return?
  }

  /** How the messages of a stream are sent: as far as the first that can't be encoded, if there is one. */
  predicate SentAs(responses: Responses, sent: Outcome<()>) {
    var writes := match responses
      case Single(write) => [write]
      case Many(writes, _) => writes;
    && (forall k :: 0 <= k < |writes| && IsFirstFailure(writes, k) ==> sent == writes[k])
    && ((forall k :: 0 <= k < |writes| ==> writes[k].Return?) ==>
          sent == if responses.Many? then responses.last else Return(()))
  }

  /**
   * How the call of a request comes out once its hooks have started: what the exit of the disconnect watch
   * throws replaces anything else, and what closing a stream throws replaces anything but a cancellation.
   */
  ghost predicate CalledAs(h: Handler, called: Outcome<()>) {
    match h
    case Unary(read, call, watchExit, _) =>
      && (!read.Return? ==> called == read)
      && (read.Return? && !watchExit.Return? ==> called == watchExit)
      && (read.Return? && watchExit.Return? ==> called == call)
    case Stream(_, compressionKnown, begin, responses, close, watchExit) =>
      && (!compressionKnown ==> called == Raise(ConnectError(Unimplemented)))
      && (compressionKnown && !watchExit.Return? ==> called == watchExit)
      && (compressionKnown && watchExit.Return? && !begin.Return? ==> called == begin)
      && (compressionKnown && watchExit.Return? && begin.Return? ==>
            exists sent :: SentAs(responses, sent) && ClosedAs(sent, close, called))
  }

  /** Closing the stream of a handler that came out as `sent`. */
  predicate ClosedAs(sent: Outcome<()>, close: Outcome<()>, called: Outcome<()>) {
    && (close.Return? ==> called == sent)
    && (close.Raise? && sent.Cancelled? ==> called == Cancelled)
    && (close.Raise? && !sent.Cancelled? ==> called == close)
    && (close.Cancelled? || close.Interrupted? ==> called == close)
  }

  /** The error for the client of a request that came out so: its own deadline, if that cut it short. */
  ghost predicate ReportedAs<S, T>(r: Request<S, T>, outcome: Outcome<()>, error: Option<Exn>) {
    match outcome
    case Return(_) => error == None
    case Raise(e) => error == Some(e)
    case Interrupted => error == Some(ConnectError(Unknown))
    case Cancelled =>
      if !r.scope.expired then error == Some(ConnectError(Canceled))
      else if r.disconnected
        && (r.deadline.None? || r.scope.when.None? || r.scope.when.value < r.deadline.value)
      then error == Some(ConnectError(Canceled))
      else error == Some(ConnectError(DeadlineExceeded))
  }

  // ---------------------------------------------------------------- The first error

  lemma {:induction false} FirstFailureIsEncoded(writes: seq<Outcome<()>>, k: nat)
    requires k < |writes| && IsFirstFailure(writes, k)
    ensures Encoded(writes) == k
  {
    if k > 0 {
      FirstFailureIsEncoded(writes[1..], k - 1);
    }
  }

  lemma SentOutcome(responses: Responses)
    ensures SentAs(responses, SendOutcome(responses))
  {
    var writes := Writes(responses);
    forall k | 0 <= k < |writes| && IsFirstFailure(writes, k)
      ensures SendOutcome(responses) == writes[k]
    {
      FirstFailureIsEncoded(writes, k);
    }
  }

  /** The handler of a single response has been invoked: its hooks end before the response is sent. */
  predicate EndsEarly<S, T>(r: Request<S, T>) {
    Called(r) && r.handler.begin.Return? && r.handler.responses.Single?
  }

  lemma CalledOutcome<S, T>(r: Request<S, T>)
    requires r.setup.Accepted? && Begun(r).outcome.Return?
    requires EndsEarly(r) ==> r.hooks == []
    ensures CalledAs(r.handler, PerformOutcome(r))
  {
    if r.handler.Stream? {
      SentOutcome(r.handler.responses);
      var sent := SendOutcome(r.handler.responses);
      assert ClosedAs(sent, r.handler.close, AfterClose(sent, r.handler.close));
    }
  }

  /**
   * The first hook to end is given the error of the call: what was raised, or the error that stands for a
   * cancellation, the deadline or an interruption; or none, if it ends before a single response is sent.
   */
  lemma FirstErrorGiven<S, T>(r: Request<S, T>) returns (called: Outcome<()>, error: Option<Exn>)
    requires r.setup.Accepted? && Begun(r).outcome.Return?
    ensures if EndsEarly(r) then error == None else CalledAs(r.handler, called) && ReportedAs(r, called, error)
    ensures var (leaving, left) := ScopeExit(r);
      (ScopeEnds(r) + [SavedError(r, leaving, left)])[0] == error
  {
    if !EndsEarly(r) {
      CalledOutcome(r);
    }
    called := PerformOutcome(r);
    ReturnsNothing(called);
    var (leaving, left) := ScopeExit(r);
    error := (ScopeEnds(r) + [SavedError(r, leaving, left)])[0];
  }

  /**
   * Without hooks the client is told of what went wrong first: the refusal of the request, else what its
   * call came out as, else what the encoding of a unary response did.
   */
  lemma ErrorWithoutHooks<S, T>(r: Request<S, T>) returns (outcome: Outcome<()>, error: Option<Exn>)
    requires r.hooks == []
    ensures match r.setup
      case Refused(refusal, _) => outcome == Raise(refusal)
      case Accepted =>
        if r.handler.Unary? && CalledAs(r.handler, Return(())) then outcome == r.handler.encode
        else CalledAs(r.handler, outcome)
    ensures ReportedAs(r, outcome, error) && FinalEnd(r) == Return(error)
  {
    var done := PerformOutcome(r);
    ReturnsNothing(done);
    if r.setup.Accepted? {
      CalledOutcome(r);
    }
    outcome := if r.setup.Accepted? && r.handler.Unary? && done.Return? then r.handler.encode else done;
    ReturnsNothing(outcome);
    NothingEnds(Begun(r), ScopeEnds(r), SavedError(r, ScopeExit(r).0, ScopeExit(r).1));
    NothingEnds(Begun(r), CallEnds(r), ErrorOf(done));
    error := SavedError(r, ScopeExit(r).0, ScopeExit(r).1);
  }

  /**
   * The hooks of a single response end before it is sent. What they leave then is how its call comes out,
   * and a hook's error is reported as it is.
   */
  lemma EarlyErrorIsReported<S, T>(r: Request<S, T>, ended: Outcome<Option<Exn>>)
    requires EndsEarly(r) && r.handler.watchExit.Return?
    requires ended == EndingWith(Begun(r), [], None)
    ensures ended.Cancelled? ==> PerformOutcome(r) == Cancelled
    ensures ended.Interrupted? ==> PerformOutcome(r) == Interrupted
    ensures ended.Return? && ended.value.Some? ==> PerformOutcome(r) == Raise(ended.value.value)
    ensures ended.Return? && ended.value.Some? ==> FinalEnd(r) == ended && MessageCount(r) == 0
  {
    if ended.Return? && ended.value.Some? {
      EndedOnce(Begun(r), None, ended.value);
      assert ScopeExit(r) == (Return(()), ended.value);
      EndedTwice(Begun(r), None, ended.value);
    }
  }

  /** Once its hooks have ended, a run's later calls of `end` do nothing. */
  lemma EndedTwice<S, T>(begun: I.StartRun<S, T>, first: Option<Exn>, error: Option<Exn>)
    requires EndingWith(begun, [], first).Return?
    ensures EndingWith(begun, [first, error], error) == Return(error)
  {
    EndedOnce(begun, first, error);
    var u := I.Unwind(begun.started, first, false, begun.world);
    var events, states := I.UnwindTrace(begun.started, first, false, begun.world);
    assert [first, error][1..] == [error] && [error][1..] == [];
    assert I.EndCalls(u.rest, [error], u.world) == (u.world, u.rest);
  }

  lemma {:induction false} NothingEnds<S, T>(begun: I.StartRun<S, T>, ends: seq<Option<Exn>>, error: Option<Exn>)
    requires begun.started == []
    ensures EndingWith(begun, ends, error) == Return(error)
    decreases |ends|
  {
    if ends != [] {
      NothingEnds(begun, ends[1..], error);
    }
  }
}
