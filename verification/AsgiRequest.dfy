/** The request handler, on the oracle of its awaits. */
module AsgiRequest {
  import opened Common
  import opened Exceptions
  import opened AsgiResponse
  import opened AsgiSender
  import Disconnect
  import H = Hoisting
  import I = Interceptors

  // ---------------------------------------------------------------- The environment

  /** How the responses of a stream's handler come about. Encoding a message can raise. */
  datatype Responses =
    | Single(write: Outcome<()>)
    | Many(writes: seq<Outcome<()>>, last: Outcome<()>)

  /**
   * A Connect unary call, or a stream. `begin` covers reading the request of a stream and invoking
   * the handler. `close` closes the handler's stream and `watchExit` waits for the disconnect watch.
   */
  datatype Handler =
    | Unary(read: Outcome<()>, call: Outcome<()>, watchExit: Outcome<()>, encode: Outcome<()>)
    | Stream(protocol: Protocol, compressionKnown: bool, begin: Outcome<()>, responses: Responses,
             close: Outcome<()>, watchExit: Outcome<()>)

  datatype Setup = Refused(error: Exn, protocol: Option<Protocol>) | Accepted

  /**
   * `scope` says, when a cancellation leaves the scope of the deadline, whether it was the scope's
   * own. `encodeEnd` is the encoding of the status, `requestClose` the closing of the request stream.
   */
  datatype Request<!S, !T> = Request(
    setup: Setup, handler: Handler, hooks: seq<I.Hooks<S, T>>, world: I.World<S, T>,
    scope: Disconnect.Scope, deadline: Option<Disconnect.Time>, disconnected: bool,
    encodeEnd: Outcome<()>, requestClose: Outcome<()>, send: nat -> Outcome<()>)

  predicate Streams<S, T>(r: Request<S, T>) {
    r.setup.Accepted? && r.handler.Stream?
  }

  // ---------------------------------------------------------------- What the environment asks for

  function Writes(responses: Responses): seq<Outcome<()>> {
    if responses.Single? then [responses.write] else responses.writes
  }

  /** The messages before the first that can't be encoded. */
  function Encoded(writes: seq<Outcome<()>>): (n: nat)
    ensures n <= |writes|
    ensures forall k :: 0 <= k < n ==> writes[k].Return?
    ensures n < |writes| ==> !writes[n].Return?
  {
    if writes == [] || !writes[0].Return? then 0 else 1 + Encoded(writes[1..])
  }

  /** How sending the messages comes out, if every send returns. */
  function SendOutcome(responses: Responses): Outcome<()> {
    var writes, n := Writes(responses), Encoded(Writes(responses));
    if n < |writes| then writes[n]
    else if responses.Single? then Return(())
    else responses.last
  }

  /** The hooks as they started; a request that is refused before them starts none. */
  function Begun<S, T>(r: Request<S, T>): I.StartRun<S, T> {
    if r.setup.Refused? then I.StartRun(r.world, [], Return(())) else I.StartAll(r.hooks, r.world)
  }

  /** What `end` returns when it is called with `error`, after calls with `ends`. */
  function EndingWith<S, T>(begun: I.StartRun<S, T>, ends: seq<Option<Exn>>, error: Option<Exn>): Outcome<Option<Exn>> {
    var (world, started) := I.EndCalls(begun.started, ends, begun.world);
    I.EndOutcome(I.Unwind(started, error, false, world))
  }

  /** Closing the handler's stream: what its cleanup raises replaces an error, but not a cancellation. */
  function AfterClose(outcome: Outcome<()>, close: Outcome<()>): Outcome<()> {
    if close.Return? then outcome
    else if outcome.Cancelled? && close.Raise? then outcome
    else close
  }

  /** The hooks of a single response end before it is sent, so on_end can still modify its metadata. */
  function EarlyEnds(h: Handler): seq<Option<Exn>>
    requires h.Stream?
  {
    if h.begin.Return? && h.responses.Single? then [None] else []
  }

  /** Whether the handler of a stream gets as far as its response. */
  function BeginOutcome<S, T>(h: Handler, begun: I.StartRun<S, T>): Outcome<()>
    requires h.Stream?
  {
    if !h.begin.Return? || h.responses.Many? then h.begin
    else
      match EndingWith(begun, [], None)
      case Return(error) => if error.Some? then Raise(error.value) else Return(())
      case Raise(e) => Raise(e)
      case Cancelled => Cancelled
      case Interrupted => Interrupted
  }

  function CallOutcome<S, T>(h: Handler, begun: I.StartRun<S, T>): Outcome<()>
    requires h.Stream?
  {
    if !h.watchExit.Return? then h.watchExit
    else if !BeginOutcome(h, begun).Return? then BeginOutcome(h, begun)
    else AfterClose(SendOutcome(h.responses), h.close)
  }

  /** A stream whose hooks started and whose compression is known is called. */
  predicate Called<S, T>(r: Request<S, T>) {
    Streams(r) && Begun(r).outcome.Return? && r.handler.compressionKnown
  }

  /** The endpoint is called, within the watch, only with a request that could be read. */
  function UnaryOutcome(h: Handler): Outcome<()>
    requires h.Unary?
  {
    if h.read.Return? then AfterExit(h.call, h.watchExit) else h.read
  }

  function PerformOutcome<S, T>(r: Request<S, T>): Outcome<()> {
    if r.setup.Refused? then Raise(r.setup.error)
    else if !Begun(r).outcome.Return? then Begun(r).outcome
    else if r.handler.Unary? then UnaryOutcome(r.handler)
    else if !r.handler.compressionKnown then Raise(ConnectError(Unimplemented))
    else CallOutcome(r.handler, Begun(r))
  }

  /** A unary response is sent within the scope, if the hooks left no error. */
  function UnaryExit<S, T>(r: Request<S, T>, ended: Option<Exn>): (Outcome<()>, Option<Exn>) {
    if ended.Some? || !r.handler.Unary? || r.setup.Refused? then (Return(()), ended)
    else if r.handler.encode.Raise? then (Return(()), Some(r.handler.encode.error))
    else (Plain(r.handler.encode), None)
  }

  /** The hooks end within the scope, with the error of the call. */
  function EndExit<S, T>(r: Request<S, T>, ends: seq<Option<Exn>>, error: Option<Exn>): (Outcome<()>, Option<Exn>) {
    match EndingWith(Begun(r), ends, error)
    case Return(ended) => UnaryExit(r, ended)
    case Raise(e) => (Raise(e), error)
    case Cancelled => (Cancelled, error)
    case Interrupted => (Interrupted, error)
  }

  /** How the scope of the deadline is left, and with which error, if every send returns. */
  function ScopeExit<S, T>(r: Request<S, T>): (Outcome<()>, Option<Exn>) {
    var done := PerformOutcome(r);
    if done.Cancelled? || done.Interrupted? then (done, None)
    else
      EndExit(r, CallEnds(r), ErrorOf(done))
  }

  /** The calls of `end` before the one that ends the scope. */
  function CallEnds<S, T>(r: Request<S, T>): seq<Option<Exn>> {
    if Called(r) then EarlyEnds(r.handler) else []
  }

  /** All the calls of `end` within the scope, if every send returns. */
  function ScopeEnds<S, T>(r: Request<S, T>): seq<Option<Exn>> {
    var done := PerformOutcome(r);
    if done.Cancelled? || done.Interrupted? then CallEnds(r) else CallEnds(r) + [ErrorOf(done)]
  }

  /** The error of the request's own scope, if that is what cut the request short. */
  function Own<S, T>(r: Request<S, T>): Option<Exn> {
    if r.scope.expired
    then Some(ConnectError(Disconnect.TimeoutCode(r.disconnected, r.deadline, r.scope.when)))
    else None
  }

  function SavedError<S, T>(r: Request<S, T>, leaving: Outcome<()>, error: Option<Exn>): Option<Exn> {
    I.SavedError(leaving, error, Own(r))
  }

  /** A unary request leaves its scope, and saves its error, as a hoisted run does, whatever cancels it. */
  lemma UnaryIsServed<S, T>(r: Request<S, T>)
    requires r.setup.Accepted? && r.handler.Unary? && r.handler.encode.Return?
    ensures var endpoint: I.Call<S, T, (), ()> := (q: (), w: I.World<S, T>) => (w, r.handler.call);
      var body := H.Reading(r.handler.read, endpoint, r.handler.watchExit);
      var (started, w1, outcome) := I.Body(r.hooks, body, (), r.world);
      var scoped := I.LeaveScope(started, outcome, w1);
      && ScopeExit(r) == (scoped.leaving, scoped.error)
      && started == Begun(r).started && Plain(outcome) == Plain(PerformOutcome(r))
      && SavedError(r, ScopeExit(r).0, ScopeExit(r).1) == I.SavedError(scoped.leaving, scoped.error, Own(r))
  {
    ReturnsNothing(PerformOutcome(r));
    if Begun(r).outcome.Return? {
      var endpoint: I.Call<S, T, (), ()> := (q: (), w: I.World<S, T>) => (w, r.handler.call);
      var body := H.Reading(r.handler.read, endpoint, r.handler.watchExit);
      assert Plain(body((), Begun(r).world).1) == Plain(UnaryOutcome(r.handler));
    }
  }

  /** What the last call of `end` returns, if every send within the scope returns. */
  function FinalEnd<S, T>(r: Request<S, T>): Outcome<Option<Exn>> {
    var (leaving, error) := ScopeExit(r);
    EndingWith(Begun(r), ScopeEnds(r), SavedError(r, leaving, error))
  }

  /** A request that goes on as this one, or as this one cut short, ends its hooks as that one does. */
  lemma FinalEndIs<S, T>(
      r: Request<S, T>, like: Request<S, T>, leaving: Outcome<()>, error: Option<Exn>, ends: seq<Option<Exn>>)
    requires like == r || like == CutShort(r)
    requires (leaving, error) == ScopeExit(like) && ends == ScopeEnds(like)
    ensures EndingWith(Begun(r), ends, SavedError(r, leaving, error)) == FinalEnd(like)
  {
  }

  // ---------------------------------------------------------------- A start that is cut off

  /** Whether anything is sent within the scope: the first message of a stream, or a unary response. */
  predicate SendsWithin<S, T>(r: Request<S, T>) {
    if Streams(r) then
      Called(r) && BeginOutcome(r.handler, Begun(r)).Return? && Writes(r.handler.responses) != []
    else
      && r.setup.Accepted? && PerformOutcome(r).Return?
      && EndingWith(Begun(r), [], None) == Return(None) && r.handler.encode.Return?
  }

  /**
   * A request whose first send is cut off goes on as if that outcome were the encoding's of its first
   * message, or of its unary response.
   */
  function CutShort<S, T>(r: Request<S, T>): Request<S, T> {
    r.(handler := CutHandler(r.handler, r.send(0)))
  }

  function CutHandler(h: Handler, first: Outcome<()>): Handler {
    match h
    case Unary(_, _, _, _) => h.(encode := first)
    case Stream(_, _, _, Single(_), _, _) => h.(responses := Single(first))
    case Stream(_, _, _, Many(writes, last), _, _) =>
      if writes == [] then h else h.(responses := Many([first] + writes[1..], last))
  }

  /** Only the outcome of what sends is another: the rest of a request goes on alike. */
  lemma CutUnary<S, T>(r: Request<S, T>)
    requires !Streams(r)
    ensures PerformOutcome(CutShort(r)) == PerformOutcome(r) && CallEnds(CutShort(r)) == CallEnds(r) == []
    ensures Begun(CutShort(r)) == Begun(r)
  {
  }

  lemma CutStream<S, T>(r: Request<S, T>, error: Option<Exn>)
    requires Streams(r)
    ensures CallEnds(CutShort(r)) == CallEnds(r)
    ensures EndExit(CutShort(r), CallEnds(r), error) == EndExit(r, CallEnds(r), error)
  {
  }

  /** A unary response is sent when the call and the hooks leave no error, and it can be encoded. */
  lemma UnarySends<S, T>(r: Request<S, T>)
    requires !Streams(r)
    ensures SendsWithin(r) <==>
      && (PerformOutcome(r).Return? || PerformOutcome(r).Raise?)
      && EndingWith(Begun(r), [], ErrorOf(PerformOutcome(r))) == Return(None)
      && r.setup.Accepted? && r.handler.encode.Return?
  {
    EndKeepsError(r, [], ErrorOf(PerformOutcome(r)));
  }

  /** The first send is cut off within the scope, the hooks that are left end, and a status is sent. */
  predicate SendsStartAgain<S, T>(r: Request<S, T>) {
    && (r.send(0).Cancelled? || r.send(0).Interrupted?)
    && SendsWithin(r)
    && FinalEnd(CutShort(r)).Return?
    && (Streams(r) || r.encodeEnd.Return?)
  }

  // ---------------------------------------------------------------- The response

  /** How many messages of a stream are sent, if every send returns. */
  function MessageCount<S, T>(r: Request<S, T>): nat
    requires Streams(r)
  {
    if Called(r) && BeginOutcome(r.handler, Begun(r)).Return? then Encoded(Writes(r.handler.responses)) else 0
  }

  /** The response of a run in which every send returns. */
  function Response<S, T>(r: Request<S, T>, error: Option<Exn>): seq<Event> {
    if Streams(r) then
      Opening(r.handler.protocol, MessageCount(r)) + Ending(r.handler.protocol, error)
    else if error.None? then UNARY_RESPONSE
    else ErrorResponse(ErrorProtocol(r), error.value)
  }

  /** The protocol that an error outside a stream is written for. */
  function ErrorProtocol<S, T>(r: Request<S, T>): Option<Protocol> {
    if r.setup.Refused? then r.setup.protocol else Some(Connect)
  }

  /**
   * What any run may have sent: a stream up to some message and the beginning of its status, or the
   * beginning of a unary response or of an error. `whole` says that nothing of it is missing.
   */
  ghost predicate IsSent<S, T>(r: Request<S, T>, events: seq<Event>, error: Option<Exn>, whole: bool) {
    if Streams(r) then
      exists n: nat ::
        n <= Encoded(Writes(r.handler.responses)) && StreamSent(r.handler.protocol, n, events, error, whole)
    else
      || (events <= UNARY_RESPONSE && (whole ==> error.None? && events == UNARY_RESPONSE))
      || (error.Some? && events <= ErrorResponse(ErrorProtocol(r), error.value)
          && (whole ==> events == ErrorResponse(ErrorProtocol(r), error.value)))
  }

  predicate StreamSent(p: Protocol, n: nat, events: seq<Event>, error: Option<Exn>, whole: bool) {
    events <= Opening(p, n) + Ending(p, error) && (whole ==> events == Opening(p, n) + Ending(p, error))
  }

  /** The whole response to a request that ends with this error, or with none. */
  predicate IsWhole<S, T>(r: Request<S, T>, events: seq<Event>, error: Option<Exn>) {
    if Streams(r) then IsWholeStream(r.handler.protocol, MessageCount(r), events, error)
    else if error.Some? then
      IsWholeError(if r.setup.Refused? then r.setup.protocol else Some(Connect), events, error.value)
    else events == [Start(Ok200, false, None), Body(UnaryMessage, false)]
  }

  lemma ResponseIsWhole<S, T>(r: Request<S, T>, error: Option<Exn>)
    ensures IsWhole(r, Response(r, error), error)
  {
    if Streams(r) {
      StreamIsWhole(r.handler.protocol, MessageCount(r), error);
    } else if error.Some? {
      ErrorReports(ErrorProtocol(r), error.value);
    }
  }

  /** What was sent reports no status but the error saved, and reports it once if nothing is missing. */
  ghost predicate ReportsOnly<S, T>(r: Request<S, T>, events: seq<Event>, error: Option<Exn>, whole: bool) {
    && (StatusesIn(events) == [] || StatusesIn(events) == [error])
    && (whole && (Streams(r) || error.Some?) ==> StatusesIn(events) == [error])
    && (Streams(r) ==> forall k :: 0 <= k < |events| ==> IsStreamEvent(r.handler.protocol, k, events[k], error))
  }

  lemma PrefixReports(events: seq<Event>, all: seq<Event>, error: Option<Exn>)
    requires events <= all && (StatusesIn(all) == [] || StatusesIn(all) == [error])
    ensures StatusesIn(events) == [] || StatusesIn(events) == [error]
  {
    StatusesOfPrefix(all, |events|);
    assert all[..|events|] == events;
  }

  lemma UnaryReports()
    ensures StatusesIn(UNARY_RESPONSE) == []
  {
    PairStatuses(UNARY_RESPONSE[0], UNARY_RESPONSE[1]);
  }

  lemma SentReports<S, T>(r: Request<S, T>, events: seq<Event>, error: Option<Exn>, whole: bool)
    requires IsSent(r, events, error, whole)
    ensures ReportsOnly(r, events, error, whole)
  {
    if Streams(r) {
      var p := r.handler.protocol;
      var n: nat :| n <= Encoded(Writes(r.handler.responses)) && StreamSent(p, n, events, error, whole);
      var all := Opening(p, n) + Ending(p, error);
      StreamReports(p, n, error);
      StreamIsWhole(p, n, error);
      PrefixReports(events, all, error);
      forall k | 0 <= k < |events|
        ensures IsStreamEvent(p, k, events[k], error)
      {
        WholeStreamEvents(p, n, all, error, k);
      }
    } else if events <= UNARY_RESPONSE && (whole ==> error.None? && events == UNARY_RESPONSE) {
      UnaryReports();
      PrefixReports(events, UNARY_RESPONSE, error);
    } else {
      ErrorReports(ErrorProtocol(r), error.value);
      PrefixReports(events, ErrorResponse(ErrorProtocol(r), error.value), error);
    }
  }

  // ---------------------------------------------------------------- Success

  predicate HandlerReturns(h: Handler) {
    match h
    case Unary(read, call, watchExit, encode) => read.Return? && call.Return? && watchExit.Return? && encode.Return?
    case Stream(_, compressionKnown, begin, responses, close, watchExit) =>
      && compressionKnown && begin.Return? && close.Return? && watchExit.Return?
      && (forall k :: 0 <= k < |Writes(responses)| ==> Writes(responses)[k].Return?)
      && (responses.Many? ==> responses.last.Return?)
  }

  /** Nothing that the environment was asked for went wrong. */
  predicate Succeeds<S, T>(r: Request<S, T>) {
    && r.setup.Accepted? && Begun(r).outcome.Return?
    && HandlerReturns(r.handler) && EndingWith(Begun(r), [], None) == Return(None)
  }

  /** A single response's run ends once more when it has ended; nothing is left to do then. */
  lemma EndedOnce<S, T>(begun: I.StartRun<S, T>, first: Option<Exn>, error: Option<Exn>)
    requires EndingWith(begun, [], first).Return?
    ensures EndingWith(begun, [first], error) == Return(error)
  {
    var u := I.Unwind(begun.started, first, false, begun.world);
    var events, states := I.UnwindTrace(begun.started, first, false, begun.world);
    assert I.EndCalls(begun.started, [first], begun.world) == (u.world, u.rest) by {
      assert [first][1..] == [];
    }
  }

  /** The status is a success exactly when nothing went wrong. */
  lemma SavedErrorIff<S, T>(r: Request<S, T>)
    ensures var (leaving, error) := ScopeExit(r);
      SavedError(r, leaving, error).None? <==> Succeeds(r)
  {
    var begun := Begun(r);
    if Called(r) && EarlyEnds(r.handler) == [None] && EndingWith(begun, [], None).Return? {
      EndedOnce(begun, None, ErrorOf(PerformOutcome(r)));
    }
    if r.handler.Stream? {
      var writes := Writes(r.handler.responses);
      assert Encoded(writes) < |writes| ==> !writes[Encoded(writes)].Return?;
    }
    EndKeepsError(r, CallEnds(r), ErrorOf(PerformOutcome(r)));
  }

  /** An error that the hooks are given can be replaced, but not discarded. */
  lemma EndKeepsError<S, T>(r: Request<S, T>, ends: seq<Option<Exn>>, error: Option<Exn>)
    ensures error.Some? && EndingWith(Begun(r), ends, error).Return? ==> EndingWith(Begun(r), ends, error).value.Some?
  {
    if error.Some? {
      var (world, started) := I.EndCalls(Begun(r).started, ends, Begun(r).world);
      I.UnwindKeepsError(started, error, false, world);
    }
  }

  // ---------------------------------------------------------------- Streaming

  /** These calls of `end` take the hooks that started to this world, and leave these. */
  ghost predicate EndedAt<S, T>(
      begun: I.StartRun<S, T>, ends: seq<Option<Exn>>, world: I.World<S, T>, left: seq<I.Frame<S, T>>)
  {
    I.EndCalls(begun.started, ends, begun.world) == (world, left)
  }

  /** The run is where these calls of `end` take the hooks that started. */
  ghost predicate EndedBy<S, T>(run: I.MetadataInterceptorsRun<S, T>, begun: I.StartRun<S, T>, ends: seq<Option<Exn>>)
    reads run
  {
    EndedAt(begun, ends, run.world, run.started)
  }

  /** The hooks that started have ended in reverse, each of them once, down to the ones that are left. */
  ghost predicate HooksEnded<S, T>(begun: I.StartRun<S, T>, world: I.World<S, T>, left: seq<I.Frame<S, T>>) {
    begun.world.log <= world.log && I.EndsInReverse(begun.started, world.log[|begun.world.log|..], left)
  }

  lemma EndedInReverse<S, T>(run: I.MetadataInterceptorsRun<S, T>, begun: I.StartRun<S, T>, ends: seq<Option<Exn>>)
    requires EndedBy(run, begun, ends)
    ensures HooksEnded(begun, run.world, run.started)
  {
    var events, states := I.EndCallsTrace(begun.started, ends, begun.world);
    assert run.world.log[|begun.world.log|..] == events;
  }

  /** The run of the response stream: headers before the first message, and one send a message. */
  method SendMessages<S, T>(
      h: Handler, sender: ResponseSender, run: I.MetadataInterceptorsRun<S, T>) returns (outcome: Outcome<()>)
    requires h.Stream? && sender.Valid() && sender.sum == FRESH
    requires h.responses.Single? ==> run.started == []
    modifies sender
    ensures sender.CanEnd(h.protocol, Encoded(Writes(h.responses)))
    ensures sender.failed ==> outcome.Raise?
    ensures h.responses.Single? ==> sender.sum.allAfterHooks
    ensures sender.sum.allReturn ==>
      && outcome == SendOutcome(h.responses)
      && (if Writes(h.responses) == [] then sender.sum.completed == []
          else sender.sum.completed == Opening(h.protocol, Encoded(Writes(h.responses))))
    ensures sender.StartedOnce() && (sender.sum.first.Some? <==> Writes(h.responses) != [])
    ensures sender.sum.first.Some? && sender.CutOff() ==> outcome == sender.send(0)
  {
    var writes := if h.responses.Single? then [h.responses.write] else h.responses.writes;
    for k := 0 to |writes|
      invariant sender.CanEnd(h.protocol, k) && !sender.failed && sender.sum.allReturn
      invariant h.responses.Single? ==> sender.sum.allAfterHooks
      invariant if k == 0 then sender.sum.completed == [] else sender.sum.completed == Opening(h.protocol, k)
      invariant k <= Encoded(writes)
      invariant sender.StartedOnce() && (sender.sum.first.Some? <==> k > 0) && (sender.started <==> k > 0)
    {
      outcome := sender.SendMessage(h.protocol, k, writes[k], |run.started|);
      if !outcome.Return? {
        return;
      }
    }
    outcome := if h.responses.Single? then Return(()) else h.responses.last;
  }

  /** The end of the hooks before a single response. */
  method EndEarly<S, T>(run: I.MetadataInterceptorsRun<S, T>, ghost begun: I.StartRun<S, T>)
    returns (ended: Outcome<Option<Exn>>)
    requires run.world == begun.world && run.started == begun.started
    modifies run
    ensures EndedBy(run, begun, [None]) && ended == EndingWith(begun, [], None)
    ensures !ended.Interrupted? ==> run.started == []
  {
    I.EndCallsSnoc(begun.started, [], None, begun.world);
    var none: seq<Option<Exn>> := [None];
    assert [] + none == none;
    ended := run.End(None);
  }

  /** `_call_stream`: the handler within the watch for a disconnect. */
  method CallStream<S, T>(
      h: Handler, sender: ResponseSender, run: I.MetadataInterceptorsRun<S, T>, ghost begun: I.StartRun<S, T>)
    returns (outcome: Outcome<()>)
    requires h.Stream? && sender.Valid() && sender.sum == FRESH
    requires run.world == begun.world && run.started == begun.started
    modifies sender, run
    ensures EndedBy(run, begun, EarlyEnds(h))
    ensures sender.CanEnd(h.protocol, Encoded(Writes(h.responses)))
    ensures sender.failed ==> !outcome.Return?
    ensures h.responses.Single? ==> sender.sum.allAfterHooks
    ensures sender.sum.allReturn ==>
      && outcome == CallOutcome(h, begun)
      && (if BeginOutcome(h, begun).Return? && Writes(h.responses) != []
          then sender.sum.completed == Opening(h.protocol, Encoded(Writes(h.responses)))
          else sender.sum.completed == [])
    ensures sender.StartedOnce()
    ensures sender.sum.first.Some? <==> BeginOutcome(h, begun).Return? && Writes(h.responses) != []
    ensures sender.sum.first.Some? && sender.CutOff() ==> outcome == CallOutcome(CutHandler(h, sender.send(0)), begun)
  {
    outcome := h.begin;
    if outcome.Return? && h.responses.Single? {
      var ended := EndEarly(run, begun);
      outcome :=
        match ended
        case Return(error) => if error.Some? then Raise(error.value) else Return(())
        case _ => Thrown(ended);
    }
    if outcome.Return? {
      outcome := SendMessages(h, sender, run);
      outcome := AfterClose(outcome, h.close);
    }
    if !h.watchExit.Return? {
      outcome := h.watchExit;
    }
  }

  // ---------------------------------------------------------------- The request

  /** What has been sent of a stream when its scope is left, if every send returned. */
  ghost predicate StreamIsOpened<S, T>(r: Request<S, T>, completed: seq<Event>)
    requires Streams(r)
  {
    if Called(r) && BeginOutcome(r.handler, Begun(r)).Return? && Writes(r.handler.responses) != []
    then completed == Opening(r.handler.protocol, Encoded(Writes(r.handler.responses)))
    else completed == []
  }

  /** What is within the inner `try`: the setup, the hooks and the call. */
  method Perform<S, T>(r: Request<S, T>, sender: ResponseSender, run: I.MetadataInterceptorsRun<S, T>)
    returns (outcome: Outcome<()>, streaming: bool, ends: seq<Option<Exn>>)
    requires sender.Valid() && sender.sum == FRESH && sender.send == r.send && run.started == []
    requires run.world == r.world && run.interceptors == r.hooks
    modifies sender, run
    ensures ends == CallEnds(r) && EndedBy(run, Begun(r), ends)
    ensures sender.Valid() && (sender.failed ==> !outcome.Return?)
    ensures r.setup.Refused? ==> outcome.Raise?
    ensures if Streams(r) then sender.CanEnd(r.handler.protocol, Encoded(Writes(r.handler.responses)))
      else sender.sum == FRESH
    ensures r.handler.Stream? && r.handler.responses.Single? ==> sender.sum.allAfterHooks
    ensures streaming <==> Called(r)
    ensures sender.sum.allReturn ==>
      outcome == PerformOutcome(r) && (Streams(r) ==> StreamIsOpened(r, sender.sum.completed))
    ensures !Streams(r) ==> outcome == PerformOutcome(r)
    ensures sender.StartedOnce() && (sender.sum.first.Some? <==> Streams(r) && SendsWithin(r))
    ensures sender.sum.first.Some? && sender.CutOff() ==> outcome == PerformOutcome(CutShort(r))
  {
    streaming, ends := false, [];
    if r.setup.Refused? {
      return Raise(r.setup.error), false, [];
    }
    outcome := run.Start();
    if !outcome.Return? {
      return;
    }
    match r.handler
    case Unary(read, call, watchExit, _) =>
      outcome := read;
      if outcome.Return? {
        outcome := call;
        if !watchExit.Return? {
          outcome := watchExit;
        }
      }
    case Stream(_, compressionKnown, _, _, _, _) =>
      if !compressionKnown {
        return Raise(ConnectError(Unimplemented)), false, [];
      }
      streaming, ends := true, EarlyEnds(r.handler);
      outcome := CallStream(r.handler, sender, run, Begun(r));
  }

  /** What may have been sent when the scope is left: all of a unary response, or part of a stream. */
  ghost predicate ReadyToConclude<S, T>(
      r: Request<S, T>, sender: ResponseSender, leaving: Outcome<()>, error: Option<Exn>)
    reads sender
  {
    && sender.Valid() && sender.send == r.send && sender.StartedOnce() && !leaving.Raise?
    && (sender.failed ==> !leaving.Return? || error.Some?)
    && (r.setup.Refused? && leaving.Return? ==> error.Some?)
    && (if Streams(r) then
          && sender.CanEnd(r.handler.protocol, Encoded(Writes(r.handler.responses)))
          && (sender.sum.allReturn ==> StreamIsOpened(r, sender.sum.completed))
        else if leaving.Return? && error.None? then sender.sum.phase.Complete? && sender.sum.completed == UNARY_RESPONSE
        else
          && sender.sum.completed <= UNARY_RESPONSE
          && (sender.sum.phase.NotStarted? <==> sender.sum.completed == [])
          && (sender.sum.allReturn ==> sender.sum.completed == []))
    && (r.handler.Unary? || r.handler.responses.Single? ==> sender.sum.allAfterHooks)
  }

  /** What may have been sent when the call is over and the hooks are to end. */
  ghost predicate ReadyToEnd<S, T>(r: Request<S, T>, sender: ResponseSender, error: Option<Exn>)
    reads sender
  {
    && ReadyToConclude(r, sender, if Streams(r) || error.Some? then Return(()) else Cancelled, error)
    && (!Streams(r) ==> sender.sum == FRESH)
    && (r.setup.Refused? ==> error.Some?)
  }

  /** The end of the scope: the response of a unary call. */
  method RespondWithin<S, T>(
      r: Request<S, T>, sender: ResponseSender, run: I.MetadataInterceptorsRun<S, T>, ended: Option<Exn>)
    returns (leaving: Outcome<()>, error: Option<Exn>)
    requires run.started == [] && ReadyToEnd(r, sender, ended)
    modifies sender
    ensures ReadyToConclude(r, sender, leaving, error)
    ensures sender.sum.allReturn ==> old(sender.sum.allReturn) && (leaving, error) == UnaryExit(r, ended)
    ensures Streams(r) ==> sender.sum == old(sender.sum) && (leaving, error) == UnaryExit(r, ended)
    ensures !Streams(r) ==>
      && (sender.sum.first.Some? <==> ended.None? && r.setup.Accepted? && r.handler.encode.Return?)
      && (sender.sum.first.Some? && sender.CutOff() ==> (leaving, error) == UnaryExit(CutShort(r), ended))
  {
    leaving, error := Return(()), ended;
    if error.None? && r.setup.Accepted? && r.handler.Unary? {
      leaving := sender.SendUnary(r.handler.encode, |run.started|);
      ReturnsNothing(leaving);
      if leaving.Raise? {
        error, leaving := Some(leaving.error), Return(());
      }
    }
  }

  /** The call of `end` within the scope, and what follows it. */
  method EndWithin<S, T>(
      r: Request<S, T>, sender: ResponseSender, run: I.MetadataInterceptorsRun<S, T>, ends: seq<Option<Exn>>,
      error: Option<Exn>)
    returns (leaving: Outcome<()>, left: Option<Exn>)
    requires EndedBy(run, Begun(r), ends) && ReadyToEnd(r, sender, error)
    modifies sender, run
    ensures EndedBy(run, Begun(r), ends + [error])
    ensures ReadyToConclude(r, sender, leaving, left)
    ensures leaving.Return? ==> run.started == []
    ensures sender.sum.allReturn ==> old(sender.sum.allReturn) && (leaving, left) == EndExit(r, ends, error)
    ensures Streams(r) ==> sender.sum == old(sender.sum) && (leaving, left) == EndExit(r, ends, error)
    ensures !Streams(r) ==>
      && (sender.sum.first.Some? <==>
            EndingWith(Begun(r), ends, error) == Return(None) && r.setup.Accepted? && r.handler.encode.Return?)
      && (sender.sum.first.Some? && sender.CutOff() ==> (leaving, left) == EndExit(CutShort(r), ends, error))
  {
    I.EndCallsSnoc(Begun(r).started, ends, error, Begun(r).world);
    var ended := run.End(error);
    if !ended.Return? {
      return Thrown(ended), error;
    }
    leaving, left := RespondWithin(r, sender, run, ended.value);
  }

  /** The body of the scope: the request, the end of its hooks, and the response of a unary call. */
  method WithinScope<S, T>(r: Request<S, T>, sender: ResponseSender, run: I.MetadataInterceptorsRun<S, T>)
    returns (leaving: Outcome<()>, error: Option<Exn>, streaming: bool, ends: seq<Option<Exn>>)
    requires sender.Valid() && sender.sum == FRESH && sender.send == r.send && run.started == []
    requires run.world == r.world && run.interceptors == r.hooks
    modifies sender, run
    ensures EndedBy(run, Begun(r), ends)
    ensures ReadyToConclude(r, sender, leaving, error)
    ensures leaving.Return? ==> run.started == []
    ensures streaming <==> Called(r)
    ensures sender.sum.allReturn ==> (leaving, error) == ScopeExit(r) && ends == ScopeEnds(r)
    ensures sender.sum.first.Some? <==> SendsWithin(r)
    ensures sender.sum.first.Some? && sender.CutOff() ==>
      (leaving, error) == ScopeExit(CutShort(r)) && ends == ScopeEnds(CutShort(r))
  {
    leaving, streaming, ends := Perform(r, sender, run);
    if Streams(r) {
      CutStream(r, ErrorOf(leaving));
    } else {
      CutUnary(r);
      UnarySends(r);
    }
    if leaving.Cancelled? || leaving.Interrupted? {
      return leaving, None, streaming, ends;
    }
    var raised := ErrorOf(leaving);
    leaving, error := EndWithin(r, sender, run, ends, raised);
    ends := ends + [raised];
  }

  lemma StreamIsSent<S, T>(r: Request<S, T>, n: nat, events: seq<Event>, error: Option<Exn>, whole: bool)
    requires Streams(r) && n <= Encoded(Writes(r.handler.responses))
    requires StreamSent(r.handler.protocol, n, events, error, whole)
    ensures IsSent(r, events, error, whole)
  {
  }

  /** The status, or a whole unary response that has been sent already. */
  method Respond<S, T>(
      r: Request<S, T>, sender: ResponseSender, run: I.MetadataInterceptorsRun<S, T>, error: Option<Exn>,
      ghost leaving: Outcome<()>, ghost scopeError: Option<Exn>)
    returns (outcome: Outcome<()>, responded: bool)
    requires run.started == [] && ReadyToConclude(r, sender, leaving, scopeError)
    requires error.Some? <==> !leaving.Return? || scopeError.Some?
    modifies sender
    ensures sender.Valid() && sender.sum.allAfterHooks == old(sender.sum.allAfterHooks)
    ensures IsSent(r, sender.sum.completed, error, responded)
    ensures responded ==> sender.sum.phase.Complete? && outcome.Return?
    ensures error.None? && outcome.Return? ==> responded
    ensures sender.sum.allReturn ==> old(sender.sum.allReturn)
    ensures sender.sum.allReturn && r.encodeEnd.Return? ==> responded && sender.sum.completed == Response(r, error)
    ensures sender.sum.restarted <==>
      old(sender.sum.first.Some?) && sender.CutOff() && (Streams(r) || r.encodeEnd.Return?)
  {
    if Streams(r) {
      ghost var before := sender.sum.completed;
      ghost var n: nat := if before == [] then 0 else |before| - 1;
      ghost var limit := Encoded(Writes(r.handler.responses));
      outcome, responded := sender.EndStream(
        r.handler.protocol, error, r.encodeEnd, |run.started|, limit);
      StreamIsSent(r, n, sender.sum.completed, error, responded);
    } else if error.Some? {
      outcome, responded := sender.HandleError(
        error.value, ErrorProtocol(r), r.encodeEnd, |run.started|);
    } else {
      outcome, responded := Return(()), true;
    }
  }

  /** The cleanup: the hooks that are left, and then the status. */
  method CleanUp<S, T>(
      r: Request<S, T>, sender: ResponseSender, run: I.MetadataInterceptorsRun<S, T>, error: Option<Exn>,
      cancelled: bool,
      ghost ends: seq<Option<Exn>>, ghost leaving: Outcome<()>, ghost scopeError: Option<Exn>)
    returns (final: Outcome<Option<Exn>>, cleanup: Outcome<()>, responded: bool)
    requires ReadyToConclude(r, sender, leaving, scopeError)
    requires error.Some? <==> !leaving.Return? || scopeError.Some?
    requires EndedBy(run, Begun(r), ends)
    requires error.None? ==> run.started == []
    modifies sender, run
    ensures EndedBy(run, Begun(r), ends + [error]) && final == EndingWith(Begun(r), ends, error)
    ensures sender.Valid() && !final.Raise?
    ensures !final.Interrupted? ==> run.started == []
    ensures sender.sum.allAfterHooks == old(sender.sum.allAfterHooks)
    ensures final.Return? ==> (error.Some? <==> final.value.Some?)
    ensures if final.Return? then IsSent(r, sender.sum.completed, final.value, responded)
      else sender.sum == old(sender.sum) && !responded && !cleanup.Return? && !cleanup.Raise?
    ensures cancelled ==> !cleanup.Raise?
    ensures responded ==> sender.sum.phase.Complete? && cleanup.Return?
    ensures final.Return? && final.value.None? && !cancelled && cleanup.Return? ==> responded
    ensures sender.sum.allReturn ==> old(sender.sum.allReturn)
    ensures final.Return? && sender.sum.allReturn && r.encodeEnd.Return? ==>
      responded && sender.sum.completed == Response(r, final.value)
    ensures sender.sum.restarted <==>
      final.Return? && old(sender.sum.first.Some?) && sender.CutOff() && (Streams(r) || r.encodeEnd.Return?)
  {
    responded, cleanup := false, Return(());
    I.EndCallsSnoc(Begun(r).started, ends, error, Begun(r).world);
    final := run.End(error);
    match final {
      case Return(e) =>
        cleanup, responded := Respond(r, sender, run, e, leaving, scopeError);
        if cancelled && cleanup.Raise? {
          cleanup := Return(());
        }
      case Cancelled => cleanup := Cancelled;
      case Interrupted => cleanup := Interrupted;
    }
  }

  /** What was sent when the scope was left is the beginning of a response. */
  lemma PartIsSent<S, T>(
      r: Request<S, T>, sender: ResponseSender, leaving: Outcome<()>, error: Option<Exn>, reported: Option<Exn>)
    requires ReadyToConclude(r, sender, leaving, error)
    ensures IsSent(r, sender.sum.completed, reported, false)
  {
    if Streams(r) {
      var n: nat := if sender.sum.completed == [] then 0 else |sender.sum.completed| - 1;
      StreamIsSent(r, n, sender.sum.completed, reported, false);
    }
  }

  /** What follows the scope: the error is saved for the client, and the request is cleaned up. */
  method Conclude<S, T>(
      r: Request<S, T>, sender: ResponseSender, run: I.MetadataInterceptorsRun<S, T>, leaving: Outcome<()>,
      scopeError: Option<Exn>, ghost ends: seq<Option<Exn>>)
    returns (
      final: Outcome<Option<Exn>>, cleanup: Outcome<()>, responded: bool, error: Option<Exn>, inFlight: Outcome<()>)
    requires ReadyToConclude(r, sender, leaving, scopeError)
    requires EndedBy(run, Begun(r), ends)
    requires leaving.Return? ==> run.started == []
    modifies sender, run
    ensures EndedBy(run, Begun(r), ends + [SavedError(r, leaving, scopeError)])
    ensures final == EndingWith(Begun(r), ends, SavedError(r, leaving, scopeError))
    ensures sender.Valid() && (!final.Interrupted? ==> run.started == [])
    ensures sender.sum.allAfterHooks == old(sender.sum.allAfterHooks)
    ensures final.Return? ==> error == final.value && (error.Some? <==> SavedError(r, leaving, scopeError).Some?)
    ensures !final.Return? ==> !cleanup.Return? && !cleanup.Raise?
    ensures IsSent(r, sender.sum.completed, error, responded)
    ensures responded ==> sender.sum.phase.Complete? && cleanup.Return?
    ensures cleanup.Return? && inFlight.Return? && error.None? ==> responded
    ensures inFlight == (if leaving.Cancelled? && r.scope.expired then Return(()) else leaving)
    ensures inFlight.Cancelled? ==> !cleanup.Raise?
    ensures sender.sum.allReturn ==> old(sender.sum.allReturn)
    ensures final.Return? && sender.sum.allReturn && r.encodeEnd.Return? ==>
      responded && sender.sum.completed == Response(r, error)
    ensures final.Return? && (leaving, scopeError) == ScopeExit(r) ==> (error.None? <==> Succeeds(r))
    ensures sender.sum.restarted <==>
      final.Return? && old(sender.sum.first.Some?) && sender.CutOff() && (Streams(r) || r.encodeEnd.Return?)
  {
    SavedErrorIff(r);
    var cancelled := false;
    error, inFlight := scopeError, leaving;
    if leaving.Cancelled? && r.scope.expired {
      if error.None? {
        error := Some(ConnectError(Disconnect.TimeoutCode(r.disconnected, r.deadline, r.scope.when)));
      }
      inFlight := Return(());
    } else if leaving.Cancelled? {
      error, cancelled := Some(I.CANCELED), true;
    } else if leaving.Interrupted? {
      error := Some(ConnectError(Unknown));
    }
    PartIsSent(r, sender, leaving, scopeError, error);
    final, cleanup, responded := CleanUp(r, sender, run, error, cancelled, ends, leaving, scopeError);
    if final.Return? {
      error := final.value;
    }
  }

  /**
   * What came of a request. `leaving` and `scopeError` are how the scope of the deadline was left, and
   * `ends` the errors that `end` was called with until then; `final` is its last call, before the
   * status. `left` are the hooks that never ended.
   */
  datatype Handled<!S, !T> = Handled(
    attempts: seq<Attempt>, outcome: Outcome<()>, error: Option<Exn>, responded: bool,
    leaving: Outcome<()>, scopeError: Option<Exn>, ends: seq<Option<Exn>>, final: Outcome<Option<Exn>>,
    world: I.World<S, T>, left: seq<I.Frame<S, T>>)

  /** The scope of the deadline, and the cleanup after it. */
  method ServeScope<S, T>(r: Request<S, T>, sender: ResponseSender, run: I.MetadataInterceptorsRun<S, T>)
    returns (h: Handled<S, T>, streaming: bool, cleanup: Outcome<()>)
    requires sender.Valid() && sender.sum == FRESH && sender.send == r.send && run.started == []
    requires run.world == r.world && run.interceptors == r.hooks
    modifies sender, run
    ensures h.attempts == sender.attempts && h.world == run.world && h.left == run.started
    ensures EndedBy(run, Begun(r), h.ends + [SavedError(r, h.leaving, h.scopeError)])
    ensures h.final == EndingWith(Begun(r), h.ends, SavedError(r, h.leaving, h.scopeError))
    ensures sender.Valid() && sender.send == r.send && (!h.final.Interrupted? ==> run.started == [])
    ensures r.handler.Unary? || r.handler.responses.Single? ==> sender.sum.allAfterHooks
    ensures h.final.Return? ==> h.error == h.final.value
    ensures IsSent(r, sender.sum.completed, h.error, h.responded)
    ensures h.responded ==> sender.sum.phase.Complete? && cleanup.Return?
    ensures h.outcome == I.InFlight(h.leaving, Own(r))
    ensures cleanup.Return? && h.outcome.Return? && h.error.None? ==> h.responded
    ensures h.outcome.Cancelled? ==> !cleanup.Raise?
    ensures streaming <==> Called(r)
    ensures sender.sum.allReturn ==>
      (h.leaving, h.scopeError) == ScopeExit(r) && h.ends == ScopeEnds(r) && h.final == FinalEnd(r)
    ensures sender.sum.allReturn && r.encodeEnd.Return? && h.final.Return? ==>
      && sender.sum.completed == Response(r, h.error) && h.responded
      && (h.error.None? <==> Succeeds(r))
    ensures sender.sum.restarted <==> SendsStartAgain(r)
  {
    var leaving, scopeError, ends;
    leaving, scopeError, streaming, ends := WithinScope(r, sender, run);
    if sender.sum.allReturn {
      FinalEndIs(r, r, leaving, scopeError, ends);
    }
    if sender.sum.first.Some? && sender.CutOff() {
      FinalEndIs(r, CutShort(r), leaving, scopeError, ends);
    }
    var final, responded, error, inFlight;
    final, cleanup, responded, error, inFlight := Conclude(r, sender, run, leaving, scopeError, ends);
    h := Handled(
      sender.attempts, inFlight, error, responded, leaving, scopeError, ends, final, run.world, run.started);
  }

  /** After the cleanup: the request stream is closed, and what is in flight or else the error is raised. */
  method Leave<S, T>(
      r: Request<S, T>, streaming: bool, cleanup: Outcome<()>, inFlight: Outcome<()>, error: Option<Exn>,
      responded: bool)
    returns (outcome: Outcome<()>)
    ensures outcome.Return? ==>
      cleanup.Return? && inFlight.Return? && (error.Some? ==> responded && !error.value.OtherError?)
    ensures streaming && !r.requestClose.Return? ==> outcome == r.requestClose
    ensures (streaming ==> r.requestClose.Return?) && cleanup.Return? && inFlight.Return? && responded ==>
      outcome == if error.Some? && error.value.OtherError? then Raise(error.value) else Return(())
    ensures (streaming ==> r.requestClose.Return?) && cleanup.Return? && !inFlight.Return? ==> outcome == inFlight
    ensures (streaming ==> r.requestClose.Return?) && inFlight.Cancelled? && !cleanup.Raise? ==>
      outcome.Cancelled? || outcome.Interrupted?
  {
    if streaming && !r.requestClose.Return? {
      return r.requestClose;
    }
    if !cleanup.Return? {
      return cleanup;
    }
    if !inFlight.Return? {
      return inFlight;
    }
    if error.Some? && (!responded || error.value.OtherError?) {
      return Raise(error.value);
    }
    return Return(());
  }

  /** The scope was left with nothing in flight: it returned, or was cancelled by its own deadline. */
  predicate LeavesQuietly(leaving: Outcome<()>, scope: Disconnect.Scope) {
    leaving.Return? || (leaving.Cancelled? && scope.expired)
  }

  /** `_handle_request`. */
  method HandleRequest<S, T>(r: Request<S, T>) returns (h: Handled<S, T>)
    // The completed sends are the beginning of a response, and nothing follows a failed one.
    ensures !PhaseOf(Completed(h.attempts)).Illegal?
    ensures NothingAfterFailure(h.attempts)
    ensures IsSent(r, Completed(h.attempts), h.error, h.responded)
    // No status is reported but the error saved, and a whole response reports it once.
    ensures ReportsOnly(r, Completed(h.attempts), h.error, h.responded)
    // The attempted sends are too, exactly when no start is sent again; the environment decides that.
    ensures !PhaseOf(Attempted(h.attempts)).Illegal? <==> !StartsAgain(h.attempts)
    ensures StartsAgain(h.attempts) <==> SendsStartAgain(r)
    ensures h.attempts != [] ==> h.attempts[0].outcome == r.send(0)
    // The hooks have ended before any status is sent, and before anything but a response stream is.
    ensures StatusAfterHooks(h.attempts)
    ensures r.handler.Unary? || r.handler.responses.Single? ==> AllAfterHooks(h.attempts)
    // The hooks that started end in reverse, none of them twice, and all of them unless one is interrupted.
    ensures HooksEnded(Begun(r), h.world, h.left)
    ensures !h.final.Interrupted? ==> h.left == []
    // The last call of end is given the error saved for the client, and its own error is reported.
    ensures h.final == EndingWith(Begun(r), h.ends, SavedError(r, h.leaving, h.scopeError))
    ensures EndedAt(Begun(r), h.ends + [SavedError(r, h.leaving, h.scopeError)], h.world, h.left)
    ensures h.final.Return? ==> h.error == h.final.value
    // If every send returns, the environment alone decides how the scope is left and what is sent:
    // exactly one status, and a success exactly when nothing went wrong.
    ensures AllReturn(h.attempts) ==>
      (h.leaving, h.scopeError) == ScopeExit(r) && h.ends == ScopeEnds(r) && h.final == FinalEnd(r)
    ensures AllReturn(h.attempts) && r.encodeEnd.Return? && h.final.Return? ==>
      && Completed(h.attempts) == Response(r, h.error) && IsWhole(r, Completed(h.attempts), h.error)
      && h.responded && PhaseOf(Completed(h.attempts)).Complete?
      && (h.error.None? <==> Succeeds(r))
    // A run that returns has completed the response.
    ensures h.responded ==> PhaseOf(Completed(h.attempts)).Complete?
    ensures h.outcome.Return? ==> h.responded && (h.error.Some? ==> !h.error.value.OtherError?)
    // Closing the request stream of a call comes last, and replaces everything if it fails.
    ensures Called(r) && !r.requestClose.Return? ==> h.outcome == r.requestClose
    // The application's server sees the errors that are neither a Connect error nor an HTTP error.
    ensures (Called(r) ==> r.requestClose.Return?) && h.responded && LeavesQuietly(h.leaving, r.scope) ==>
      h.outcome == if h.error.Some? && h.error.value.OtherError? then Raise(h.error.value) else Return(())
    // An interruption, and a cancellation that is not the deadline's own, stay in flight past the status.
    ensures (Called(r) ==> r.requestClose.Return?) && h.responded && h.leaving.Interrupted? ==>
      h.outcome.Interrupted?
    ensures (Called(r) ==> r.requestClose.Return?) && h.leaving.Cancelled? && !r.scope.expired ==>
      h.outcome.Cancelled? || h.outcome.Interrupted?
  {
    var sender := new ResponseSender(r.send);
    var run := new I.MetadataInterceptorsRun(r.hooks, r.world);
    var streaming, cleanup;
    h, streaming, cleanup := ServeScope(r, sender, run);
    ghost var saved := SavedError(r, h.leaving, h.scopeError);
    EndedInReverse(run, Begun(r), h.ends + [saved]);
    var outcome := Leave(r, streaming, cleanup, h.outcome, h.error, h.responded);
    h := h.(outcome := outcome);
    SenderMeans(sender);
    SentReports(r, sender.sum.completed, h.error, h.responded);
    ResponseIsWhole(r, h.error);
  }

  /** A unary response whose start is cancelled, in a server that then takes the sends of its status. */
  function CancelledStart(): Request<int, int> {
    Request(
      Accepted, Unary(Return(()), Return(()), Return(()), Return(())), [], I.World(0, []),
      Disconnect.Scope(None, false), None, false, Return(()), Return(()), k => if k == 0 then Cancelled else Return(()))
  }

  lemma CancelledStartIsCutOff()
    ensures SendsStartAgain(CancelledStart()) && CancelledStart().send(0) == Cancelled
  {
    var r := CancelledStart();
    assert Begun(r) == I.StartRun(r.world, [], Return(()));
    assert forall error :: EndingWith(Begun(r), [], error) == Return(error);
    assert FinalEnd(CutShort(r)).Return?;
  }

  /** Its start is sent again, so the attempted sends are no beginning of a response. */
  method StartIsSentAgain() returns (h: Handled<int, int>)
    ensures h.attempts != [] && h.attempts[0].outcome.Cancelled?
    ensures StartsAgain(h.attempts) && PhaseOf(Attempted(h.attempts)).Illegal?
  {
    CancelledStartIsCutOff();
    var r := CancelledStart();
    h := HandleRequest(r);
  }
}
