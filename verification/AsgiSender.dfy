/** What a request sends: the sender that tracks the response, and the responses it is used for. */
module AsgiSender {
  import opened Common
  import opened Exceptions
  import opened AsgiResponse

  // ---------------------------------------------------------------- The responses

  /** A stream up to its status: headers, and `n` messages in order. */
  function Opening(p: Protocol, n: nat): (events: seq<Event>)
    ensures |events| == n + 1
  {
    if n == 0 then [Start(Ok200, UsesTrailers(p), None)]
    else Opening(p, n - 1) + [Body(StreamMessage(n - 1), true)]
  }

  /** How a stream reports its status. */
  function Ending(p: Protocol, error: Option<Exn>): seq<Event> {
    if UsesTrailers(p) then [Body(Empty, false), Trailers(error)] else [Body(EndMessage(error), false)]
  }

  const UNARY_RESPONSE: seq<Event> := [Start(Ok200, false, None), Body(UnaryMessage, false)]

  function ErrorStatus(error: Exn): Status {
    match error
    case HttpError(s) => HttpStatus(s)
    case ConnectError(c) => ForCode(c)
    case OtherError(_) => ForCode(Unknown)
  }

  /** gRPC clients read the status from headers; an HTTP error is the same for every protocol. */
  function ErrorResponse(protocol: Option<Protocol>, error: Exn): seq<Event> {
    if (protocol == Some(Grpc) || protocol == Some(GrpcWeb)) && !error.HttpError?
    then [Start(Ok200, false, Some(error)), Body(Empty, false)]
    else [Start(ErrorStatus(error), false, None), Body(ErrorBody(error), false)]
  }

  // ---------------------------------------------------------------- What a response reports

  /** The status that an event reports, if it does: a success, or an error. */
  function StatusIn(event: Event): Option<Option<Exn>> {
    match event
    case Start(_, _, Some(error)) => Some(Some(error))
    case Body(EndMessage(error), _) => Some(error)
    case Body(ErrorBody(error), _) => Some(Some(error))
    case Trailers(error) => Some(error)
    case _ => None
  }

  function StatusesOf(event: Event): seq<Option<Exn>> {
    var status := StatusIn(event);
    if status.Some? then [status.value] else []
  }

  /** The statuses reported, in order. */
  function StatusesIn(events: seq<Event>): seq<Option<Exn>> {
    if events == [] then []
    else
      var n := |events| - 1;
      StatusesIn(events[..n]) + StatusesOf(events[n])
  }

  lemma StatusesSnoc(events: seq<Event>, event: Event)
    ensures StatusesIn(events + [event]) == StatusesIn(events) + StatusesOf(event)
  {
    assert (events + [event])[..|events|] == events;
  }

  lemma {:induction false} StatusesOfPrefix(events: seq<Event>, n: nat)
    requires n <= |events|
    ensures StatusesIn(events[..n]) <= StatusesIn(events)
    decreases |events|
  {
    if n < |events| {
      var front := events[..|events| - 1];
      StatusesOfPrefix(front, n);
      assert front[..n] == events[..n];
    } else {
      assert events[..n] == events;
    }
  }

  /** Only gRPC announces trailers; messages are counted from 0; and only the end of a stream has a status. */
  predicate IsStreamEvent(p: Protocol, k: nat, event: Event, error: Option<Exn>) {
    if k == 0 then event == Start(Ok200, p.Grpc?, None)
    else
      match event
      case Body(StreamMessage(index), more) => index == k - 1 && more
      case Body(EndMessage(status), more) => !p.Grpc? && status == error && !more
      case Body(Empty, more) => p.Grpc? && !more
      case Trailers(status) => p.Grpc? && status == error
      case _ => false
  }

  /** A whole stream of `n` messages that reports the error, or a success. */
  predicate IsWholeStream(p: Protocol, n: nat, events: seq<Event>, error: Option<Exn>) {
    && |events| == (if p.Grpc? then n + 3 else n + 2)
    && events[0] == Start(Ok200, p.Grpc?, None)
    && (forall k :: 1 <= k <= n ==> events[k] == Body(StreamMessage(k - 1), true))
    && (p.Grpc? ==> events[n + 1] == Body(Empty, false) && events[n + 2] == Trailers(error))
    && (!p.Grpc? ==> events[n + 1] == Body(EndMessage(error), false))
  }

  /** A whole response that reports an error outside a stream. */
  predicate IsWholeError(p: Option<Protocol>, events: seq<Event>, error: Exn) {
    match error
    case HttpError(status) => events == [Start(HttpStatus(status), false, None), Body(ErrorBody(error), false)]
    case ConnectError(code) =>
      if p.Some? && !p.value.Connect? then events == [Start(Ok200, false, Some(error)), Body(Empty, false)]
      else events == [Start(ForCode(code), false, None), Body(ErrorBody(error), false)]
    case OtherError(_) =>
      if p.Some? && !p.value.Connect? then events == [Start(Ok200, false, Some(error)), Body(Empty, false)]
      else events == [Start(ForCode(Unknown), false, None), Body(ErrorBody(error), false)]
  }

  lemma OneStatus(event: Event)
    ensures StatusesIn([event]) == StatusesOf(event)
  {
    StatusesSnoc([], event);
    assert StatusesIn([]) == [] && [] + [event] == [event];
  }

  lemma PairStatuses(start: Event, body: Event)
    ensures StatusesIn([start, body]) == StatusesOf(start) + StatusesOf(body)
  {
    OneStatus(start);
    StatusesSnoc([start], body);
    assert [start] + [body] == [start, body];
  }

  /** Headers and messages report nothing. */
  lemma NoStatuses(trailers: bool, k: nat)
    ensures StatusesOf(Start(Ok200, trailers, None)) == [] && StatusesOf(Body(StreamMessage(k), true)) == []
    ensures StatusesOf(Body(Empty, false)) == [] && StatusesOf(Body(UnaryMessage, false)) == []
  {
  }

  lemma {:induction false} OpeningEvents(p: Protocol, n: nat)
    ensures Opening(p, n)[0] == Start(Ok200, p.Grpc?, None)
    ensures forall k :: 1 <= k <= n ==> Opening(p, n)[k] == Body(StreamMessage(k - 1), true)
  {
    if n > 0 {
      OpeningEvents(p, n - 1);
      var front := Opening(p, n - 1);
      forall k | 1 <= k <= n
        ensures Opening(p, n)[k] == Body(StreamMessage(k - 1), true)
      {
        assert k < n ==> Opening(p, n)[k] == front[k];
      }
    }
  }

  lemma {:induction false} OpeningReports(p: Protocol, n: nat)
    ensures StatusesIn(Opening(p, n)) == []
  {
    NoStatuses(p.Grpc?, if n > 0 then n - 1 else 0);
    if n == 0 {
      OneStatus(Start(Ok200, p.Grpc?, None));
    } else {
      OpeningReports(p, n - 1);
      StatusesSnoc(Opening(p, n - 1), Body(StreamMessage(n - 1), true));
    }
  }

  lemma EndingReports(events: seq<Event>, p: Protocol, error: Option<Exn>)
    ensures StatusesIn(events + Ending(p, error)) == StatusesIn(events) + [error]
  {
    if p.Grpc? {
      var body := Body(Empty, false);
      NoStatuses(true, 0);
      StatusesSnoc(events, body);
      StatusesSnoc(events + [body], Trailers(error));
      assert events + Ending(p, error) == events + [body] + [Trailers(error)];
      assert StatusesOf(Trailers(error)) == [error];
    } else {
      StatusesSnoc(events, Body(EndMessage(error), false));
      assert StatusesOf(Body(EndMessage(error), false)) == [error];
    }
  }

  lemma StreamIsWhole(p: Protocol, n: nat, error: Option<Exn>)
    ensures IsWholeStream(p, n, Opening(p, n) + Ending(p, error), error)
  {
    var opening, ending := Opening(p, n), Ending(p, error);
    OpeningEvents(p, n);
    var events := opening + ending;
    assert forall k :: 0 <= k <= n ==> events[k] == opening[k];
    assert events[n + 1] == ending[0] && (p.Grpc? ==> events[n + 2] == ending[1]);
  }

  lemma StreamReports(p: Protocol, n: nat, error: Option<Exn>)
    ensures StatusesIn(Opening(p, n) + Ending(p, error)) == [error]
  {
    OpeningReports(p, n);
    EndingReports(Opening(p, n), p, error);
  }

  lemma WholeStreamEvents(p: Protocol, n: nat, events: seq<Event>, error: Option<Exn>, k: nat)
    requires IsWholeStream(p, n, events, error) && k < |events|
    ensures IsStreamEvent(p, k, events[k], error)
  {
  }

  lemma ErrorReports(p: Option<Protocol>, error: Exn)
    ensures IsWholeError(p, ErrorResponse(p, error), error)
    ensures StatusesIn(ErrorResponse(p, error)) == [Some(error)]
  {
    var events := ErrorResponse(p, error);
    PairStatuses(events[0], events[1]);
    assert events == [events[0], events[1]];
  }

  // ---------------------------------------------------------------- What every run keeps

  /** A failed send means the response can't be completed: nothing is sent after it. */
  predicate NothingAfterFailure(attempts: seq<Attempt>) {
    forall k :: 0 <= k < |attempts| - 1 ==> !attempts[k].outcome.Raise?
  }

  predicate AllReturn(attempts: seq<Attempt>) {
    forall k :: 0 <= k < |attempts| ==> attempts[k].outcome.Return?
  }

  predicate CarriesStatus(event: Event) {
    match event
    case Start(_, _, report) => report.Some?
    case Body(_, more) => !more
    case Trailers(_) => true
  }

  /** Every send of a status comes after the last hook has ended. */
  predicate StatusAfterHooks(attempts: seq<Attempt>) {
    forall k :: 0 <= k < |attempts| ==> CarriesStatus(attempts[k].event) ==> attempts[k].hooksLeft == 0
  }

  /** A start is sent again, after one that did not complete. */
  predicate StartsAgain(attempts: seq<Attempt>) {
    exists k :: 0 < k < |attempts| && attempts[k].event.Start?
  }

  predicate AllAfterHooks(attempts: seq<Attempt>) {
    forall k :: 0 <= k < |attempts| ==> attempts[k].hooksLeft == 0
  }

  // ---------------------------------------------------------------- The sender

  /** What is known of the attempts so far, kept up to date send by send. */
  datatype Summary = Summary(
    completed: seq<Event>, phase: Phase, first: Option<Outcome<()>>, attempted: Phase, restarted: bool, failed: bool,
    allReturn: bool, allAfterHooks: bool, orderly: bool)

  const FRESH: Summary := Summary([], NotStarted, None, NotStarted, false, false, true, true, true)

  function After(sum: Summary, a: Attempt): Summary {
    Summary(
      if a.outcome.Return? then sum.completed + [a.event] else sum.completed,
      if a.outcome.Return? then Advance(sum.phase, a.event) else sum.phase,
      if sum.first.None? then Some(a.outcome) else sum.first,
      Advance(sum.attempted, a.event),
      sum.restarted || (a.event.Start? && !sum.attempted.NotStarted?),
      a.outcome.Raise?,
      sum.allReturn && a.outcome.Return?,
      sum.allAfterHooks && a.hooksLeft == 0,
      sum.orderly && !sum.failed && (CarriesStatus(a.event) ==> a.hooksLeft == 0))
  }

  function Summarize(attempts: seq<Attempt>): Summary {
    if attempts == [] then FRESH
    else After(Summarize(attempts[..|attempts| - 1]), attempts[|attempts| - 1])
  }

  lemma SummarizeSnoc(attempts: seq<Attempt>, a: Attempt)
    ensures Summarize(attempts + [a]) == After(Summarize(attempts), a)
  {
    assert (attempts + [a])[..|attempts|] == attempts;
  }

  lemma {:induction false} SummaryEvents(attempts: seq<Attempt>)
    ensures Summarize(attempts).completed == Completed(attempts)
    ensures Summarize(attempts).phase == PhaseOf(Completed(attempts))
    decreases |attempts|
  {
    if attempts != [] {
      var front, last := attempts[..|attempts| - 1], attempts[|attempts| - 1];
      SummaryEvents(front);
      PhaseSnoc(Completed(front), last.event);
    }
  }

  lemma {:induction false} SummaryAll(attempts: seq<Attempt>)
    ensures Summarize(attempts).allReturn <==> AllReturn(attempts)
    ensures Summarize(attempts).allAfterHooks <==> AllAfterHooks(attempts)
    decreases |attempts|
  {
    if attempts != [] {
      var n := |attempts| - 1;
      SummaryAll(attempts[..n]);
      assert AllReturn(attempts) <==> AllReturn(attempts[..n]) && attempts[n].outcome.Return?;
      assert AllAfterHooks(attempts) <==> AllAfterHooks(attempts[..n]) && attempts[n].hooksLeft == 0;
    }
  }

  lemma {:induction false} SummaryOrder(attempts: seq<Attempt>)
    ensures Summarize(attempts).failed <==> attempts != [] && attempts[|attempts| - 1].outcome.Raise?
    ensures Summarize(attempts).orderly <==> NothingAfterFailure(attempts) && StatusAfterHooks(attempts)
    decreases |attempts|
  {
    if attempts != [] {
      var n := |attempts| - 1;
      var front, last := attempts[..n], attempts[n];
      SummaryOrder(front);
      assert NothingAfterFailure(attempts) <==> NothingAfterFailure(front) && (n > 0 ==> !front[n - 1].outcome.Raise?);
      assert StatusAfterHooks(attempts) <==>
        StatusAfterHooks(front) && (CarriesStatus(last.event) ==> last.hooksLeft == 0);
    }
  }

  lemma StartsAgainSnoc(front: seq<Attempt>, last: Attempt)
    ensures StartsAgain(front + [last]) <==> StartsAgain(front) || (front != [] && last.event.Start?)
  {
    var n, all := |front|, front + [last];
    if StartsAgain(front) {
      var k :| 0 < k < n && front[k].event.Start?;
      assert all[k].event.Start?;
    }
    if n > 0 && last.event.Start? {
      assert all[n].event.Start?;
    }
  }

  lemma {:induction false} SummaryAttempted(attempts: seq<Attempt>)
    ensures Summarize(attempts).attempted == PhaseOf(Attempted(attempts))
    decreases |attempts|
  {
    if attempts != [] {
      var n := |attempts| - 1;
      SummaryAttempted(attempts[..n]);
      PhaseSnoc(Attempted(attempts[..n]), attempts[n].event);
    }
  }

  lemma {:induction false} SummaryStarts(attempts: seq<Attempt>)
    ensures Summarize(attempts).attempted.NotStarted? <==> attempts == []
    ensures Summarize(attempts).first == if attempts == [] then None else Some(attempts[0].outcome)
    ensures Summarize(attempts).restarted <==> StartsAgain(attempts)
    decreases |attempts|
  {
    if attempts != [] {
      var n := |attempts| - 1;
      SummaryStarts(attempts[..n]);
      assert attempts == attempts[..n] + [attempts[n]];
      StartsAgainSnoc(attempts[..n], attempts[n]);
    }
  }

  /** What the summary of a sender says about its attempts. */
  lemma SummaryMeans(attempts: seq<Attempt>)
    ensures var sum := Summarize(attempts);
      && sum.attempted == PhaseOf(Attempted(attempts)) && (sum.restarted <==> StartsAgain(attempts))
      && sum.completed == Completed(attempts) && sum.phase == PhaseOf(Completed(attempts))
      && (sum.allReturn <==> AllReturn(attempts)) && (sum.allAfterHooks <==> AllAfterHooks(attempts))
      && (sum.orderly <==> NothingAfterFailure(attempts) && StatusAfterHooks(attempts))
  {
    SummaryAttempted(attempts);
    SummaryStarts(attempts);
    SummaryEvents(attempts);
    SummaryAll(attempts);
    SummaryOrder(attempts);
  }

  class ResponseSender {
    const send: nat -> Outcome<()>
    var attempts: seq<Attempt>
    var started: bool
    var failed: bool
    ghost var sum: Summary

    ghost predicate Valid()
      reads this
    {
      && sum == Summarize(attempts) && sum.orderly && !sum.phase.Illegal?
      && sum.first == (if attempts == [] then None else Some(send(0)))
      && (sum.attempted.NotStarted? <==> attempts == [])
      && (sum.attempted.Illegal? <==> sum.restarted)
      && failed == sum.failed
      && (started <==> !sum.phase.NotStarted?)
    }

    /** Where the attempts are in the grammar is where the completed sends are, unless a start was sent again. */
    ghost predicate InStep()
      reads this
    {
      sum.restarted || sum.attempted == sum.phase
    }

    /** The first send is cut off: it neither completes nor fails. */
    ghost predicate CutOff() {
      send(0).Cancelled? || send(0).Interrupted?
    }

    /** No start was sent again, and one may be only if the first send was cut off. */
    ghost predicate StartedOnce()
      reads this
    {
      !sum.restarted && (sum.first.Some? ==> (sum.phase.NotStarted? && !failed <==> CutOff()))
    }

    constructor (send: nat -> Outcome<()>)
      ensures Valid() && attempts == [] && !started && sum == FRESH && this.send == send
    {
      this.send := send;
      attempts, started, failed := [], false, false;
      sum := FRESH;
    }

    /** One send: a start that returned is remembered, and so is an ordinary exception. */
    method Send(event: Event, hooksLeft: nat) returns (outcome: Outcome<()>)
      requires Valid() && !failed && !Advance(sum.phase, event).Illegal?
      requires event.Start? || sum.restarted || !Advance(sum.attempted, event).Illegal?
      requires CarriesStatus(event) ==> hooksLeft == 0
      modifies this
      ensures outcome == send(|old(attempts)|)
      ensures Valid()
      ensures attempts == old(attempts) + [Attempt(event, outcome, hooksLeft)]
      ensures sum == After(old(sum), Attempt(event, outcome, hooksLeft))
      ensures failed == outcome.Raise?
    {
      outcome := send(|attempts|);
      ghost var a := Attempt(event, outcome, hooksLeft);
      SummarizeSnoc(attempts, a);
      attempts := attempts + [Attempt(event, outcome, hooksLeft)];
      sum := After(sum, a);
      if outcome.Raise? {
        failed := true;
      }
      if outcome.Return? && event.Start? {
        started := true;
      }
    }

    // -------------------------------------------------------------- Responses

    /** Nothing has been sent yet, or the start of a stream and the first of its messages. */
    ghost predicate CanEnd(p: Protocol, limit: nat)
      reads this
    {
      && Valid()
      && if sum.completed == [] then sum.phase.NotStarted?
         else
           && sum.phase == Streaming(UsesTrailers(p)) && InStep()
           && |sum.completed| <= limit + 1
           && sum.completed == Opening(p, |sum.completed| - 1)
    }

    /** A response in two sends, if nothing has been sent. */
    method SendWhole(start: Event, body: Event, hooksLeft: nat) returns (outcome: Outcome<()>)
      requires hooksLeft == 0 && Valid() && sum.phase.NotStarted? && sum.completed == [] && !failed
      requires start.Start? && !start.trailers && body.Body? && !body.more
      modifies this
      ensures Valid() && (failed ==> outcome.Raise?)
      ensures sum.allAfterHooks == old(sum.allAfterHooks)
      ensures sum.allReturn <==> old(sum.allReturn) && outcome.Return?
      ensures sum.completed == [] <==> sum.phase.NotStarted?
      ensures !outcome.Return? ==> sum.completed == [] || sum.completed == [start]
      ensures outcome.Return? ==> sum.phase.Complete? && sum.completed == [start, body]
      ensures sum.first.Some? && (sum.restarted <==> old(sum.restarted || sum.first.Some?))
      ensures old(sum.first.None?) ==> StartedOnce() && (CutOff() ==> outcome == send(0))
    {
      outcome := SendStart(start, hooksLeft);
      if outcome.Return? {
        outcome := Send(body, hooksLeft);
        assert sum.completed == if outcome.Return? then [start, body] else [start];
      }
    }

    method SendStart(start: Event, hooksLeft: nat) returns (outcome: Outcome<()>)
      requires hooksLeft == 0 && Valid() && sum.phase.NotStarted? && sum.completed == [] && !failed
      requires start.Start? && !start.trailers
      modifies this
      ensures Valid() && failed == outcome.Raise? && (outcome.Return? ==> InStep())
      ensures sum.allAfterHooks == old(sum.allAfterHooks)
      ensures sum.allReturn <==> old(sum.allReturn) && outcome.Return?
      ensures sum.phase == if outcome.Return? then Streaming(false) else NotStarted
      ensures sum.completed == if outcome.Return? then [start] else []
      ensures sum.first.Some? && (sum.restarted <==> old(sum.restarted || sum.first.Some?))
      ensures old(sum.first.None?) ==> StartedOnce() && outcome == send(0)
    {
      outcome := Send(start, hooksLeft);
    }

    method SendUnary(encode: Outcome<()>, hooksLeft: nat) returns (outcome: Outcome<()>)
      requires hooksLeft == 0 && Valid() && sum.phase.NotStarted? && sum.completed == [] && !failed && !sum.restarted
      modifies this
      ensures Valid() && (failed ==> outcome.Raise?) && sum.allAfterHooks == old(sum.allAfterHooks)
      ensures outcome.Return? ==> sum.phase.Complete? && sum.completed == UNARY_RESPONSE
      ensures !outcome.Return? ==> sum.completed <= UNARY_RESPONSE && (sum.completed == [] <==> sum.phase.NotStarted?)
      ensures sum.allReturn ==> old(sum.allReturn) && outcome == encode && (!outcome.Return? ==> sum.completed == [])
      ensures old(sum.first.None?) ==>
        StartedOnce() && (sum.first.Some? <==> encode.Return?) && (sum.first.Some? && CutOff() ==> outcome == send(0))
    {
      if !encode.Return? {
        return encode;
      }
      outcome := SendWhole(Start(Ok200, false, None), Body(UnaryMessage, false), hooksLeft);
      ReturnsNothing(outcome);
      ReturnsNothing(encode);
    }

    /** The headers of a stream, unless they have been sent. */
    method SendHeaders(p: Protocol, hooksLeft: nat, ghost limit: nat) returns (outcome: Outcome<()>)
      requires CanEnd(p, limit) && !failed
      modifies this
      ensures CanEnd(p, limit) && failed == outcome.Raise?
      ensures attempts == old(attempts) +
        if old(started) then [] else [Attempt(Start(Ok200, UsesTrailers(p), None), outcome, hooksLeft)]
      ensures !old(started) ==> outcome == send(|old(attempts)|)
      ensures sum.allReturn <==> old(sum.allReturn) && outcome.Return?
      ensures sum.allAfterHooks <==> old(sum.allAfterHooks) && (old(started) || hooksLeft == 0)
      ensures sum.completed == if outcome.Return? && !old(started) then Opening(p, 0) else old(sum.completed)
      ensures outcome.Return? ==> started
      ensures old(started) ==> sum == old(sum)
      ensures !old(started) ==> sum.first.Some? && (sum.restarted <==> old(sum.restarted || sum.first.Some?))
      ensures old(sum.first.None? && !sum.restarted && !started) ==> StartedOnce()
    {
      if started {
        return Return(());
      }
      outcome := Send(Start(Ok200, UsesTrailers(p), None), hooksLeft);
    }

    method SendBody(p: Protocol, k: nat, hooksLeft: nat) returns (outcome: Outcome<()>)
      requires CanEnd(p, k) && !failed && sum.completed == Opening(p, k)
      modifies this
      ensures CanEnd(p, k + 1) && failed == outcome.Raise?
      ensures hooksLeft == 0 ==> sum.allAfterHooks == old(sum.allAfterHooks)
      ensures sum.allReturn <==> old(sum.allReturn) && outcome.Return?
      ensures sum.completed == Opening(p, if outcome.Return? then k + 1 else k)
      ensures sum.first == old(sum.first) && (old(StartedOnce()) ==> StartedOnce())
    {
      outcome := Send(Body(StreamMessage(k), true), hooksLeft);
    }

    /** One message of a stream. Its headers are not sent before the first. */
    method SendMessage(p: Protocol, k: nat, encode: Outcome<()>, hooksLeft: nat) returns (outcome: Outcome<()>)
      requires CanEnd(p, k) && !failed && (k == 0 || sum.completed == Opening(p, k))
      modifies this
      ensures CanEnd(p, if encode.Return? then k + 1 else k)
      ensures failed ==> outcome.Raise?
      ensures hooksLeft == 0 ==> sum.allAfterHooks == old(sum.allAfterHooks)
      ensures outcome.Return? ==> encode.Return? && sum.completed == Opening(p, k + 1)
      ensures outcome.Return? ==> sum.allReturn == old(sum.allReturn)
      ensures sum.allReturn && !outcome.Return? ==> outcome == encode && sum.completed == Opening(p, k)
      ensures sum.first.Some?
      ensures old(StartedOnce() && (started || sum.first.None?)) ==>
        StartedOnce() && (old(sum.first.None?) && CutOff() ==> outcome == send(0)) && (outcome.Return? ==> started)
    {
      outcome := SendHeaders(p, hooksLeft, k);
      if !outcome.Return? {
        return;
      }
      assert k == 0 ==> |sum.completed| == 1;
      if !encode.Return? {
        return encode;
      }
      outcome := SendBody(p, k, hooksLeft);
    }

    /** The status of a stream: an end message, or an empty body and trailers. */
    method SendStatus(p: Protocol, error: Option<Exn>, hooksLeft: nat) returns (outcome: Outcome<()>)
      requires hooksLeft == 0 && Valid() && sum.phase == Streaming(UsesTrailers(p)) && InStep() && !failed
      modifies this
      ensures Valid() && sum.allAfterHooks == old(sum.allAfterHooks)
      ensures sum.allReturn <==> old(sum.allReturn) && outcome.Return?
      ensures sum.restarted == old(sum.restarted)
      ensures outcome.Return? ==> sum.phase.Complete? && sum.completed == old(sum.completed) + Ending(p, error)
      ensures !outcome.Return? ==> exists part :: part <= Ending(p, error) && sum.completed == old(sum.completed) + part
    {
      ghost var before := sum.completed;
      if !UsesTrailers(p) {
        outcome := Send(Body(EndMessage(error), false), hooksLeft);
        assert !outcome.Return? ==> [] <= Ending(p, error) && sum.completed == before + [];
        return;
      }
      outcome := Send(Body(Empty, false), hooksLeft);
      if !outcome.Return? {
        assert [] <= Ending(p, error) && sum.completed == before + [];
        return;
      }
      outcome := Send(Trailers(error), hooksLeft);
      assert outcome.Return? ==> sum.completed == before + Ending(p, error);
      assert !outcome.Return? ==>
        [Body(Empty, false)] <= Ending(p, error) && sum.completed == before + [Body(Empty, false)];
    }

    /** `_StreamResponse.end`: ends the stream, unless a failed send means it can't be. */
    method EndStream(p: Protocol, error: Option<Exn>, encodeEnd: Outcome<()>, hooksLeft: nat, ghost limit: nat)
      returns (outcome: Outcome<()>, responded: bool)
      requires hooksLeft == 0 && CanEnd(p, limit)
      modifies this
      ensures Valid() && sum.allAfterHooks == old(sum.allAfterHooks)
      ensures outcome.Return? ==> (responded <==> !old(failed))
      ensures var opening := if old(sum.completed) == [] then Opening(p, 0) else old(sum.completed);
        && sum.completed <= opening + Ending(p, error)
        && (responded ==> sum.completed == opening + Ending(p, error) && sum.phase.Complete?)
      ensures responded ==> outcome.Return?
      ensures sum.allReturn ==> old(sum.allReturn)
      ensures sum.allReturn && encodeEnd.Return? ==> responded
      ensures sum.restarted <==> old(sum.restarted || (sum.phase.NotStarted? && !failed && sum.first.Some?))
    {
      if failed {
        return Return(()), false;
      }
      outcome := SendHeaders(p, hooksLeft, limit);
      if !outcome.Return? {
        return outcome, false;
      }
      if !encodeEnd.Return? {
        return encodeEnd, false;
      }
      outcome := SendStatus(p, error, hooksLeft);
      responded := outcome.Return?;
    }

    /** `_handle_error`: responds with the error, unless the response can no longer be replaced. */
    method HandleError(error: Exn, protocol: Option<Protocol>, encode: Outcome<()>, hooksLeft: nat)
      returns (outcome: Outcome<()>, responded: bool)
      requires hooksLeft == 0 && Valid() && (sum.phase.NotStarted? ==> sum.completed == [])
      modifies this
      ensures Valid() && sum.allAfterHooks == old(sum.allAfterHooks)
      ensures outcome.Return? ==> (responded <==> old(sum.phase.NotStarted? && !failed))
      ensures if old(sum.phase.NotStarted? && !failed) then sum.completed <= ErrorResponse(protocol, error)
        else sum == old(sum)
      ensures responded ==> outcome.Return? && sum.phase.Complete? && sum.completed == ErrorResponse(protocol, error)
      ensures sum.allReturn ==> old(sum.allReturn)
      ensures sum.allReturn && encode.Return? && old(sum.phase.NotStarted?) ==> responded
      ensures sum.restarted <==>
        old(sum.restarted) || (encode.Return? && old(sum.phase.NotStarted? && !failed && sum.first.Some?))
    {
      if started || failed {
        return Return(()), false;
      }
      if !encode.Return? {
        return encode, false;
      }
      if (protocol == Some(Grpc) || protocol == Some(GrpcWeb)) && !error.HttpError? {
        outcome := SendWhole(Start(Ok200, false, Some(error)), Body(Empty, false), hooksLeft);
      } else {
        outcome := SendWhole(Start(ErrorStatus(error), false, None), Body(ErrorBody(error), false), hooksLeft);
      }
      responded := outcome.Return?;
    }
  }

  /** What a sender's fields say about what it sent. */
  lemma SenderMeans(sender: ResponseSender)
    requires sender.Valid()
    ensures sender.sum.completed == Completed(sender.attempts)
    ensures sender.sum.phase == PhaseOf(Completed(sender.attempts)) && !sender.sum.phase.Illegal?
    ensures sender.sum.allReturn <==> AllReturn(sender.attempts)
    ensures sender.sum.allAfterHooks <==> AllAfterHooks(sender.attempts)
    ensures NothingAfterFailure(sender.attempts) && StatusAfterHooks(sender.attempts)
    ensures PhaseOf(Attempted(sender.attempts)).Illegal? <==> StartsAgain(sender.attempts)
    ensures sender.sum.restarted <==> StartsAgain(sender.attempts)
    ensures sender.attempts != [] ==> sender.attempts[0].outcome == sender.send(0)
  {
    SummaryStarts(sender.attempts);
    SummaryMeans(sender.attempts);
  }
}
