/**
 * One ASGI request, from its setup to its status. Every await and every call of user code has an
 * outcome chosen by the environment: it returns, raises, is cancelled or is interrupted.
 */
module AsgiResponse {
  import opened Common
  import opened Exceptions

  datatype Protocol = Connect | Grpc | GrpcWeb

  /** gRPC reports its status in HTTP trailers; the other two write an end message. */
  predicate UsesTrailers(p: Protocol) {
    p.Grpc?
  }

  // ---------------------------------------------------------------- What is sent

  datatype Status = Ok200 | HttpStatus(status: nat) | ForCode(code: Code)

  datatype Content =
    | UnaryMessage
    | StreamMessage(index: nat)
    | EndMessage(error: Option<Exn>)
    | ErrorBody(reported: Exn)
    | Empty

  /** `report` is the status that a trailers-only response carries in its headers. */
  datatype Event =
    | Start(status: Status, trailers: bool, report: Option<Exn>)
    | Body(content: Content, more: bool)
    | Trailers(error: Option<Exn>)

  /** A call of send: how it came out, and how many hooks had yet to end. */
  datatype Attempt = Attempt(event: Event, outcome: Outcome<()>, hooksLeft: nat)

  /** Where a response is in the ASGI grammar. */
  datatype Phase = NotStarted | Streaming(trailers: bool) | AwaitingTrailers | Complete | Illegal

  function Advance(phase: Phase, event: Event): Phase {
    match (phase, event)
    case (NotStarted, Start(_, trailers, _)) => Streaming(trailers)
    case (Streaming(trailers), Body(_, more)) =>
      if more then phase else if trailers then AwaitingTrailers else Complete
    case (AwaitingTrailers, Trailers(_)) => Complete
    case _ => Illegal
  }

  function PhaseOf(events: seq<Event>): Phase {
    if events == [] then NotStarted
    else Advance(PhaseOf(events[..|events| - 1]), events[|events| - 1])
  }

  /** The events of the sends that completed. */
  function Completed(attempts: seq<Attempt>): seq<Event> {
    if attempts == [] then []
    else
      var last := attempts[|attempts| - 1];
      Completed(attempts[..|attempts| - 1]) + (if last.outcome.Return? then [last.event] else [])
  }

  /** The events of all sends, whatever came of them. */
  function Attempted(attempts: seq<Attempt>): (events: seq<Event>)
    ensures |events| == |attempts|
  {
    if attempts == [] then [] else Attempted(attempts[..|attempts| - 1]) + [attempts[|attempts| - 1].event]
  }

  /** A whole response: a start, bodies, a final body, and trailers if the start announced them. */
  ghost predicate IsResponse(events: seq<Event>) {
    exists bodies: nat :: ResponseWith(events, bodies)
  }

  predicate ResponseWith(events: seq<Event>, bodies: nat) {
    && |events| >= bodies + 2
    && events[0].Start?
    && (forall k :: 1 <= k <= bodies ==> events[k].Body? && events[k].more)
    && events[bodies + 1].Body? && !events[bodies + 1].more
    && (if events[0].trailers
        then |events| == bodies + 3 && events[bodies + 2].Trailers?
        else |events| == bodies + 2)
  }

  lemma PhaseSnoc(events: seq<Event>, event: Event)
    ensures PhaseOf(events + [event]) == Advance(PhaseOf(events), event)
  {
    assert (events + [event])[..|events|] == events;
  }

  lemma {:induction false} IllegalStays(events: seq<Event>, more: seq<Event>)
    requires PhaseOf(events).Illegal?
    ensures PhaseOf(events + more).Illegal?
    decreases |more|
  {
    if more == [] {
      assert events + more == events;
    } else {
      var n := |more| - 1;
      IllegalStays(events, more[..n]);
      assert events + more == (events + more[..n]) + [more[n]];
      PhaseSnoc(events + more[..n], more[n]);
    }
  }

  /** The events before the final body, read by the automaton. */
  lemma {:induction false} PhaseWhileStreaming(events: seq<Event>, k: nat)
    requires 0 < k <= |events| && events[0].Start?
    requires forall j :: 1 <= j < k ==> events[j].Body? && events[j].more
    ensures PhaseOf(events[..k]) == Streaming(events[0].trailers)
    decreases k
  {
    assert events[..k] == events[..k - 1] + [events[k - 1]];
    PhaseSnoc(events[..k - 1], events[k - 1]);
    if k > 1 {
      PhaseWhileStreaming(events, k - 1);
    }
  }

  lemma ResponseIsComplete(events: seq<Event>)
    requires IsResponse(events)
    ensures PhaseOf(events) == Complete
  {
    var bodies: nat :| ResponseWith(events, bodies);
    PhaseWhileStreaming(events, bodies + 1);
    assert events[..bodies + 2] == events[..bodies + 1] + [events[bodies + 1]];
    PhaseSnoc(events[..bodies + 1], events[bodies + 1]);
    if events[0].trailers {
      assert events == events[..bodies + 2] + [events[bodies + 2]];
      PhaseSnoc(events[..bodies + 2], events[bodies + 2]);
    } else {
      assert events == events[..bodies + 2];
    }
  }

  /** What the phase says about the events that led to it. */
  ghost predicate Shape(events: seq<Event>) {
    match PhaseOf(events)
    case NotStarted => events == []
    case Streaming(trailers) =>
      && events != [] && events[0].Start? && events[0].trailers == trailers
      && forall k :: 1 <= k < |events| ==> events[k].Body? && events[k].more
    case AwaitingTrailers =>
      && |events| >= 2 && events[0].Start? && events[0].trailers
      && (forall k :: 1 <= k < |events| - 1 ==> events[k].Body? && events[k].more)
      && events[|events| - 1].Body? && !events[|events| - 1].more
    case Complete => IsResponse(events)
    case Illegal => true
  }

  lemma {:induction false} PhaseShape(events: seq<Event>)
    ensures Shape(events)
    decreases |events|
  {
    if events != [] {
      var front, last := events[..|events| - 1], events[|events| - 1];
      PhaseShape(front);
      assert forall k :: 0 <= k < |front| ==> front[k] == events[k];
      if PhaseOf(events).Complete? {
        assert ResponseWith(events, if last.Trailers? then |events| - 3 else |events| - 2);
      }
    }
  }

  /** The automaton accepts exactly the beginnings of responses, and completes exactly on responses. */
  lemma PhaseIsGrammar(events: seq<Event>)
    ensures !PhaseOf(events).Illegal? <==> exists rest :: IsResponse(events + rest)
    ensures PhaseOf(events).Complete? <==> IsResponse(events)
  {
    PhaseShape(events);
    var final, trailers := Body(Empty, false), Trailers(None);
    match PhaseOf(events) {
      case NotStarted =>
        var rest := [Start(Ok200, false, None), final];
        assert ResponseWith(events + rest, 0);
      case Streaming(announced) =>
        var rest := if announced then [final, trailers] else [final];
        assert ResponseWith(events + rest, |events| - 1);
      case AwaitingTrailers =>
        assert ResponseWith(events + [trailers], |events| - 2);
      case Complete =>
        assert events + [] == events;
      case Illegal =>
        forall rest | IsResponse(events + rest)
          ensures false
        {
          IllegalStays(events, rest);
          ResponseIsComplete(events + rest);
        }
    }
    if IsResponse(events) {
      ResponseIsComplete(events);
    }
  }
}
