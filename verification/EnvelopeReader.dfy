/** The incremental reader of envelopes, proved against the meaning of the whole stream. */
module EnvelopeReader {
  import opened Common
  import opened Envelope

  /** The half-read header that a reader keeps when it stops for more bytes. */
  function PendingLength(stop: Stop): Option<nat> {
    match stop
    case More(rest) => if |rest| >= 5 then Some(Length(rest)) else None
    case _ => None
  }

  class EnvelopeReader<M> {
    const cfg: Config<M>
    var buffer: bytes
    var nextMessageLength: Option<nat>
    var ended: bool

    constructor (cfg: Config<M>)
      ensures this.cfg == cfg && buffer == [] && !ended && Valid()
    {
      this.cfg := cfg;
      buffer, nextMessageLength, ended := [], None, false;
    }

    /** The header at the front of the buffer has been checked when its length is kept. */
    ghost predicate HeaderChecked()
      reads this
    {
      && |buffer| >= 5 && nextMessageLength == Some(Length(buffer))
      && FlagsAllowed(cfg.protocol, buffer[0]) && Within(cfg.limit, Length(buffer))
    }

    ghost predicate Valid()
      reads this
    {
      !ended && nextMessageLength.Some? ==> HeaderChecked()
    }

    /** Where reading the bytes fed so far has stopped. */
    ghost function State(): Stop
      reads this
    {
      if ended then Ended(buffer) else More(buffer)
    }

    /** No complete header or envelope is left to read. */
    ghost predicate Drained()
      reads this
    {
      Valid() && (!ended ==> nextMessageLength == PendingLength(More(buffer)))
    }

    /** Takes the complete envelope at the front of the buffer. */
    method TakeEnvelope() returns (r: Result<Content<M>, ReadError>)
      requires HeaderChecked() && |buffer| >= 5 + Length(buffer) && !ended
      modifies this
      ensures ReadFront(cfg, old(buffer)) == if r.Err? then Refused(r.error, buffer) else Opened(r.value, buffer)
      ensures nextMessageLength == None && ended == (r == Ok(End))
    {
      var prefix := buffer[0];
      var data := buffer[5..5 + nextMessageLength.value];
      buffer := buffer[5 + nextMessageLength.value..];
      nextMessageLength := None;
      if Compressed(prefix) {
        if !cfg.compression {
          return Err(NoCompression);
        }
        if data != [] {
          var plain := cfg.decompress(data);
          if plain.Err? {
            return Err(plain.error);
          }
          data := plain.value;
        }
      }
      if EndsStream(cfg.protocol, prefix) {
        var end := cfg.handleEnd(data);
        if end.Err? {
          return Err(end.error);
        }
        ended := true;
        return Ok(End);
      }
      var message := cfg.decode(data);
      return if message.Err? then Err(message.error) else Ok(Message(message.value));
    }

    /** Checks the header at the front of the buffer and keeps its length. */
    method ReadHeader() returns (error: Option<ReadError>)
      requires |buffer| >= 5 && !ended && nextMessageLength.None?
      modifies this`nextMessageLength
      ensures error.None? ==> HeaderChecked()
      ensures error.Some? ==> ReadFront(cfg, buffer) == Refused(error.value, buffer)
    {
      if !FlagsAllowed(cfg.protocol, buffer[0]) {
        return Some(BadFlags(ProtocolErrorCode(cfg.protocol)));
      }
      nextMessageLength := Some(Length(buffer));
      if !Within(cfg.limit, nextMessageLength.value) {
        return Some(TooLarge(cfg.limit.value));
      }
      return None;
    }

    /** Feeds bytes and drains the messages: what `for message in reader.feed(data)` yields. */
    method Feed(data: bytes) returns (messages: seq<M>, error: Option<ReadError>)
      requires Valid()
      modifies this
      ensures messages == Resume(cfg, old(State()), data).messages
      ensures error.None? ==> Drained() && Resume(cfg, old(State()), data).stop == State()
      ensures error.Some? ==> Resume(cfg, old(State()), data).stop == Failed(error.value, buffer)
      // Between feeds, a reader with a limit holds less than one header and one message.
      ensures error.None? && !ended && cfg.limit.Some? ==> |buffer| < cfg.limit.value + 5
    {
      LengthAppend(buffer, data);
      buffer := buffer + data;
      messages, error := [], None;
      if ended {
        return;
      }
      ghost var whole := Parse(cfg, buffer);
      PrependPrepend([], [], whole);
      while buffer != []
        invariant Valid() && !ended && error.None?
        invariant Prepend(messages, Parse(cfg, buffer)) == whole
        invariant buffer == [] ==> nextMessageLength.None?
        decreases |buffer|, nextMessageLength.None?
      {
        if nextMessageLength.Some? {
          if |buffer| < nextMessageLength.value + 5 {
            return;
          }
          ghost var before := buffer;
          var content := TakeEnvelope();
          if content.Err? {
            error := Some(content.error);
            return;
          }
          if content.value.End? {
            return;
          }
          ParseOpened(cfg, before);
          PrependPrepend(messages, [content.value.message], Parse(cfg, buffer));
          messages := messages + [content.value.message];
        }
        if |buffer| < 5 {
          return;
        }
        error := ReadHeader();
        if error.Some? {
          return;
        }
      }
    }

    /** `_check_ended`, run on a drained reader when the body ends without an error. */
    method CheckEnded() returns (error: Option<ReadError>)
      requires Drained()
      ensures error == Finish(cfg.protocol, State())
    {
      if ended {
        return if buffer != [] then Some(ExtraBytes(|buffer|)) else None;
      }
      if nextMessageLength.Some? {
        return Some(Truncated(ProtocolErrorCode(cfg.protocol), nextMessageLength.value, |buffer| - 5));
      }
      if buffer != [] {
        return Some(IncompleteEnvelope(ProtocolErrorCode(cfg.protocol)));
      }
      return None;
    }
  }

  /**
   * Reads a body chunk by chunk, as `_request_stream` and the clients do. The messages and the
   * outcome are those of the whole body, however it was cut into chunks.
   */
  method ReadBody<M>(cfg: Config<M>, chunks: seq<bytes>)
    returns (messages: seq<M>, error: Option<ReadError>, ended: bool)
    ensures var p := Parse(cfg, Concat(chunks));
      && messages == p.messages
      && error == Finish(cfg.protocol, p.stop)
      && ended == p.stop.Ended?
    // That is the one reading of the body: envelopes to accept, up to the first fault, which is the error.
    ensures ReadsAs(cfg, Concat(chunks), messages, error)
  {
    ParseReadsAs(cfg, Concat(chunks));
    var reader := new EnvelopeReader(cfg);
    messages := [];
    for k := 0 to |chunks|
      invariant reader.Drained() && reader.cfg == cfg && fresh(reader)
      invariant Parse(cfg, Concat(chunks[..k])) == Parsed(messages, reader.State())
    {
      ParseConcat(cfg, chunks, k);
      var more, failure := reader.Feed(chunks[k]);
      messages := messages + more;
      if failure.Some? {
        ParsePrefixFails(cfg, chunks, k + 1);
        return messages, failure, false;
      }
    }
    assert chunks[..|chunks|] == chunks;
    error := reader.CheckEnded();
    ended := reader.ended;
  }

  /**
   * A response of the Connect protocol: reading the body is followed by a check that its end
   * message came. It is read without an error exactly when it is a well-formed stream that ends with one.
   */
  method ReadConnectResponse<M>(cfg: Config<M>, chunks: seq<bytes>) returns (messages: seq<M>, error: Option<ReadError>)
    requires cfg.protocol.Connect?
    ensures messages == Parse(cfg, Concat(chunks)).messages
    ensures error == None <==>
      exists es :: WellFormed(cfg, es) && es != [] && IsEnd(cfg, es[|es| - 1]) && Concat(chunks) == FrameAll(es)
    ensures forall es :: WellFormed(cfg, es) && Concat(chunks) == FrameAll(es) ==> messages == Messages(cfg, es)
  {
    var ended;
    messages, error, ended := ReadBody(cfg, chunks);
    if error.None? {
      ghost var es, rest := ReadingOf(cfg, Concat(chunks));
      assert FrameAll(es) + [] == FrameAll(es);
      WellFormedParses(cfg, es);
    }
    forall es | WellFormed(cfg, es) && Concat(chunks) == FrameAll(es)
      ensures Parse(cfg, Concat(chunks)) == Reading(cfg, es)
    {
      WellFormedParses(cfg, es);
    }
    if error.None? && !ended {
      error := Some(NoEndMessage);
    }
  }

  lemma ParseConcat<M>(cfg: Config<M>, chunks: seq<bytes>, k: nat)
    requires k < |chunks|
    ensures var p := Parse(cfg, Concat(chunks[..k]));
            Parse(cfg, Concat(chunks[..k + 1])) == Prepend(p.messages, Resume(cfg, p.stop, chunks[k]))
  {
    assert chunks[..k + 1][..k] == chunks[..k];
    ParseAppend(cfg, Concat(chunks[..k]), chunks[k]);
  }

  /** An error in the first chunks is the error of the whole body. */
  lemma {:induction false} ParsePrefixFails<M>(cfg: Config<M>, chunks: seq<bytes>, k: nat)
    requires k <= |chunks| && Parse(cfg, Concat(chunks[..k])).stop.Failed?
    ensures Parse(cfg, Concat(chunks)).stop.Failed?
    ensures Parse(cfg, Concat(chunks)).stop.error == Parse(cfg, Concat(chunks[..k])).stop.error
    ensures Parse(cfg, Concat(chunks)).messages == Parse(cfg, Concat(chunks[..k])).messages
    decreases |chunks| - k
  {
    if k == |chunks| {
      assert chunks[..k] == chunks;
    } else {
      ParseConcat(cfg, chunks, k);
      ParsePrefixFails(cfg, chunks, k + 1);
    }
  }
}
