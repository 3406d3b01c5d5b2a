/** Enveloped messages as they are on the wire, and the meaning of a whole stream of them. */
module Envelope {
  import opened Common

  /** The readers: of requests on a server, and of the responses of the three protocols. */
  datatype Protocol = Request | Grpc | Connect | GrpcWeb

  datatype ReadError =
    | BadFlags(code: Code)
    | TooLarge(limit: nat)
    | NoCompression
    | BadPayload(code: Code)
    | BadEnd(code: Code)
    | ExtraBytes(count: nat)
    | Truncated(code: Code, promised: nat, got: nat)
    | IncompleteEnvelope(code: Code)
    | NoEndMessage

  /** The code of an error that is the fault of a request, or of the server's response. */
  function ProtocolErrorCode(p: Protocol): Code {
    if p.Request? then InvalidArgument else Internal
  }

  /** No bit outside of the reader's mask is set. */
  predicate FlagsAllowed(p: Protocol, flags: byte) {
    match p
    case Request => flags < 2
    case Grpc => flags < 2
    case Connect => flags < 4
    case GrpcWeb => flags % 128 < 2
  }

  predicate Compressed(flags: byte) {
    flags % 2 == 1
  }

  predicate EndsStream(p: Protocol, flags: byte) {
    match p
    case Connect => flags / 2 % 2 == 1
    case GrpcWeb => flags / 128 == 1
    case _ => false
  }

  /** The reader's mask of flags, and the bits of the compressed and of the end flag in it. */
  function Mask(p: Protocol): bv8 {
    match p
    case Connect => 3
    case GrpcWeb => 0x81
    case _ => 1
  }

  function EndBit(p: Protocol): bv8 {
    match p
    case Connect => 2
    case GrpcWeb => 0x80
    case _ => 0
  }

  lemma CompressedIsBit(bits: bv8)
    ensures Compressed(bits as int) <==> bits & 1 != 0
  {
  }

  lemma EndIsBit(p: Protocol, bits: bv8)
    ensures EndsStream(p, bits as int) <==> bits & EndBit(p) != 0
  {
  }

  lemma AllowedAreBits(p: Protocol, bits: bv8)
    ensures FlagsAllowed(p, bits as int) <==> bits & !Mask(p) == 0
  {
  }

  /** The arithmetic on flags is that of their bits. */
  lemma FlagsAreBits(p: Protocol, bits: bv8)
    ensures FlagsAllowed(p, bits as int) <==> bits & !Mask(p) == 0
    ensures Compressed(bits as int) <==> bits & 1 != 0
    ensures EndsStream(p, bits as int) <==> bits & EndBit(p) != 0
    ensures Mask(p) == 1 | EndBit(p)
    ensures EndBit(p) == if p.Connect? then 2 else if p.GrpcWeb? then 0x80 else 0
  {
    AllowedAreBits(p, bits);
    CompressedIsBit(bits);
    EndIsBit(p, bits);
  }

  /** The number that bytes stand for, most significant first. */
  function FromBytes(b: bytes): nat {
    if b == [] then 0 else FromBytes(b[..|b| - 1]) * 256 + b[|b| - 1]
  }

  function ToBytes(n: nat, width: nat): (b: bytes)
    ensures |b| == width
  {
    if width == 0 then [] else ToBytes(n / 256, width - 1) + [n % 256]
  }

  function Capacity(width: nat): nat {
    if width == 0 then 1 else Capacity(width - 1) * 256
  }

  /** Four bytes hold the numbers below 2^32. */
  const MAX_LENGTH: nat := 0x1_0000_0000

  lemma LengthCapacity()
    ensures Capacity(4) == MAX_LENGTH
  {
    assert Capacity(2) == 0x1_0000;
  }

  lemma {:induction false} BytesOfNumber(n: nat, width: nat)
    requires n < Capacity(width)
    ensures FromBytes(ToBytes(n, width)) == n
  {
    if width > 0 {
      BytesOfNumber(n / 256, width - 1);
      assert ToBytes(n, width)[..width - 1] == ToBytes(n / 256, width - 1);
    }
  }

  lemma {:induction false} NumberOfBytes(b: bytes)
    ensures FromBytes(b) < Capacity(|b|)
    ensures ToBytes(FromBytes(b), |b|) == b
    decreases |b|
  {
    if b != [] {
      var front, last := b[..|b| - 1], b[|b| - 1];
      NumberOfBytes(front);
      assert FromBytes(b) / 256 == FromBytes(front) && FromBytes(b) % 256 == last;
      assert b == front + [last];
    }
  }

  /** The number in the four bytes after the flags. */
  function Length(b: bytes): nat
    requires |b| >= 5
  {
    FromBytes(b[1..5])
  }

  lemma BytesSnoc(front: bytes, last: byte)
    ensures FromBytes(front + [last]) == FromBytes(front) * 256 + last
  {
    assert (front + [last])[..|front|] == front;
  }

  /** The most significant byte comes first. */
  lemma LengthIsBigEndian(b: bytes)
    requires |b| >= 5
    ensures Length(b) == (b[1] as int) * 0x100_0000 + (b[2] as int) * 0x1_0000 + (b[3] as int) * 0x100 + b[4]
  {
    BytesSnoc([], b[1]);
    BytesSnoc([b[1]], b[2]);
    BytesSnoc([b[1], b[2]], b[3]);
    BytesSnoc([b[1], b[2], b[3]], b[4]);
    assert [] + [b[1]] == [b[1]] && [b[1]] + [b[2]] == [b[1], b[2]];
    assert [b[1], b[2]] + [b[3]] == [b[1], b[2], b[3]];
    assert b[1..5] == [b[1], b[2], b[3]] + [b[4]];
  }

  function BigEndian(n: nat): (b: bytes)
    requires n < MAX_LENGTH
    ensures |b| == 4
  {
    ToBytes(n, 4)
  }

  /**
   * What a reader is given: its protocol, the limit on messages, whether the compression is a
   * real one, and the decompressor, the codec and the handling of the end message.
   */
  datatype Config<!M> = Config(
    protocol: Protocol, limit: Option<nat>, compression: bool,
    decompress: bytes -> Result<bytes, ReadError>,
    decode: bytes -> Result<M, ReadError>,
    handleEnd: bytes -> Result<(), ReadError>)

  predicate Within(limit: Option<nat>, n: nat) {
    limit.None? || n <= limit.value
  }

  // ---------------------------------------------------------------- Meaning of a stream

  datatype Content<+M> = Message(message: M) | End

  /** What an envelope's payload holds. */
  function Open<M>(cfg: Config<M>, flags: byte, payload: bytes): Result<Content<M>, ReadError> {
    if Compressed(flags) && !cfg.compression then Err(NoCompression)
    else
      var data := if Compressed(flags) && payload != [] then cfg.decompress(payload) else Ok(payload);
      if data.Err? then Err(data.error)
      else if EndsStream(cfg.protocol, flags) then
        var end := cfg.handleEnd(data.value);
        if end.Err? then Err(end.error) else Ok(End)
      else
        var message := cfg.decode(data.value);
        if message.Err? then Err(message.error) else Ok(Message(message.value))
  }

  /** Why reading stopped, with the bytes that were left over. */
  datatype Stop =
    | More(rest: bytes)
    | Ended(rest: bytes)
    | Failed(error: ReadError, rest: bytes)

  datatype Parsed<+M> = Parsed(messages: seq<M>, stop: Stop)

  function Prepend<M>(messages: seq<M>, p: Parsed<M>): Parsed<M> {
    p.(messages := messages + p.messages)
  }

  /** The envelope at the front: not complete yet, refused, or opened. */
  datatype Front<+M> =
    | Partial
    | Refused(error: ReadError, rest: bytes)
    | Opened(content: Content<M>, rest: bytes)

  function ReadFront<M>(cfg: Config<M>, b: bytes): (front: Front<M>)
    ensures !front.Partial? ==> |b| >= 5
    ensures front.Opened? ==> |front.rest| < |b|
  {
    if |b| < 5 then Partial
    else if !FlagsAllowed(cfg.protocol, b[0]) then Refused(BadFlags(ProtocolErrorCode(cfg.protocol)), b)
    else if !Within(cfg.limit, Length(b)) then Refused(TooLarge(cfg.limit.value), b)
    else if |b| < 5 + Length(b) then Partial
    else
      var rest := b[5 + Length(b)..];
      match Open(cfg, b[0], b[5..5 + Length(b)])
      case Err(e) => Refused(e, rest)
      case Ok(content) => Opened(content, rest)
  }

  /** The messages of a stream of bytes. */
  function Parse<M>(cfg: Config<M>, b: bytes): Parsed<M>
    decreases |b|
  {
    match ReadFront(cfg, b)
    case Partial => Parsed([], More(b))
    case Refused(e, rest) => Parsed([], Failed(e, rest))
    case Opened(End, rest) => Parsed([], Ended(rest))
    case Opened(Message(m), rest) => Prepend([m], Parse(cfg, rest))
  }

  /** The error that a body which ends here is read with, if any. */
  function Finish(p: Protocol, stop: Stop): Option<ReadError> {
    match stop
    case Failed(e, _) => Some(e)
    case Ended(rest) => if rest != [] then Some(ExtraBytes(|rest|)) else None
    case More(rest) =>
      if |rest| >= 5 then Some(Truncated(ProtocolErrorCode(p), Length(rest), |rest| - 5))
      else if rest != [] then Some(IncompleteEnvelope(ProtocolErrorCode(p)))
      else None
  }

  /** Reading on from where a stream stopped. */
  function Resume<M>(cfg: Config<M>, stop: Stop, more: bytes): Parsed<M> {
    match stop
    case More(rest) => Parse(cfg, rest + more)
    case Ended(rest) => Parsed([], Ended(rest + more))
    case Failed(e, rest) => Parsed([], Failed(e, rest + more))
  }

  lemma LengthAppend(a: bytes, b: bytes)
    ensures |a| >= 5 ==> Length(a + b) == Length(a)
  {
    if |a| >= 5 {
      assert (a + b)[1..5] == a[1..5];
    }
  }

  lemma ReadFrontAppend<M>(cfg: Config<M>, a: bytes, b: bytes)
    requires !ReadFront(cfg, a).Partial?
    ensures ReadFront(cfg, a + b) ==
      match ReadFront(cfg, a)
      case Refused(e, rest) => Refused(e, rest + b)
      case Opened(content, rest) => Opened(content, rest + b)
  {
    LengthAppend(a, b);
    var n := 5 + Length(a);
    if |a| >= n {
      assert (a + b)[5..n] == a[5..n];
      assert (a + b)[n..] == a[n..] + b;
    }
  }

  lemma PrependPrepend<M>(xs: seq<M>, ys: seq<M>, p: Parsed<M>)
    ensures Prepend(xs, Prepend(ys, p)) == Prepend(xs + ys, p)
    ensures Prepend([], p) == p
  {
  }

  lemma ParseOpened<M>(cfg: Config<M>, b: bytes)
    requires ReadFront(cfg, b).Opened? && ReadFront(cfg, b).content.Message?
    ensures Parse(cfg, b) == Prepend([ReadFront(cfg, b).content.message], Parse(cfg, ReadFront(cfg, b).rest))
  {
  }

  /** A stream can be cut anywhere: reading the rest on top of the first part reads the whole. */
  lemma {:induction false} ParseAppend<M>(cfg: Config<M>, a: bytes, b: bytes)
    ensures Parse(cfg, a + b) == Prepend(Parse(cfg, a).messages, Resume(cfg, Parse(cfg, a).stop, b))
    decreases |a|
  {
    match ReadFront(cfg, a)
    case Partial =>
      PrependPrepend([], [], Parse(cfg, a + b));
    case Refused(_, _) =>
      ReadFrontAppend(cfg, a, b);
    case Opened(End, _) =>
      ReadFrontAppend(cfg, a, b);
    case Opened(Message(m), rest) =>
      ReadFrontAppend(cfg, a, b);
      ParseAppend(cfg, rest, b);
      ParseOpened(cfg, a);
      ParseOpened(cfg, a + b);
      PrependPrepend([m], Parse(cfg, rest).messages, Resume(cfg, Parse(cfg, rest).stop, b));
  }

  function Concat(chunks: seq<bytes>): bytes {
    if chunks == [] then [] else Concat(chunks[..|chunks| - 1]) + chunks[|chunks| - 1]
  }

  // ---------------------------------------------------------------- Acceptance

  /** An envelope, framed by its flags and the length of its payload. */
  datatype Envelope = Envelope(flags: byte, payload: bytes)

  function Frame(e: Envelope): bytes
    requires |e.payload| < MAX_LENGTH
  {
    [e.flags] + BigEndian(|e.payload|) + e.payload
  }

  predicate Framable(es: seq<Envelope>) {
    forall k :: 0 <= k < |es| ==> |es[k].payload| < MAX_LENGTH
  }

  function FrameAll(es: seq<Envelope>): bytes
    requires Framable(es)
  {
    if es == [] then [] else Frame(es[0]) + FrameAll(es[1..])
  }

  /** What the codec, or the handling of the end message, is given: an empty payload is not decompressed. */
  function Data<M>(cfg: Config<M>, e: Envelope): Result<bytes, ReadError> {
    if e.flags % 2 == 1 && e.payload != [] then cfg.decompress(e.payload) else Ok(e.payload)
  }

  predicate IsEnd<M>(cfg: Config<M>, e: Envelope) {
    EndsStream(cfg.protocol, e.flags)
  }

  /**
   * The flags are in the mask, the length is within the limit, only a reader with a compression is sent a
   * compressed payload, and what the payload holds can be taken.
   */
  predicate Acceptable<M>(cfg: Config<M>, e: Envelope) {
    && FlagsAllowed(cfg.protocol, e.flags)
    && (cfg.limit.Some? ==> |e.payload| <= cfg.limit.value)
    && (e.flags % 2 == 1 ==> cfg.compression)
    && Data(cfg, e).Ok?
    && (IsEnd(cfg, e) ==> cfg.handleEnd(Data(cfg, e).value).Ok?)
    && (!IsEnd(cfg, e) ==> cfg.decode(Data(cfg, e).value).Ok?)
  }

  /** The error of the first of those conditions, in that order, that an envelope does not meet. */
  predicate RefusedWith<M>(cfg: Config<M>, e: Envelope, error: ReadError) {
    if !FlagsAllowed(cfg.protocol, e.flags) then
      error == BadFlags(if cfg.protocol.Request? then InvalidArgument else Internal)
    else if cfg.limit.Some? && |e.payload| > cfg.limit.value then error == TooLarge(cfg.limit.value)
    else if e.flags % 2 == 1 && !cfg.compression then error == NoCompression
    else if Data(cfg, e).Err? then Data(cfg, e) == Err(error)
    else if IsEnd(cfg, e) then cfg.handleEnd(Data(cfg, e).value) == Err(error)
    else cfg.decode(Data(cfg, e).value) == Err(error)
  }

  /** A stream to accept: acceptable envelopes, with no end message but the last one. */
  ghost predicate WellFormed<M>(cfg: Config<M>, es: seq<Envelope>) {
    && Framable(es)
    && (forall k :: 0 <= k < |es| ==> Acceptable(cfg, es[k]))
    && (forall k :: 0 <= k < |es| - 1 ==> !IsEnd(cfg, es[k]))
  }

  /** What the codec makes of the envelopes before the end message. */
  function Messages<M>(cfg: Config<M>, es: seq<Envelope>): seq<M>
    requires forall k :: 0 <= k < |es| ==> Acceptable(cfg, es[k])
  {
    if es == [] then []
    else
      assert Acceptable(cfg, es[0]);
      (if IsEnd(cfg, es[0]) then [] else [cfg.decode(Data(cfg, es[0]).value).value]) + Messages(cfg, es[1..])
  }

  /** The content of an envelope to accept. */
  function Holds<M>(cfg: Config<M>, e: Envelope): Content<M>
    requires Acceptable(cfg, e)
  {
    if IsEnd(cfg, e) then End else Message(cfg.decode(Data(cfg, e).value).value)
  }

  /** Opening an envelope's payload is what the conditions on it say. */
  lemma OpenMeans<M>(cfg: Config<M>, e: Envelope)
    requires FlagsAllowed(cfg.protocol, e.flags)
    requires cfg.limit.Some? ==> |e.payload| <= cfg.limit.value
    ensures Acceptable(cfg, e) <==> Open(cfg, e.flags, e.payload).Ok?
    ensures Acceptable(cfg, e) ==> Open(cfg, e.flags, e.payload) == Ok(Holds(cfg, e))
    ensures !Acceptable(cfg, e) ==> RefusedWith(cfg, e, Open(cfg, e.flags, e.payload).error)
  {
  }

  lemma BigEndianLength(flags: byte, n: nat, payload: bytes)
    requires n < MAX_LENGTH
    ensures Length([flags] + BigEndian(n) + payload) == n
  {
    assert ([flags] + BigEndian(n) + payload)[1..5] == BigEndian(n);
    LengthCapacity();
    BytesOfNumber(n, 4);
  }

  lemma LengthBound(b: bytes)
    requires |b| >= 5
    ensures Length(b) < MAX_LENGTH && BigEndian(Length(b)) == b[1..5]
  {
    LengthCapacity();
    NumberOfBytes(b[1..5]);
  }

  lemma ReadFrontFrame<M>(cfg: Config<M>, e: Envelope, rest: bytes)
    requires |e.payload| < MAX_LENGTH && Acceptable(cfg, e)
    ensures ReadFront(cfg, Frame(e) + rest) == Opened(Holds(cfg, e), rest)
  {
    OpenMeans(cfg, e);
    var b := Frame(e) + rest;
    var n := |e.payload|;
    assert b == [e.flags] + BigEndian(n) + (e.payload + rest);
    BigEndianLength(e.flags, n, e.payload + rest);
    assert b[5..5 + n] == e.payload;
    assert b[5 + n..] == rest;
  }

  /** The first envelope of a stream, read. */
  lemma ParseFrame<M>(cfg: Config<M>, e: Envelope, rest: bytes)
    requires |e.payload| < MAX_LENGTH && Acceptable(cfg, e)
    ensures Parse(cfg, Frame(e) + rest) ==
      match Holds(cfg, e)
      case End => Parsed([], Ended(rest))
      case Message(m) => Prepend([m], Parse(cfg, rest))
  {
    ReadFrontFrame(cfg, e, rest);
    if Holds(cfg, e).Message? {
      ParseOpened(cfg, Frame(e) + rest);
    }
  }

  lemma WellFormedTail<M>(cfg: Config<M>, es: seq<Envelope>)
    requires es != [] && WellFormed(cfg, es)
    ensures WellFormed(cfg, es[1..]) && Acceptable(cfg, es[0]) && |es[0].payload| < MAX_LENGTH
    ensures IsEnd(cfg, es[0]) ==> es[1..] == []
  {
    assert forall k :: 0 <= k < |es[1..]| ==> es[1..][k] == es[k + 1];
  }

  /** What reading a well-formed stream yields. */
  ghost function Reading<M>(cfg: Config<M>, es: seq<Envelope>): Parsed<M>
    requires WellFormed(cfg, es)
  {
    Parsed(Messages(cfg, es), if es != [] && IsEnd(cfg, es[|es| - 1]) then Ended([]) else More([]))
  }

  lemma ReadingStep<M>(cfg: Config<M>, es: seq<Envelope>)
    requires es != [] && WellFormed(cfg, es)
    ensures WellFormed(cfg, es[1..]) && Acceptable(cfg, es[0]) && |es[0].payload| < MAX_LENGTH
    ensures FrameAll(es) == Frame(es[0]) + FrameAll(es[1..])
    ensures Reading(cfg, es) ==
      match Holds(cfg, es[0])
      case End => Parsed([], Ended(FrameAll(es[1..])))
      case Message(m) => Prepend([m], Reading(cfg, es[1..]))
  {
    WellFormedTail(cfg, es);
    if IsEnd(cfg, es[0]) {
      assert Messages(cfg, es[1..]) == [];
    }
  }

  lemma {:induction false} WellFormedParses<M>(cfg: Config<M>, es: seq<Envelope>)
    requires WellFormed(cfg, es)
    ensures Parse(cfg, FrameAll(es)) == Reading(cfg, es)
    decreases |es|
  {
    if es != [] {
      ReadingStep(cfg, es);
      WellFormedParses(cfg, es[1..]);
      ParseFrame(cfg, es[0], FrameAll(es[1..]));
    }
  }

  /** An envelope that could be opened was framed. */
  lemma OpenedWasFramed<M>(cfg: Config<M>, b: bytes) returns (e: Envelope)
    requires ReadFront(cfg, b).Opened?
    ensures |e.payload| < MAX_LENGTH && b == Frame(e) + ReadFront(cfg, b).rest
    ensures Acceptable(cfg, e) && Holds(cfg, e) == ReadFront(cfg, b).content
  {
    LengthBound(b);
    e := Envelope(b[0], b[5..5 + Length(b)]);
    OpenMeans(cfg, e);
  }

  lemma WellFormedCons<M>(cfg: Config<M>, e: Envelope, es: seq<Envelope>)
    requires |e.payload| < MAX_LENGTH && Acceptable(cfg, e) && WellFormed(cfg, es)
    requires IsEnd(cfg, e) ==> es == []
    ensures WellFormed(cfg, [e] + es) && FrameAll([e] + es) == Frame(e) + FrameAll(es)
  {
    assert ([e] + es)[1..] == es;
  }

  /**
   * What the bytes after the last envelope accepted are read as: the error, if there is one. `ended` says
   * whether that envelope was an end message.
   */
  predicate LeftoverError<M>(cfg: Config<M>, ended: bool, rest: bytes, error: Option<ReadError>) {
    var code := if cfg.protocol.Request? then InvalidArgument else Internal;
    if rest == [] then error == None
    else if ended then error == Some(ExtraBytes(|rest|))
    else if |rest| < 5 then error == Some(IncompleteEnvelope(code))
    else if !FlagsAllowed(cfg.protocol, rest[0]) then error == Some(BadFlags(code))
    else if cfg.limit.Some? && Length(rest) > cfg.limit.value then error == Some(TooLarge(cfg.limit.value))
    else if |rest| < 5 + Length(rest) then error == Some(Truncated(code, Length(rest), |rest| - 5))
    else
      var e := Envelope(rest[0], rest[5..5 + Length(rest)]);
      !Acceptable(cfg, e) && error.Some? && RefusedWith(cfg, e, error.value)
  }

  /**
   * The reading of a body: it begins with envelopes to accept, their messages are the ones read, and
   * the error is that of what follows them.
   */
  ghost predicate IsReading<M>(
      cfg: Config<M>, es: seq<Envelope>, rest: bytes, b: bytes, messages: seq<M>, error: Option<ReadError>)
  {
    && WellFormed(cfg, es) && b == FrameAll(es) + rest
    && messages == Messages(cfg, es)
    && LeftoverError(cfg, es != [] && IsEnd(cfg, es[|es| - 1]), rest, error)
  }

  lemma LeftoverStops<M>(cfg: Config<M>, b: bytes)
    requires !ReadFront(cfg, b).Opened?
    ensures LeftoverError(cfg, false, b, Finish(cfg.protocol, Parse(cfg, b).stop))
    ensures Parse(cfg, b).messages == []
  {
    if |b| >= 5 && |b| >= 5 + Length(b) && FlagsAllowed(cfg.protocol, b[0]) && Within(cfg.limit, Length(b)) {
      OpenMeans(cfg, Envelope(b[0], b[5..5 + Length(b)]));
    }
  }

  /** An envelope with a message, in front of the reading of what follows it. */
  lemma ReadingCons<M>(
      cfg: Config<M>, e: Envelope, es: seq<Envelope>, rest: bytes, b: bytes, messages: seq<M>,
      error: Option<ReadError>)
    requires |e.payload| < MAX_LENGTH && Acceptable(cfg, e) && !IsEnd(cfg, e)
    requires IsReading(cfg, es, rest, b, messages, error)
    ensures IsReading(
      cfg, [e] + es, rest, Frame(e) + b, [cfg.decode(Data(cfg, e).value).value] + messages, error)
  {
    WellFormedCons(cfg, e, es);
    assert ([e] + es)[1..] == es;
    assert Frame(e) + (FrameAll(es) + rest) == FrameAll([e] + es) + rest;
    if es != [] {
      assert ([e] + es)[|es|] == es[|es| - 1];
    }
  }

  /** An end message: nothing is read after it. */
  lemma ReadingEnd<M>(cfg: Config<M>, e: Envelope, rest: bytes)
    requires |e.payload| < MAX_LENGTH && Acceptable(cfg, e) && IsEnd(cfg, e)
    ensures IsReading(cfg, [e], rest, Frame(e) + rest, [], Finish(cfg.protocol, Ended(rest)))
  {
    WellFormedCons(cfg, e, []);
    assert [e] + [] == [e] && FrameAll([e]) == Frame(e) + FrameAll([]) == Frame(e);
    assert [e][1..] == [];
  }

  /** Every body is read as envelopes to accept, up to the first fault if there is one. */
  lemma {:induction false} ReadingOf<M>(cfg: Config<M>, b: bytes) returns (es: seq<Envelope>, rest: bytes)
    ensures IsReading(cfg, es, rest, b, Parse(cfg, b).messages, Finish(cfg.protocol, Parse(cfg, b).stop))
    decreases |b|
  {
    var front := ReadFront(cfg, b);
    if !front.Opened? {
      LeftoverStops(cfg, b);
      es, rest := [], b;
      assert FrameAll(es) + b == b;
    } else {
      var e := OpenedWasFramed(cfg, b);
      if front.content.End? {
        ReadingEnd(cfg, e, front.rest);
        es, rest := [e], front.rest;
      } else {
        ParseOpened(cfg, b);
        es, rest := ReadingOf(cfg, front.rest);
        var after := Parse(cfg, front.rest);
        ReadingCons(cfg, e, es, rest, front.rest, after.messages, Finish(cfg.protocol, after.stop));
        es := [e] + es;
      }
    }
  }

  lemma LeftoverIsUnique<M>(cfg: Config<M>, rest: bytes, error: Option<ReadError>)
    requires LeftoverError(cfg, false, rest, error)
    ensures Parse(cfg, rest).messages == [] && error == Finish(cfg.protocol, Parse(cfg, rest).stop)
  {
    if ReadFront(cfg, rest).Opened? {
      OpenMeans(cfg, Envelope(rest[0], rest[5..5 + Length(rest)]));
    } else {
      LeftoverStops(cfg, rest);
    }
  }

  /** There is only one such reading: what comes first decides the messages and the error. */
  lemma {:induction false} ReadingIsUnique<M>(
      cfg: Config<M>, es: seq<Envelope>, rest: bytes, b: bytes, messages: seq<M>, error: Option<ReadError>)
    requires IsReading(cfg, es, rest, b, messages, error)
    ensures messages == Parse(cfg, b).messages && error == Finish(cfg.protocol, Parse(cfg, b).stop)
    decreases |es|
  {
    if es == [] {
      assert b == rest;
      LeftoverIsUnique(cfg, rest, error);
    } else {
      var tail := es[1..];
      ReadingStep(cfg, es);
      assert b == Frame(es[0]) + (FrameAll(tail) + rest);
      ParseFrame(cfg, es[0], FrameAll(tail) + rest);
      if IsEnd(cfg, es[0]) {
        WellFormedTail(cfg, es);
        assert tail == [] && FrameAll(tail) + rest == rest;
      } else {
        ReadingIsUnique(cfg, tail, rest, FrameAll(tail) + rest, Messages(cfg, tail), error);
      }
    }
  }

  /** These messages and this error are the one reading of a body. */
  ghost predicate ReadsAs<M>(cfg: Config<M>, b: bytes, messages: seq<M>, error: Option<ReadError>) {
    && (exists es, rest :: IsReading(cfg, es, rest, b, messages, error))
    && forall es, rest, e :: WellFormed(cfg, es) && IsReading(cfg, es, rest, b, Messages(cfg, es), e) ==>
         Messages(cfg, es) == messages && e == error
  }

  lemma ParseReadsAs<M>(cfg: Config<M>, b: bytes)
    ensures ReadsAs(cfg, b, Parse(cfg, b).messages, Finish(cfg.protocol, Parse(cfg, b).stop))
  {
    var es, rest := ReadingOf(cfg, b);
    forall es, rest, e | WellFormed(cfg, es) && IsReading(cfg, es, rest, b, Messages(cfg, es), e)
      ensures Messages(cfg, es) == Parse(cfg, b).messages && e == Finish(cfg.protocol, Parse(cfg, b).stop)
    {
      ReadingIsUnique(cfg, es, rest, b, Messages(cfg, es), e);
    }
  }

  /** A read ends without an error exactly on the well-formed streams. */
  lemma Acceptance<M>(cfg: Config<M>, b: bytes)
    ensures Finish(cfg.protocol, Parse(cfg, b).stop) == None
        <==> exists es :: WellFormed(cfg, es) && b == FrameAll(es)
  {
    if Finish(cfg.protocol, Parse(cfg, b).stop) == None {
      var es, rest := ReadingOf(cfg, b);
      assert FrameAll(es) + [] == FrameAll(es);
    }
    forall es | WellFormed(cfg, es) && b == FrameAll(es)
      ensures Finish(cfg.protocol, Parse(cfg, b).stop) == None
    {
      WellFormedParses(cfg, es);
    }
  }

  // ---------------------------------------------------------------- Bounds

  /** Whether the two codecs agree on every payload of at most `m` bytes. */
  ghost predicate AgreeUpTo<M(!new)>(m: nat, f: bytes -> Result<M, ReadError>, g: bytes -> Result<M, ReadError>) {
    forall d: bytes :: |d| <= m ==> f(d) == g(d)
  }

  /** The decompressor never returns more than the limit. */
  ghost predicate BoundedDecompress(m: nat, f: bytes -> Result<bytes, ReadError>) {
    forall d: bytes :: f(d).Ok? ==> |f(d).value| <= m
  }

  /**
   * Neither the codec nor the handling of the end message is given a payload over the limit: what they
   * do with one is unobservable.
   */
  lemma {:induction false} DecoderStaysWithinLimit<M(!new)>(
      cfg: Config<M>, decode: bytes -> Result<M, ReadError>, handleEnd: bytes -> Result<(), ReadError>, b: bytes)
    requires cfg.limit.Some? && BoundedDecompress(cfg.limit.value, cfg.decompress)
    requires AgreeUpTo(cfg.limit.value, cfg.decode, decode)
    requires AgreeUpTo(cfg.limit.value, cfg.handleEnd, handleEnd)
    ensures Parse(cfg, b) == Parse(cfg.(decode := decode, handleEnd := handleEnd), b)
    decreases |b|
  {
    var front := ReadFront(cfg, b);
    assert front == ReadFront(cfg.(decode := decode, handleEnd := handleEnd), b);
    if front.Opened? && front.content.Message? {
      DecoderStaysWithinLimit(cfg, decode, handleEnd, front.rest);
    }
  }
}
