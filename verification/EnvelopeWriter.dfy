/** Writing envelopes, and reading back what was written. */
module EnvelopeWriter {
  import opened Common
  import opened Envelope
  import EnvelopeReader

  /** A writer compresses when it has a compression, and marks the envelope when it is a real one. */
  datatype Compressor = NoCompressor | Identity | Real(compress: bytes -> bytes)

  datatype Writer<!M> = Writer(protocol: Protocol, encode: M -> bytes, compressor: Compressor)

  function Prefix(c: Compressor): byte {
    if c.Real? then 1 else 0
  }

  function Compress(c: Compressor, data: bytes): bytes {
    if c.Real? then c.compress(data) else data
  }

  /** Packing fails when the length does not fit in four bytes. */
  function Pack(flags: byte, data: bytes): Option<bytes> {
    if |data| < MAX_LENGTH then Some(Frame(Envelope(flags, data))) else None
  }

  function Write<M>(w: Writer<M>, m: M): Option<bytes> {
    Pack(Prefix(w.compressor), Compress(w.compressor, w.encode(m)))
  }

  /** The flag of the end message: for gRPC the status is in HTTP trailers instead. */
  function EndFlag(p: Protocol): Option<byte> {
    match p
    case Connect => Some(2)
    case GrpcWeb => Some(128)
    case _ => None
  }

  /** The end message, for the text of the trailers and of the error. */
  function WriteEnd<M>(w: Writer<M>, text: bytes): Option<bytes> {
    match EndFlag(w.protocol)
    case None => Some([])
    case Some(flag) => Pack(Prefix(w.compressor) + flag, Compress(w.compressor, text))
  }

  /** The concatenation of all the writes, if each of them succeeds. */
  function WriteAll<M>(w: Writer<M>, messages: seq<M>): Option<bytes> {
    if messages == [] then Some([])
    else
      var first := Write(w, messages[0]);
      var rest := WriteAll(w, messages[1..]);
      if first.Some? && rest.Some? then Some(first.value + rest.value) else None
  }

  /** The reader's codec and compression undo the writer's, within the reader's limit. */
  ghost predicate Inverse<M(!new)>(w: Writer<M>, cfg: Config<M>) {
    && cfg.protocol == w.protocol && cfg.compression == w.compressor.Real?
    && (forall m: M :: cfg.decode(w.encode(m)) == Ok(m))
    && (w.compressor.Real? ==>
          forall d: bytes :: Within(cfg.limit, |d|) ==> cfg.decompress(w.compressor.compress(d)) == Ok(d))
    && (w.compressor.Real? ==> forall d: bytes :: w.compressor.compress(d) == [] ==> d == [])
  }

  /** Plain and compressed, the bytes are within the reader's limit. */
  predicate Fits<M>(w: Writer<M>, cfg: Config<M>, data: bytes) {
    && Within(cfg.limit, |data|)
    && Within(cfg.limit, |Compress(w.compressor, data)|)
    && |Compress(w.compressor, data)| < MAX_LENGTH
  }

  lemma OpenWritten<M(!new)>(w: Writer<M>, cfg: Config<M>, m: M)
    requires Inverse(w, cfg) && Fits(w, cfg, w.encode(m))
    ensures var e := Envelope(Prefix(w.compressor), Compress(w.compressor, w.encode(m)));
      && Acceptable(cfg, e) && Holds(cfg, e) == Message(m)
      && Write(w, m) == Some(Frame(e))
  {
    assert cfg.decode(w.encode(m)) == Ok(m);
    assert w.compressor.Real? ==>
      cfg.decompress(w.compressor.compress(w.encode(m))) == Ok(w.encode(m));
  }

  lemma EndFlags(p: Protocol, c: Compressor)
    requires EndFlag(p).Some?
    ensures var flags := Prefix(c) + EndFlag(p).value;
      FlagsAllowed(p, flags) && EndsStream(p, flags) && Compressed(flags) == c.Real?
  {
  }

  lemma OpenWrittenEnd<M(!new)>(w: Writer<M>, cfg: Config<M>, text: bytes)
    requires Inverse(w, cfg) && Fits(w, cfg, text) && EndFlag(w.protocol).Some?
    requires cfg.handleEnd(text) == Ok(())
    ensures var e := Envelope(Prefix(w.compressor) + EndFlag(w.protocol).value, Compress(w.compressor, text));
      && Acceptable(cfg, e) && IsEnd(cfg, e) && WriteEnd(w, text) == Some(Frame(e))
  {
    EndFlags(w.protocol, w.compressor);
    assert w.compressor.Real? ==> cfg.decompress(w.compressor.compress(text)) == Ok(text);
  }

  lemma WriteAllStep<M(!new)>(w: Writer<M>, cfg: Config<M>, messages: seq<M>, rest: bytes) returns (e: Envelope)
    requires Inverse(w, cfg) && messages != [] && Fits(w, cfg, w.encode(messages[0]))
    requires WriteAll(w, messages[1..]).Some?
    ensures |e.payload| < MAX_LENGTH && Acceptable(cfg, e) && Holds(cfg, e) == Message(messages[0])
    ensures WriteAll(w, messages).Some?
    ensures WriteAll(w, messages).value + rest == Frame(e) + (WriteAll(w, messages[1..]).value + rest)
  {
    OpenWritten(w, cfg, messages[0]);
    e := Envelope(Prefix(w.compressor), Compress(w.compressor, w.encode(messages[0])));
    assert WriteAll(w, messages).value == Frame(e) + WriteAll(w, messages[1..]).value;
  }

  lemma {:induction false} ParseWritten<M(!new)>(w: Writer<M>, cfg: Config<M>, messages: seq<M>, rest: bytes)
    requires Inverse(w, cfg)
    requires forall k :: 0 <= k < |messages| ==> Fits(w, cfg, w.encode(messages[k]))
    ensures WriteAll(w, messages).Some?
    ensures Parse(cfg, WriteAll(w, messages).value + rest) == Prepend(messages, Parse(cfg, rest))
    decreases |messages|
  {
    if messages == [] {
      assert WriteAll(w, messages).value + rest == rest;
      PrependPrepend(messages, messages, Parse(cfg, rest));
    } else {
      ParseWritten(w, cfg, messages[1..], rest);
      var e := WriteAllStep(w, cfg, messages, rest);
      ParseFrame(cfg, e, WriteAll(w, messages[1..]).value + rest);
      PrependPrepend([messages[0]], messages[1..], Parse(cfg, rest));
      assert [messages[0]] + messages[1..] == messages;
    }
  }

  /**
   * Reading undoes writing, however the body is cut into chunks: the same messages, no error, and
   * an end for the protocols that write one.
   */
  method RoundTrip<M(!new)>(w: Writer<M>, cfg: Config<M>, messages: seq<M>, text: bytes, chunks: seq<bytes>)
    returns (received: seq<M>, error: Option<ReadError>, ended: bool)
    requires Inverse(w, cfg)
    requires forall k :: 0 <= k < |messages| ==> Fits(w, cfg, w.encode(messages[k]))
    requires Fits(w, cfg, text) && cfg.handleEnd(text) == Ok(())
    requires WriteAll(w, messages).Some? && WriteEnd(w, text).Some?
    requires Concat(chunks) == WriteAll(w, messages).value + WriteEnd(w, text).value
    ensures received == messages && error == None && ended == EndFlag(w.protocol).Some?
  {
    received, error, ended := EnvelopeReader.ReadBody(cfg, chunks);
    ParseWritten(w, cfg, messages, WriteEnd(w, text).value);
    if EndFlag(w.protocol).Some? {
      OpenWrittenEnd(w, cfg, text);
      var e := Envelope(Prefix(w.compressor) + EndFlag(w.protocol).value, Compress(w.compressor, text));
      ParseFrame(cfg, e, []);
      assert Frame(e) + [] == Frame(e);
    }
  }

  /** Writing fails only on a message whose encoding does not fit in an envelope. */
  lemma {:induction false} WriteAllFails<M>(w: Writer<M>, messages: seq<M>)
    ensures WriteAll(w, messages) == None
        <==> exists k :: 0 <= k < |messages| && |Compress(w.compressor, w.encode(messages[k]))| >= MAX_LENGTH
    decreases |messages|
  {
    if messages != [] {
      var tail := messages[1..];
      WriteAllFails(w, tail);
      assert forall k :: 0 <= k < |tail| ==> tail[k] == messages[k + 1];
      if exists k :: 0 <= k < |messages| && |Compress(w.compressor, w.encode(messages[k]))| >= MAX_LENGTH {
        var k :| 0 <= k < |messages| && |Compress(w.compressor, w.encode(messages[k]))| >= MAX_LENGTH;
        if k > 0 {
          assert tail[k - 1] == messages[k];
        }
      }
    }
  }
}
