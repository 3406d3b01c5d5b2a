# Verification of the RPC runtime

Connect, gRPC and gRPC-Web for Python, with its health and reflection services: this project models
the parts of the runtime whose correctness depends on interleavings, on partial input or on failures
in the middle of a request, and proves what they promise. `dafny verify dfyconfig.toml` checks all
of it.

Code that updates state in place is a class or a method with loops here too, proved against pure
functions; the main theorems are about those functions, or are the contracts of the methods that
drive them. Code of the environment (handlers, hooks, codecs, decompressors, clocks, the ASGI
server) is a parameter, and every theorem holds for all of its behaviours.

- **Health watches** (`HealthChecker`, `WatchProtocol`, `WatchDeadline`). Setter threads, event loops
  and any number of watches, interleaved step by step. No update is lost, in any interleaving, on
  asyncio, trio or a plain thread; the callbacks held are exactly those of the open watches; every
  schedule settles, and then every open watch has sent the current status, which is the last one set.
- **Envelopes** (`Envelope`, `EnvelopeReader`, `EnvelopeWriter`). The incremental reader computes a
  function of the whole body, however the body is cut into chunks. A read is clean exactly on the
  well-formed streams, any other body has exactly one diagnosis, and reading undoes writing.
- **Interceptors** (`Interceptors`, `Hoisting`). Hoisting the leading metadata interceptors out of the
  call chain gives the run that nesting them gives: the same hooks, with the same errors, and the same
  outcome, exactly under stated conditions on what is read, on interruptions and on cancellations.
  However often a run is ended, its hooks end in reverse order, and none of them twice.
- **ASGI requests** (`AsgiResponse`, `AsgiSender`, `AsgiRequest`, `AsgiErrors`, `Disconnect`). Every await is an
  oracle: it returns, raises, is cancelled, or is interrupted. In every run the completed sends are
  the beginning of one response, in the grammar of the ASGI HTTP specification, and nothing is sent
  after a send that raised; no status among them is anything but the saved error. If every send returns, the
  response is determined exactly: its messages in order, one status, and a success exactly when nothing went wrong.
- **Reflection** (`Reflection`). The search that skips what earlier requests of a stream have sent is
  complete, because the set of seen files stays closed under dependencies, and sends the nearest files first.
- **gRPC status and timeouts** (`GrpcStatus`, `GrpcTimeout`). A status survives percent-encoding, the
  trailers and the text block of gRPC-Web; a timeout loses less than one part in a hundred thousand.
- **Bounded gzip** (`BoundedGzip`). Bounded decompression is unbounded decompression, up to the limit.
- **Headers** (`Multimap`, `HeadersClass`, `TrailerEncodings`). Two dictionaries refine an
  insertion-ordered multimap, and the trailer encodings recover it.

Where the code differs from what is said about it, the model follows the code:

- Hoisting is described as matching nested interceptors, except that hoisted hooks run before the
  request is read. Both are exact. If the request can't be read, hoisted hooks run and nested ones do
  not (`Hoisting.UnreadIsSeen`). If it can, the hooks see the same exactly where
  `Hoisting.HooksSeeTheSame` says. They do for ordinary exceptions of the endpoint and of hooks. They
  do not when the request's own deadline cancels the endpoint, of which hoisted hooks are told and
  nested ones see a cancellation; when it passes as the disconnect watch is left, after nested hooks
  have ended in success; and when the endpoint is interrupted, which is an unknown error to hoisted
  hooks and no error to nested ones. Where the hooks do see the same, the request comes out the same
  exactly where `Hoisting.RequestComesOutTheSame` says: from outside, a cancellation is replaced by the
  exception of an outer hook when nested, and stays in flight when hoisted.
- A later timeout can reach the peer as an earlier one, exactly for the pairs next to a change of unit
  that `GrpcTimeout.MonotoneUnlessInverted` gives; and a timeout of 10^8 hours or more is printed as a
  header that this library itself refuses (`GrpcTimeout.AcceptsWhatItPrints`).
- A unary response recovers its trailers exactly when no header of the response is named like a
  trailer (`TrailerEncodings.PrefixRecovers`).
- A start that was cancelled is sent again with the status (`AsgiRequest.StartIsSentAgain`), so the
  grammar of a response is a statement about the sends that completed. The attempted sends keep to it
  exactly unless `AsgiRequest.SendsStartAgain` holds of the environment (`AsgiRequest.HandleRequest`).

## Model

| member | source | states |
|---|---|---|
| HealthChecker.UnsubscribeUndoesSubscribe | connectrpc-grpchealth/connectrpc_grpchealth/_service.py:220-232 | Leaving a watch undoes entering it, down to the keys of the dictionary: no empty set is left behind. |
| HealthChecker.StaticChecker.constructor | connectrpc-grpchealth/connectrpc_grpchealth/_service.py:147-159 | A new checker knows exactly the given services, all serving, and has no callbacks. |
| HealthChecker.StaticChecker.SetStatus | connectrpc-grpchealth/connectrpc_grpchealth/_service.py:161-174 | Updates one service and snapshots exactly its callbacks, each once. |
| HealthChecker.StaticChecker.CheckSync | connectrpc-grpchealth/connectrpc_grpchealth/_service.py:184-189 | In three cases: the status that was set; serving for the server as a whole when none was; none for any other service. |
| HealthChecker.StaticChecker.ListSync | connectrpc-grpchealth/connectrpc_grpchealth/_service.py:191-193 | Lists the server as a whole, serving unless its own status was set, and exactly the known services with the statuses that were set. |
| HealthChecker.StaticChecker.Subscribe | connectrpc-grpchealth/connectrpc_grpchealth/_service.py:223-224 | Adds one callback to the set of its service. |
| HealthChecker.StaticChecker.Unsubscribe | connectrpc-grpchealth/connectrpc_grpchealth/_service.py:227-232 | Removes one callback, and the set with its last one; fails exactly when the service has no set. |
| WatchProtocol.NextKeepsInv | connectrpc-grpchealth/connectrpc_grpchealth/_service.py:161-232 | Every step of a setter, of an event loop and of a watch keeps the invariant. |
| WatchProtocol.NoLostUpdate | connectrpc-grpchealth/connectrpc_grpchealth/_service.py:195-218 | In every reachable state a watch that waits, with its event clear and no callback or wakeup on its way, has last sent the status that its service has in the dictionary; or, if it has none, serving for the server as a whole and unknown for any other service. |
| WatchProtocol.StatusesAreLastSet | connectrpc-grpchealth/connectrpc_grpchealth/_service.py:161-174 | After any run of setters, loops and watches a service has the last status that was set for it, or what it had before if none was. |
| WatchProtocol.HistoryOnlyGrows | connectrpc-grpchealth/connectrpc_grpchealth/_service.py:161-174 | What the statuses have been is never rewritten, and the latest of it is what they are. |
| WatchProtocol.CleanupNeverMisses | connectrpc-grpchealth/connectrpc_grpchealth/_service.py:228-232 | In every reachable state the callback of an open watch is in the dictionary, so the lookup of the cleanup has never failed. |
| WatchProtocol.NoLeakedCallbacks | connectrpc-grpchealth/connectrpc_grpchealth/_service.py:220-232 | Once every watch has closed, the dictionary is empty. |
| WatchProtocol.DestutterShape | connectrpc-grpchealth/connectrpc_grpchealth/_service.py:279-284 | Dropping repeats keeps the first and the last status, never repeats one, and picks statuses in order. |
| WatchProtocol.WatchOutput | connectrpc-grpchealth/connectrpc_grpchealth/_service.py:270-284 | The statuses sent on a watch begin with the first one read, never repeat one in a row, and were what the dictionary gave its service, or stood for its absence, at ascending points of the history. |
| WatchProtocol.InternalRunsAreBounded | connectrpc-grpchealth/connectrpc_grpchealth/_service.py:195-232 | While no status changes and no watch opens, every run from a state has at most as many steps as the state's measure. |
| WatchProtocol.QuiescentWatchIsParked | connectrpc-grpchealth/connectrpc_grpchealth/_service.py:198-201 | When no thread or loop can take a step, every open watch waits and nothing is on its way to it. |
| WatchProtocol.Convergence | connectrpc-grpchealth/connectrpc_grpchealth/_service.py:346-362 | Once statuses stop changing every schedule comes to rest, and then the last status sent on every open watch is the one in the dictionary, or stands for its absence. |
| WatchDeadline.WatchSync | connectrpc-grpchealth/connectrpc_grpchealth/_service.py:203-218 | Ends exactly at the first timed wait that ends at or past the deadline, whatever the clock and early waits do; yields once and then once a change. |
| WatchDeadline.ServiceWatch | connectrpc-grpchealth/connectrpc_grpchealth/_service.py:325-343 | A timed call never ends in success nor before its deadline, and ends exactly when a wait times out once the time that was left on entry, or none if there was none, has passed. |
| Envelope.FlagsAreBits | src/connectrpc/_envelope.py:73-89 | The flags that the model calls allowed, compressed and end of stream are those of the readers' bit masks: the lowest bit, and with it the second for Connect and the highest for gRPC-Web. |
| Envelope.BytesOfNumber | src/connectrpc/_envelope.py:168 | A number that fits is read back from its big-endian bytes, of any width. |
| Envelope.NumberOfBytes | src/connectrpc/_envelope.py:93 | Bytes are the big-endian form of the number they are read as, which is below 256^width. |
| Envelope.LengthIsBigEndian | src/connectrpc/_envelope.py:93 | The length of an envelope is its second to fifth byte, the most significant first. |
| Envelope.ParseAppend | src/connectrpc/_envelope.py:51-98 | A stream can be cut anywhere: reading the second part where the first stopped reads the whole. |
| Envelope.WellFormedParses | src/connectrpc/_envelope.py:55-98 | A well-formed stream of envelopes yields exactly its messages, and has ended when its last envelope is an end. |
| Envelope.Acceptance | src/connectrpc/_envelope.py:55-133 | A read finishes without an error exactly when the bytes are envelopes with flags in the mask, lengths within the limit, a compressed flag only for a reader with a compression, payloads that decompress, unless they are empty, to what the codec or the handling of the end takes, and no end but the last. |
| Envelope.ReadingOf | src/connectrpc/_envelope.py:55-133 | Every body begins with envelopes to accept, and what follows them has exactly one diagnosis: nothing, bytes after the end, an incomplete header, flags, a length over the limit, a truncated message, no compression, or what the decompressor, the codec or the handling of the end raises; with the code for a request or for a response. |
| Envelope.ReadingIsUnique | src/connectrpc/_envelope.py:55-133 | What comes first decides: if a body begins with envelopes to accept and goes on with a fault, the messages are those of the envelopes, and the error is that of the first condition the fault breaks. |
| Envelope.DecoderStaysWithinLimit | src/connectrpc/_envelope.py:74-98 | With a limit, what the codec and the handling of the end message do with longer payloads can't be observed: they are never given one. |
| EnvelopeReader.EnvelopeReader.TakeEnvelope | src/connectrpc/_envelope.py:61-87 | Removes the first envelope from the buffer and opens it, with the errors and the end that the whole-stream reading gives it. |
| EnvelopeReader.EnvelopeReader.ReadHeader | src/connectrpc/_envelope.py:89-98 | Keeps the length of a header with allowed flags and a length within the limit, and refuses any other. |
| EnvelopeReader.EnvelopeReader.Feed | src/connectrpc/_envelope.py:51-98 | Yields the messages, and stops in the state or with the error, that reading on from the old state gives; between feeds a reader with limit m holds fewer than m + 5 bytes. |
| EnvelopeReader.EnvelopeReader.CheckEnded | src/connectrpc/_envelope.py:116-133 | Tells a clean end from extra bytes, a truncated message and an incomplete header. |
| EnvelopeReader.ReadBody | src/connectrpc/_server_async.py:848-868 | However a body is cut into chunks, the messages and the outcome are those of the whole body: the messages of the envelopes before the first fault, and its own error. |
| EnvelopeReader.ReadConnectResponse | src/connectrpc/_protocol_connect.py:313-342 | A Connect response is read without an error exactly when it is a well-formed stream that ends with an end message, and then yields its messages. |
| EnvelopeWriter.EndFlags | src/connectrpc/_protocol_connect.py:165-172 | The flags written for an end are allowed, end the stream, and are marked compressed exactly when they are. |
| EnvelopeWriter.ParseWritten | src/connectrpc/_envelope.py:154-168 | Written messages are read back in order, in front of whatever follows. |
| EnvelopeWriter.RoundTrip | src/connectrpc/_protocol_grpc.py:210-222 | Messages and an end, written, cut into any chunks and read, give the same messages, no error, and an end for the protocols that write one. |
| EnvelopeWriter.WriteAllFails | src/connectrpc/_envelope.py:154-168 | Writing fails exactly when some encoded message does not fit in four bytes of length. |
| Interceptors.ApplyInterceptors | src/connectrpc/_server_sync.py:766-776 | The loop over the reversed list builds the nesting with the first interceptor outermost. |
| Interceptors.NestCalls | src/connectrpc/_interceptor_async.py:186-204 | A metadata interceptor starts, calls the rest if it started, and ends with the error of the call; a message interceptor is given the rest as its next call; one of another kind is passed over. |
| Interceptors.SplitLeading | src/connectrpc/_interceptor_async.py:383-399 | Splits off exactly the metadata interceptors in front; the rest begins with another sort or is empty. |
| Interceptors.MetadataInterceptorsRun.Start | src/connectrpc/_interceptor_async.py:349-357 | Starts the hooks in order up to the first that fails, and keeps the ones that started with their tokens. |
| Interceptors.StartTrace | src/connectrpc/_interceptor_async.py:349-357 | The hooks are called in order, each in the state left by the one before it, up to the first that does not return; exactly the others are kept, with the tokens they returned. |
| Interceptors.MetadataInterceptorsRun.End | src/connectrpc/_interceptor_async.py:359-380 | Unwinds the stack: all of it unless a hook is interrupted. An error can be replaced, never discarded; a cancellation is raised after the rest has ended. |
| Interceptors.UnwindTrace | src/connectrpc/_interceptor_async.py:359-380 | Hooks end in reverse order. Each is called with its own token, the error that the hooks before it left and the state that they left, and its outcome is the one recorded; a cancellation of any of them is remembered. |
| Interceptors.EndCallsTrace | src/connectrpc/_interceptor_async.py:359-380 | Over any number of calls of `end`, no hook ends twice, the order is the reverse of the start, and each end is a call of that hook in the state left by the one before it. |
| Interceptors.HandleHoisted | src/connectrpc/_server_async.py:352-550 | The run with its stack, ended within the scope and after it, performs the hoisted request, whatever cancels it: the hooks that are left are given the error that is saved for the client. |
| Interceptors.EndRequestTrace | src/connectrpc/_server_async.py:490-525 | The two ends of a request, within its scope and after it: hooks end in reverse, none twice, each called with the recorded token and error in the state left by the one before it. |
| Interceptors.MetadataInterceptorsRunSync.Start | src/connectrpc/_interceptor_sync.py:269-277 | Starts the hooks in order up to the first that fails. |
| Interceptors.MetadataInterceptorsRunSync.End | src/connectrpc/_interceptor_sync.py:279-295 | The first call unwinds the hooks, up to one that raises more than an ordinary exception; later calls change nothing. |
| Interceptors.UnwindSyncTrace | src/connectrpc/_interceptor_sync.py:279-295 | Hooks end in reverse, each called with the error and the state that the ones before it left; the first to raise more than an ordinary exception is the last, and its outcome is raised. |
| Interceptors.HandleHoistedSync | src/connectrpc/_server_sync.py:330-357 | The synchronous run performs the hoisted request, hook by hook: after an interruption they are given an unknown error, and the interruption is raised. |
| Hoisting.NestedIsEndNested | src/connectrpc/_interceptor_async.py:186-204 | Nested invokers start their hooks in order, run the body, and end the hooks that started in reverse, each with the outcome that the ones within it left. |
| Hoisting.EndNestedCalls | src/connectrpc/_interceptor_async.py:199-204 | Nested hooks all end, in reverse; each is called in the state left by the one before it, with the error it is recorded with. |
| Hoisting.NestLeading | src/connectrpc/_server_async.py:925-935 | Nesting a list is nesting its leading hooks around the nesting of the rest. |
| Hoisting.HooksSeeTheSame | src/connectrpc/_server_async.py:490-525 | Around an endpoint that is called, the hooks that started run with the same errors and come out alike in both forms exactly when none started, or the first to end is given the same error (the endpoint's nested, what the request has saved hoisted) and no hook but the last to end is interrupted. |
| Hoisting.FirstErrorIsTheSame | src/connectrpc/_server_async.py:505-517 | With a clean exit of the watch, that error is the same exactly when the endpoint was neither interrupted nor cancelled by the request's own deadline (a disconnect, which is reported as a cancellation, excepted). |
| Hoisting.HoistedReport | src/connectrpc/_server_async.py:490-550 | How a hoisted request comes out, for every outcome of its body and of each of its hooks: interruptions, cancellations from outside and of the scope's own, and which exception is reported. |
| Hoisting.RequestComesOutTheSame | src/connectrpc/_server_async.py:505-550 | Where the hooks see the same, the outcome is the same exactly when no hook raises after the last cancellation from outside; with a cancellation of the scope's own, exactly when both forms report the same error, as stated. |
| Hoisting.HoistingPreservesMeaning | src/connectrpc/_server_async.py:443-453 | For any list, endpoint and hooks, whatever the request reads and whatever cancels it: the state and the whole run of the hooks are preserved exactly under the condition above if the request can be read, and exactly when nothing is hoisted if it can't. |
| Hoisting.HowRequestsComeOut | src/connectrpc/_server_async.py:552-573 | The outcome of a request that can be read, in both forms and for every run: nested, the failures of the hooks come before the exit of the watch; hoisted, after it. |
| Hoisting.ReadComesOutTheSame | src/connectrpc/_interceptor_async.py:330-399 | A request that can be read, with a clean exit of the watch: where the hooks see the same, it comes out the same exactly under the second condition. |
| Hoisting.UnreadIsSeen | src/connectrpc/_interceptor_async.py:142-147 | A request that can't be read: nested, no hook runs and the read's outcome is reported; hoisted, hooks run, and nothing differs exactly when there are none. |
| Hoisting.UnreadComesOutTheSame | src/connectrpc/_server_async.py:490-550 | If its hooks all start, a request that can't be read comes out the same exactly when their ends leave the outcome as it was: for each kind of outcome, which ends of hooks do. |
| Hoisting.OrdinaryRequestsAreTheSame | src/connectrpc/_interceptor_async.py:359-380 | If the request can be read, the endpoint and the hooks return or raise ordinary exceptions and the watch is left cleanly, nothing tells the two forms apart. |
| Hoisting.HoistingSyncPreservesMeaning | src/connectrpc/_server_sync.py:330-357 | In the synchronous server, if the request can be read, the hooks see the same exactly when none started, or the endpoint was not interrupted and no hook but the last to end was, and then the outcome is the same; if it can't be read, the hooks see the same exactly when nothing is hoisted, and the outcome is the one that the hooks which ran report. |
| Hoisting.UnreadableIsSeenDifferently | src/connectrpc/_server_async.py:443-453 | A request that can't be parsed: nested, its hook never runs; hoisted, it runs and is given the error. |
| Hoisting.CancellationIsReportedDifferently | src/connectrpc/_interceptor_async.py:199-204 | A cancelled endpoint under a hook that raises: nested reports the hook's error, hoisted the cancellation. |
| Hoisting.DeadlineIsSeenDifferently | src/connectrpc/_server_async.py:505-525 | An endpoint cancelled by the request's deadline: nested, its hook is told of a cancellation; hoisted, of the deadline. |
| Hoisting.ExitIsSeenDifferently | src/connectrpc/_server_async.py:571-573 | A deadline that passes while the watch is left, after an endpoint that returned: nested, its hook has ended in success; hoisted, it is told of the deadline. |
| Hoisting.InterruptionIsSeenDifferently | src/connectrpc/_server_async.py:509-525 | An interrupted endpoint: nested, its hook is given no error; hoisted, an unknown one. |
| Disconnect.RunKeepsInv | src/connectrpc/_loop.py:76-105 | Every interleaving keeps the invariant of the race; a scope that has expired never changes again. |
| Disconnect.DisconnectCutsShort | src/connectrpc/_loop.py:76-87 | The watch receives only until a disconnect is seen, and ends only then or when receiving fails; a disconnect that it ends with has moved the deadline, unless the scope had expired; and only a disconnect that was delivered counts as one. |
| Disconnect.ExpiredScopeReport | src/connectrpc/_server_async.py:803-824 | The watch never reschedules an expired scope, and an expired scope is reported as canceled if the watch had moved it ahead of the deadline, or there was none, and as past the deadline otherwise. |
| Disconnect.ReportIsFinal | src/connectrpc/_server_async.py:818-824 | What happens after the scope has expired changes neither its time nor its report. |
| AsgiResponse.PhaseIsGrammar | src/connectrpc/_server_async.py:199-248 | The automaton accepts exactly the beginnings of start, body*, final body and announced trailers, and completes exactly on whole responses. |
| AsgiSender.SummaryMeans | src/connectrpc/_server_async.py:105-127 | What the sender's fields summarize is true of its attempts: what completed, whether a send failed and whether anything followed it. |
| AsgiSender.ResponseSender.Send | src/connectrpc/_server_async.py:120-127 | Records a failed send and a start that returned, and nothing else. |
| AsgiSender.ResponseSender.SendUnary | src/connectrpc/_server_async.py:163-186 | Sends a prefix of a unary response, all of it exactly when the encoding and both sends return. |
| AsgiSender.ResponseSender.SendMessage | src/connectrpc/_server_async.py:723-732 | Sends headers before the first message only, and then the message that is next. |
| AsgiSender.ResponseSender.EndStream | src/connectrpc/_server_async.py:220-248 | Completes a stream with the status of its protocol: headers if there were none, an end message or trailers, and nothing if a send had failed. |
| AsgiSender.StreamIsWhole | src/connectrpc/_server_async.py:199-248 | A whole stream is a start with status 200 that announces trailers exactly for gRPC, its messages from the first in order, and the error in the end message, or in trailers after an empty body. |
| AsgiSender.StreamReports | src/connectrpc/_server_async.py:220-248 | The whole stream reports one status, which is the error or the success it ends with. |
| AsgiSender.ResponseSender.HandleError | src/connectrpc/_server_async.py:738-789 | Responds with the error, in headers for gRPC, exactly when nothing had been sent and no send had failed; otherwise it sends nothing. |
| AsgiSender.ErrorReports | src/connectrpc/_server_async.py:738-789 | Outside a stream an HTTP error has its own status, a Connect error that of its code and any other that of an unknown error, with the error in the body; to gRPC and gRPC-Web all but HTTP errors are status 200 with the error in the headers. Each reports its error once. |
| AsgiRequest.Encoded | src/connectrpc/_server_async.py:729 | The first message that can't be encoded: every one before it can. |
| AsgiRequest.UnaryIsServed | src/connectrpc/_server_async.py:490-508 | A unary request, which reads its message and then calls the endpoint within its watch, leaves its scope and saves its error as the hoisted request that is compared with nesting does, whatever cancels it. |
| AsgiRequest.SavedErrorIff | src/connectrpc/_server_async.py:490-524 | If every send returns, no error is saved exactly when the setup, the hooks, the handler, the encodings, the closing of its stream and the disconnect watch all come out well. |
| AsgiErrors.FirstErrorGiven | src/connectrpc/_server_async.py:490-525 | With any hooks: the first to end is given that error of the call, or no error if it ends before a single response is sent. |
| AsgiErrors.ErrorWithoutHooks | src/connectrpc/_server_async.py:376-525 | Without hooks the client is told what went wrong first: the refusal, else what the exit of the watch threw, else what reading or calling raised, what the closing of a stream replaced it with, or the encoding; for a cancellation of its own, the deadline or the disconnect; for one from outside, a cancellation; for an interruption, an unknown error. |
| AsgiErrors.EarlyErrorIsReported | src/connectrpc/_server_async.py:699-716 | An error that the hooks of a single response leave, before it is sent, is how the call comes out; it is reported and no message is sent. |
| AsgiRequest.SendMessages | src/connectrpc/_server_async.py:718-735 | Sends messages in order up to the first that can't be encoded or sent, and comes out as that one did. |
| AsgiRequest.CallStream | src/connectrpc/_server_async.py:648-735 | The hooks of a single response end before it is sent; the cleanup of the handler's stream replaces an error, but not a cancellation. |
| AsgiRequest.Perform | src/connectrpc/_server_async.py:377-489 | The setup, the hooks and the call: what has been sent when they end, and how they came out. |
| AsgiRequest.WithinScope | src/connectrpc/_server_async.py:376-500 | The scope of the deadline is left with every hook ended or a cancellation in flight, and with all of a unary response or an open stream. |
| AsgiRequest.Conclude | src/connectrpc/_server_async.py:505-545 | The deadline's own cancellation becomes a timeout or a disconnect, unless there was an error already; the hooks that are left are given the saved error; then the status is sent. |
| AsgiRequest.SentReports | src/connectrpc/_server_async.py:526-540 | Whatever was sent reports no status but the saved error, and reports it once if nothing of the response is missing; the k-th event of a stream is its headers, its (k-1)-th message or the end. |
| AsgiRequest.Leave | src/connectrpc/_server_async.py:541-550 | A request returns only when it has responded with an error of the protocol or none. The closing of the request stream replaces everything if it fails; a failed cleanup, and then what is in flight, come before the error. |
| AsgiRequest.ServeScope | src/connectrpc/_server_async.py:372-542 | The scope and the cleanup: which start of which request is sent again, and, if every send returns, every call of `end` and its outcome. |
| AsgiRequest.StartIsSentAgain | src/connectrpc/_server_async.py:740-742 | A request whose first start is cancelled sends another one with its status: its attempted sends are no beginning of a response. |
| AsgiRequest.HandleRequest | src/connectrpc/_server_async.py:352-550 | In every run: the completed sends begin one response and nothing follows a failed send; no status among them is anything but the saved error; the attempted ones begin a response too exactly unless the environment cuts off the first send within the scope, lets the hooks that are left end, and, outside a stream, encodes the status; statuses come after the last hook; hooks end in reverse, none twice; the last error is the one reported. If every send returns, every call of `end` is determined, and the response is, event by event, the start, the messages in order and one status, which carries that error, and is a success exactly when nothing went wrong. Interruptions, and cancellations from outside, stay in flight. |
| Reflection.ClosedHoldsReachable | connectrpc-grpcreflect/connectrpc_grpcreflect/_service.py:279-293 | A set of files closed under dependencies holds everything reachable from its members. |
| Reflection.SearchEnds | connectrpc-grpcreflect/connectrpc_grpcreflect/_service.py:283-293 | When the queue is empty, the seen files are closed and are exactly the old ones and those reachable from the root. |
| Reflection.LevelIsDistance | connectrpc-grpcreflect/connectrpc_grpcreflect/_service.py:283-293 | No path from the root to a file that was sent is shorter than the level that the file was sent at. |
| Reflection.Seen.WithDependencies | connectrpc-grpcreflect/connectrpc_grpcreflect/_service.py:279-293 | Sends the root first, then exactly the files reachable from it that had not been seen, each once, after a file that imports it, and in the order of their distance from the root; the search terminates. |
| Reflection.Answer | connectrpc-grpcreflect/connectrpc_grpcreflect/_service.py:211-276 | A file that is found is sent with what it reaches and no earlier request has, nearest first; one that is not found, and any other request, leave the seen files alone. |
| Reflection.ServerReflectionInfo | connectrpc-grpcreflect/connectrpc_grpcreflect/_service.py:64-71 | Over a whole stream the seen files are exactly those reachable from the requested roots, and each response holds what was still missing. |
| Reflection.SentAgainOnlyAsRoot | connectrpc-grpcreflect/connectrpc_grpcreflect/_service.py:260-276 | A file that is sent twice on a stream is the root of the later response. |
| Reflection.ResolveRegistry | connectrpc-grpcreflect/connectrpc_grpcreflect/_service.py:195-208 | The registry holds exactly what the given files reach, and is closed. |
| GrpcTimeout.DecimalRoundTrip | src/connectrpc/_protocol_grpc.py:145-164 | Parsing a printed number gives the number. |
| GrpcTimeout.DecimalLength | src/connectrpc/_protocol_grpc.py:450-469 | A number has at most k digits exactly when it is below 10^k. |
| GrpcTimeout.ParseMeans | src/connectrpc/_protocol_grpc.py:145-185 | A timeout is one to eight digits and one of six units, each with its nanoseconds; otherwise the first of too few characters, the unit, the digits and their number that is wrong is the error. |
| GrpcTimeout.AcceptsWhatItPrints | src/connectrpc/_protocol_grpc.py:453-469 | A printed timeout is accepted exactly when it is below 10^8 hours. |
| GrpcTimeout.TimeoutLoss | src/connectrpc/_protocol_grpc.py:453-469 | The parsed timeout never exceeds the original, loses less than one unit and less than 1/100,000 of it, and nothing below 10^8 milliseconds; one in the past is no time at all. |
| GrpcTimeout.PrintsWhatItRefuses | src/connectrpc/_protocol_grpc.py:453-469 | The first timeout that does not fit, 10^8 hours, is printed and then refused as too long. |
| GrpcTimeout.MonotoneUnlessInverted | src/connectrpc/_protocol_grpc.py:453-469 | For all timeouts that fit, the longer one is parsed to no less than the shorter exactly unless they are among the last in one unit and the first in the next, as given in milliseconds. |
| GrpcTimeout.NotMonotone | src/connectrpc/_protocol_grpc.py:453-469 | Such a pair: the last timeout in seconds and the first in minutes. |
| BoundedGzip.Decompress | src/connectrpc/compression/gzip.py:33-66 | For any members, cut short or not: the plain text of all of them in order, or an error exactly when the output is over the limit or the input was cut, and the error of a cut input if nothing was over; never more than limit + 1 bytes are held, and the limit passed on is never zero. |
| Multimap.Rebuild | src/connectrpc/_headers.py:27-40 | Rebuilding from all items restores the multimap, names and values in order. |
| Multimap.SetInLookup | src/connectrpc/_headers.py:46-50 | Setting a name leaves just the one value, and no other name changes. |
| Multimap.ChangesInPlace | src/connectrpc/_headers.py:46-80 | Adding to, setting or removing a name that is there changes its values, or drops it, and leaves all others in their places. |
| HeadersClass.MergedIsMultimap | src/connectrpc/_headers.py:24-40 | The two dictionaries always stand for a multimap: distinct names, each with a value. |
| HeadersClass.ExtraCountIsSum | src/connectrpc/_headers.py:144-148 | The further values of the names in the store are all of the further values. |
| HeadersClass.LowerIdentifies | src/connectrpc/_headers.py:42-47 | Two names are one exactly when they differ in nothing but the case of ASCII letters. |
| HeadersClass.IterateView | src/connectrpc/_headers.py:137-142 | The view yields the items of the multimap in order. |
| HeadersClass.Headers.Add | src/connectrpc/_headers.py:69-80 | Adds a value after the others of its name, or a new name at the end. |
| HeadersClass.Headers.SetItem | src/connectrpc/_headers.py:46-50 | Sets a name in place and drops its other values. |
| HeadersClass.Headers.DelItem | src/connectrpc/_headers.py:52-58 | Removes a name with all its values, or fails exactly when it is absent. |
| HeadersClass.Headers.Clear | src/connectrpc/_headers.py:82-85 | Leaves the empty multimap. |
| HeadersClass.Headers.GetItem | src/connectrpc/_headers.py:42-44 | The first value of a name, whatever its case. |
| HeadersClass.Headers.GetAll | src/connectrpc/_headers.py:87-95 | All values of a name in order. |
| HeadersClass.Headers.AllItems | src/connectrpc/_headers.py:97-101 | The items of the multimap, whether or not there is a second dictionary. |
| HeadersClass.Headers.AllItemsLength | src/connectrpc/_headers.py:144-148 | The length of the view is the number of items it yields. |
| TrailerEncodings.Copy | src/connectrpc/_protocol_grpc.py:189 | A copy by way of all items holds the same names and values in the same order. |
| TrailerEncodings.GroupMetadata | src/connectrpc/_protocol_connect.py:160-164 | The grouping loop builds the multimap of the items. |
| TrailerEncodings.HandleResponseTrailers | src/connectrpc/_response_metadata.py:41-55 | Adds every value of the metadata, in order. |
| TrailerEncodings.ConnectTrailers | src/connectrpc/_protocol_connect.py:317-332 | What a server puts in an end message the client reads back, for any trailers. |
| TrailerEncodings.AddContextHeaders | src/connectrpc/_server_async.py:913-922 | Headers and then the prefixed trailers, in order. |
| TrailerEncodings.HandleResponseHeaders | src/connectrpc/_response_metadata.py:19-38 | Each line goes to the headers or, without its prefix, to the trailers. |
| TrailerEncodings.PrefixRecovers | src/connectrpc/_response_metadata.py:27-34 | The trailers are recovered exactly when no response header is named like a trailer, and then the headers are too. |
| TrailerEncodings.HeaderBecomesTrailer | src/connectrpc/_response_metadata.py:27-34 | A response header named `trailer-x` reaches the client as the trailer `x`, and as no header. |
| TrailerEncodings.UnaryTrailers | src/connectrpc/_server_async.py:163-186 | The same, end to end through the headers of a response. |
| GrpcStatus.UnquoteQuoted | src/connectrpc/_protocol_grpc.py:188-207 | Percent-decoding (section 2.1 of RFC 3986) undoes percent-encoding for any bytes. |
| GrpcStatus.UnquotePlain | src/connectrpc/_protocol_grpc.py:410 | ASCII text without a valid escape is decoded as it is, percent signs included. |
| GrpcStatus.UnquoteMixed | src/connectrpc/_protocol_grpc.py:410 | Escapes are read in either case, and other characters than ASCII separate the runs that are decoded. |
| GrpcStatus.LineRoundTrip | src/connectrpc/_protocol_grpc.py:436-441 | A line gives back its name and value exactly when the name has no colon and both are trimmed. |
| GrpcStatus.BlockRoundTrip | src/connectrpc/_protocol_grpc.py:216-222 | For any items, a block gives them back exactly when each of them is clean and none of their lines holds a CRLF. |
| GrpcStatus.ReadBlock | src/connectrpc/_protocol_grpc.py:430-442 | Reads the lines of the block, skips empty ones and fails on a line without a colon. |
| GrpcStatus.CodeRoundTrip | src/connectrpc/_protocol_grpc.py:472-491 | Every code is read back from its number, and none is mistaken for success. |
| GrpcStatus.StatusNumbers | src/connectrpc/_protocol_grpc.py:472-491 | The number of each code, from 1 to 16; any other text is an unknown error. |
| GrpcStatus.WriteStatus | src/connectrpc/_protocol_grpc.py:188-207 | The assignments into a copy of the caller's trailers give the status trailers that the other results are about. |
| GrpcStatus.StatusIsAppended | src/connectrpc/_protocol_grpc.py:188-207 | The status follows the caller's trailers, which keep their order. |
| GrpcStatus.WrittenExample | src/connectrpc/_protocol_grpc.py:188-207 | What is written for an error with a message, by the names of the trailers and byte for byte. |
| GrpcStatus.StatusRoundTrip | src/connectrpc/_protocol_grpc.py:373-410 | The client raises the code, message and details that the server reported, and nothing for a success, from the trailers, or from the headers of a response without a body; it sees the caller's trailers. A reset of the stream replaces the code of an error and nothing else. |
| GrpcStatus.MissingStatusRaises | src/connectrpc/_protocol_grpc.py:381-395 | Without a status something is always raised: the error of a reset, or an internal error; headers are handed over first exactly if no message was read. |
| GrpcStatus.HeadersAreIgnored | src/connectrpc/_protocol_grpc.py:381-388 | After a message, or with a status in the trailers, the headers have no effect. |
| GrpcStatus.EmptyDetailsAreIgnored | src/connectrpc/_protocol_grpc.py:399-410 | Without details, or with empty ones, the code and the decoded message of the other trailers are raised. |
| GrpcStatus.NotFoundInHeaders | src/connectrpc/_protocol_grpc.py:381-410 | A response without a body whose one header is the status 5 raises NOT_FOUND. |
| GrpcStatus.WebStatus | src/connectrpc/_protocol_grpc.py:413-447 | The same through the text block of gRPC-Web, for any message, colons and line breaks included. |

## Left out

- Handler streams of the synchronous (WSGI) server, and nested interceptors around server and bidi streams: they rest on closing and throwing into generators.
- The trio server loop (cancel scopes, shielding, exception groups); the deadline race is that of the asyncio loop. The trio waiter of a health watch is modelled.
- Negotiation of content types, codecs, compressions and protocol versions, the reading of GET and POST unary requests, and the lookup of endpoints: in the model they are the outcome of the setup or of the call.
- Poll of the disconnect flag between messages: one more way for the handler's stream to raise.
- Bytes of headers and of bodies in the ASGI model: an event names what it carries (the k-th message, the status with this error), and its bytes are the subject of the envelope, trailer and status models.
- Wire errors as JSON, and the tables of HTTP statuses: lookups that would add only easy members.
- UTF-8, base64, protobuf, JSON, zlib and the message compressions: parameters with the contract of an inverse pair, and for zlib one of consumed and produced bytes.
- The text block of gRPC-Web is modelled on characters, before its UTF-8 encoding.
- Lookup of symbols and services in a registry, and the error responses of reflection: the model starts from the file that was found.
- Lower-casing of names covers ASCII letters only.
- Headers built from a mapping, and the views without duplicates.
- The context variable that holds the response metadata: the model is of the headers and trailers it accumulates.
- Clocks are integers or reals rather than floating-point numbers, and may stand still.
- Text of error messages, except for a missing gRPC status.
- A reader that is fed again after it raised: the servers and clients drop it.
- HTTP clients, transports, sockets, code generation, the OpenTelemetry package and the examples.
- BoundedGzip.Decompress: takes whole members, or a payload cut short within its last member; corrupt data, and bytes after the last member that begin no member, on which zlib raises, are not modelled.
- Hoisting.HoistingPreservesMeaning: what is read is the same in both forms; a hoisted hook that changes the request headers which reading looks at is not modelled.
- Hoisting.HowRequestsComeOut: is about unary requests, Connect's with its watch; the hooks of a response stream are in `AsgiRequest` only, as hoisted.
- Hoisting.HooksSeeTheSame: compares errors by their kind and code. A disconnect and a cancellation from outside are the same error to it, though their messages differ.
- Envelope.DecoderStaysWithinLimit: takes the bound on decompressed payloads as the contract of the decompressor; `BoundedGzip.Decompress` proves it for gzip.
