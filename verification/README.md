# Verified model of hyperdriver

Three parts of the library, each modelled as a machine driven by an adversary and proved
for every choice the adversary has.

**Happy Eyeballs** (`Eyeball*.dfy`). `EyeballSet` runs connection attempts: an initial
burst, then one more per failure or expired delay, until one succeeds.
`EyeballMachine` is a step machine with one step per awaited `join_next`; the environment
answers each await, choosing which finished attempt is yielded. Attempts hang or resolve
after any duration, so runs cover every completion order. `EyeballSets.EyeballSet` is the
mutable set, each method proved against the machine. The laws are about all runs of it:
where every attempt goes, how many are in flight, when and with what a run ends, and how
long it takes.

**Protocol detection and replay** (`ByteFeed`, `Bridge`, `Detection`,
`ConnectionMachine`, `ServerConnection`). A server connection reads bytes to tell HTTP/2
from HTTP/1 and replays them to the engine it chooses. A source of bytes follows an
arbitrary script of pendings, errors and short reads. Buffers are arrays with filled and
initialised cursors, and readers are stacks of the two `TokioIo` bridges and `Rewind`, nested
to any depth; each poll of a stack is proved to be one of its abstract feed, in which
the bridges leave no trace. So a reader wrapped in both bridges is the reader itself.

**Client request normalisation** (`HostField`, `ClientRequest`, `Multiplexing`). The
layers rewrite a request for the connection it goes out on. The target URI is proved to
be reconstructible from what is sent.

What the environment is assumed to do, and nothing more:

- `FuturesUnordered::next` yields each finished task once, in any order, and `None` only
  from an empty set; a dropped `next()` loses no task.
- `tokio::time::timeout` polls its inner future before its timer.
- The executor is prompt: an await resolves at the first clock tick at which it can.
- A read with room that returns no bytes is an end of file.
- `http::Uri`'s accessors return a host that is bracketed or free of colons, a port of
  decimal digits below 65536, and a path that starts with `/` and contains no `?`.

Where the code and its documentation disagree, the model follows the code:

- The doc comment of `EyeballSet` (src/happy_eyeballs.rs:71-74) says that `timeout` paces
  the attempts. `delay` and `initial_concurrency` do; `timeout` bounds the whole call.
  Without a delay, a hanging attempt can keep later ones from ever starting
  (`EyeballVerdict.UnpacedHangBlocks`); `EyeballVerdict.VerdictExact` says exactly when.
- `HappyEyeballsError::Timeout` carries the time since the set's first await ever, which
  is the timeout only for a set that was not run before (`EyeballTiming.OverallTimeout`).
- Detection is documented as looking at the initial bytes of the connection
  (src/server/builder.rs:70-72). The comparison at src/server/conn/auto.rs:293 takes the
  whole rest of the preface, so a preface that arrives in pieces is served as HTTP/1.
  `Detection.VerdictMeetsIntent` gives the exact condition, and `Detection.VerdictSliced`
  shows that comparing only the bytes read would be right for every chunking.
- In src/service/http.rs:202-204 the switch from authority-form to origin-form can never
  be reached, because authority-form has no scheme.

Main results: `SessionAccounting`, `VerdictExact` with `AnswerSound` and `AnswerExact`,
`LatencyBound` with `LatencyAttained`, `InFlightOverTime`, `OverallTimeout`,
`RunConserves`, `RunVerdict`, `CancelledStaysCancelled`, `ShutdownReaches`,
`VerdictMeetsIntent`, `VerdictSliced`, `TargetReconstructed` with `TargetSent` and
`HostSent`, `Http2Filter`, `PredictionExact`.

## Model

| member | source | states |
|---|---|---|
| EyeballMachine.SomeAnswer | src/happy_eyeballs.rs:145 | whatever is in flight, an await has an allowed answer, so the assumed contract can always be met |
| EyeballMachine.BurstExact | src/happy_eyeballs.rs:174-181 | before the first await the whole queue is launched when no initial concurrency is given, and otherwise its first so many attempts, all at once; the next one is in hand |
| EyeballMachine.RunLength | src/happy_eyeballs.rs:174-202 | every await of every run brings it nearer to its end, whatever the environment answers |
| EyeballMachine.AwaitsBounded | src/happy_eyeballs.rs:174-202 | every run has at most two awaits per queued attempt, one per attempt in flight, and one more |
| EyeballMachine.RunCompletes | src/happy_eyeballs.rs:174-202 | every partial run can be completed within that bound: the scheduler is never stuck between awaits |
| EyeballMachine.ProcessAllCompletes | src/happy_eyeballs.rs:174-202 | from any point, `process_all` can be brought to its end |
| EyeballSets.EyeballSet.constructor | src/happy_eyeballs.rs:92-107 | a new set holds nothing, has no error and no start time, and has the given delay, timeout and burst |
| EyeballSets.EyeballSet.IsEmpty | src/happy_eyeballs.rs:111-113 | true just when nothing is queued or in flight |
| EyeballSets.EyeballSet.Len | src/happy_eyeballs.rs:117-119 | the number of attempts queued or in flight |
| EyeballSets.EyeballSet.Push | src/happy_eyeballs.rs:123-128 | appends one attempt to the queue and changes nothing else |
| EyeballSets.EyeballSet.Extend | src/happy_eyeballs.rs:239-241 | appends the attempts in order and changes nothing else |
| EyeballSets.EyeballSet.JoinNext | src/happy_eyeballs.rs:142-161 | one await: the task yielded leaves the set, the first failure fills an empty error slot, the first await sets the start time |
| EyeballSets.EyeballSet.JoinNextWithTimeout | src/happy_eyeballs.rs:163-172 | as `JoinNext`, ended by the delay; a task due at the very deadline wins |
| EyeballSets.EyeballSet.LaunchBurst | src/happy_eyeballs.rs:175-179 | moves the whole queue into flight without an initial concurrency, and its first so many attempts with one, in order |
| EyeballSets.EyeballSet.JoinHolding | src/happy_eyeballs.rs:182-185 | an await with an attempt in hand: a success or the cutoff drops it, anything else keeps it to be launched |
| EyeballSets.EyeballSet.Stagger | src/happy_eyeballs.rs:181-186 | the staggered loop makes a legal run of the machine and terminates |
| EyeballSets.EyeballSet.Drain | src/happy_eyeballs.rs:188-201 | the draining loop completes that run, terminates, and cannot reach its panic |
| EyeballSets.EyeballSet.ProcessAll | src/happy_eyeballs.rs:174-202 | makes a complete legal run from the set's state, leaves the set in that run's final state and returns its verdict |
| EyeballSets.EyeballSet.Finish | src/happy_eyeballs.rs:205-218 | the same with the overall timeout, if any, as cutoff: a resolved run gives its result, an unresolved one `Timeout` or, without a timeout, nothing ever |
| EyeballLedger.RunAccounting | src/happy_eyeballs.rs:174-202 | launches take a prefix of the queue in push order; at most one attempt is lost, exactly when the run stops with one in hand, and none when it ends in an error; launched and earlier in-flight attempts are those completed or still in flight |
| EyeballLedger.SessionAccounting | src/happy_eyeballs.rs:117-128 | over any sequence of pushes, extensions and finishes: pushed = completed + `len` + discarded, at most one discarded per finish, launches in push order |
| EyeballErrors.FirstErrorLaw | src/happy_eyeballs.rs:147-159 | a run ending in an error reports the first failure in completion order over both loops, or what the slot already held, or `NoProgress`; the slot is emptied |
| EyeballErrors.SlotAfterRun | src/happy_eyeballs.rs:142-161 | a run that ends in no error leaves the slot filled as it was, or with the first failure |
| EyeballErrors.SlotWrittenOnce | src/happy_eyeballs.rs:147-151 | a filled error slot does not change while the run goes on |
| EyeballVerdict.InFlightBound | src/happy_eyeballs.rs:174-186 | at every point of every run at most those in flight at first plus the burst, at least one, plus one per delay expiry are in flight; expiries are the dropped awaits; the staggered loop finds the set empty only first and with burst 0 |
| EyeballVerdict.InFlightOverTime | src/happy_eyeballs.rs:163-186 | so with a delay the crowd exceeds that by at most one attempt per whole delay that has passed |
| EyeballVerdict.VerdictExact | src/happy_eyeballs.rs:174-202 | without an overall timeout, for a set run before or not: success iff some successful attempt is in flight or gets its turn (a delay, or fewer hanging attempts before it than places), carrying the first success yielded; error iff all fail, and which; otherwise it never returns |
| EyeballVerdict.UnlimitedBurst | src/happy_eyeballs.rs:175-179 | without an initial concurrency: success iff some attempt succeeds, whatever hangs and whatever the delay |
| EyeballVerdict.OutcomeIndependentOfSchedule | src/happy_eyeballs.rs:174-202 | if every attempt resolves, success or failure depends on the attempts alone, for every delay, burst and order |
| EyeballVerdict.UnpacedHangBlocks | src/happy_eyeballs.rs:181-186 | a concrete set without a delay that never returns although an attempt would succeed at once |
| EyeballTiming.LatencyBound | src/happy_eyeballs.rs:174-202 | if attempt k succeeds, a success is returned no later than one delay per attempt from the first batch to k, plus k's own duration, whatever the others do |
| EyeballTiming.LatencyAttained | src/happy_eyeballs.rs:174-202 | the bound is exact when every other attempt hangs, with a delay or without, and it is k's value that comes back |
| EyeballTiming.LatencyInTicks | src/happy_eyeballs.rs:163-202 | both in numbers: max(0, k - c + 1) delays plus k's own duration, for a first batch of c |
| EyeballTiming.OverallTimeout | src/happy_eyeballs.rs:205-218 | `finish` is back within the timeout; it reports `Timeout` only at that moment with nothing to yield; a result of the same poll wins; the duration runs from the set's first await |
| EyeballTiming.TimeoutOnlyWhenLate | src/happy_eyeballs.rs:205-218 | a fresh set times out only if no successful attempt that gets its turn could deliver within the timeout |
| EyeballFinish.Untimed | src/happy_eyeballs.rs:205-213 | without an overall timeout the run has no cutoff, and `finish` returns a result iff `process_all` comes to it, and nothing iff it never does |
| EyeballFinish.AnswerSound | src/happy_eyeballs.rs:205-218 | what each answer of `finish` tells, with a timeout or not, on a set run before or not: `Ok` the first success yielded; `Error` that all failed, and the first failure; `NoProgress` that there was nothing; `Timeout` only with a timeout |
| EyeballFinish.AnswerExact | src/happy_eyeballs.rs:205-213 | without an overall timeout, when `finish` gives a success, an error, `NoProgress`, or no answer: each iff a condition on the attempts and the parameters |
| EyeballFinish.SessionKeepsSlotSound | src/happy_eyeballs.rs:147-151 | over any sequence of operations the slot only ever holds the error of an attempt |
| ByteFeed.SourcePolls | src/rewind.rs:54 | the source is any reader: pending, any error, or any number of bytes that fits and is there |
| ByteFeed.PollConserves | src/rewind.rs:37-56 | a poll takes exactly the bytes it delivers off the front |
| ByteFeed.NoFalseEof | src/rewind.rs:42-55 | a read with room that adds nothing means that nothing is left, through any stack of prefixes |
| ByteFeed.DrainConserves | src/rewind.rs:37-56 | for every sequence of buffer sizes, what was delivered is a prefix of the content and the rest is still to come |
| ByteFeed.DrainToEof | src/rewind.rs:37-56 | after an empty read with room, everything has been delivered |
| ByteFeed.PrefixDelivered | src/rewind.rs:43-51 | a prefix that fits is delivered whole by one read, of another as much as fits |
| ByteFeed.PrefixFills | src/rewind.rs:42-51 | while a prefix lasts every buffer is filled, and the first read that the rest fits in delivers the rest |
| ByteFeed.PrefixDrains | src/rewind.rs:43-51 | a prefix drains within as many reads with room as it has bytes |
| ByteFeed.ZeroRoomLosesNothing | src/rewind.rs:43-51 | a read without room leaves the prefix and the inner reader as they were |
| ByteFeed.InnerUntouched | src/rewind.rs:42-55 | until the prefix is fully delivered the inner reader is not polled |
| ByteFeed.ThenInner | src/rewind.rs:42-55 | once the prefix is gone every sequence of polls turns out as on the inner reader, errors included |
| Bridge.BridgeToHyper | src/bridge/io.rs:49-68 | filled bytes stay, exactly the inner read's bytes are put behind them, filled ≤ initialised ≤ capacity, and a poll that is not ready moves no cursor |
| Bridge.BridgeToTokio | src/bridge/io.rs:108-134 | the same in the other direction; `set_filled` never exceeds what is initialised |
| Bridge.BothBridgesTransparent | src/bridge/io.rs:45-135 | a reader wrapped in both bridges has the value, and the objects, of the reader itself, so its reads are indistinguishable |
| Bridge.RewindRead | src/rewind.rs:37-56 | the prefix is delivered first, as much as fits, and the inner reader polled only when it is gone |
| Bridge.PollHyper | src/bridge/io.rs:45-69 | any stack of bridges and rewinds reads as its abstract feed does |
| Bridge.PollTokio | src/bridge/io.rs:104-135 | the same for the tokio side |
| Detection.SniffConserves | src/server/conn/auto.rs:288-300 | the bytes in the detection buffer and those still to come are those there were |
| Detection.NeverPartlyFilled | src/server/conn/auto.rs:282-297 | as written, a poll that decides nothing has taken nothing, and one read decides |
| Detection.VerdictAsWritten | src/server/conn/auto.rs:288-301 | HTTP/2 iff the first read that delivers anything delivers the 24 bytes of the preface |
| Detection.VerdictMeetsIntent | src/server/builder.rs:70-72 | the verdict says whether the stream starts with the preface iff the first read is not a short one of a stream that does |
| Detection.SplitPreface | src/server/conn/auto.rs:293 | a preface in two reads is taken for HTTP/1, and would not be with the sliced comparison |
| Detection.VerdictSliced | src/server/conn/auto.rs:288-301 | with the sliced comparison: HTTP/2 iff the stream starts with the preface, for every chunking |
| Detection.SlicedIndependentOfChunking | src/server/conn/auto.rs:288-301 | two chunkings of one stream then never disagree |
| ServerConnection.ReadVersion.constructor | src/server/conn/auto.rs:258-266 | starts with the reader, an empty buffer and not cancelled |
| ServerConnection.ReadVersion.Cancel | src/server/conn/auto.rs:254-256 | sets the flag and nothing else |
| ServerConnection.ReadVersion.Poll | src/server/conn/auto.rs:275-302 | cancelled: interrupted, nothing read; otherwise the outcome of `Sniff`, the reader kept until it resolves and then rewound over the bytes read |
| ServerConnection.Turn | src/server/conn/auto.rs:289-296 | one read into the buffer and the comparison with the whole rest of the preface |
| ServerConnection.UpgradableConnection.constructor | src/server/conn/auto.rs:76-96 | starts detecting, with reader and service |
| ServerConnection.UpgradableConnection.GracefulShutdown | src/server/conn/auto.rs:145-154 | cancels detection, or tells the engine, HTTP/1 or HTTP/2, to close; nothing else changes |
| ServerConnection.UpgradableConnection.Upgrade | src/server/conn/auto.rs:174-194 | the detecting arm: reader and service are there to be unwrapped and go to one engine together |
| ServerConnection.UpgradableConnection.Poll | src/server/conn/auto.rs:169-203 | one poll is one step of the connection machine, in at most two turns of the loop; once served, the answer is the engine's |
| ServerConnection.UpgradableConnection.EngineRead | src/server/conn/auto.rs:182-192 | what the engine reads is what the machine hands it |
| ConnectionMachine.ServedPollAnswers | src/server/conn/auto.rs:195-200 | a poll of a served connection, or the one that ends detection, is pending, done or failed with a code iff the engine is |
| ConnectionMachine.DetectingPollAnswers | src/server/conn/auto.rs:175-194 | while detecting, a poll is pending iff the source was and an I/O error iff the source failed with it, and then nothing was taken; any other read ends detection |
| ConnectionMachine.RunConserves | src/server/conn/auto.rs:275-302 | in every run of polls, shutdowns and engine reads, the engine has been given a prefix of the stream and the rest is still to come |
| ConnectionMachine.RunReachesEof | src/rewind.rs:37-56 | when the engine reads the end of file it has been given the whole stream |
| ConnectionMachine.RunFollows | src/server/conn/auto.rs:169-203 | the state moves only from reading to one protocol and stays there, with the same service |
| ConnectionMachine.ShutdownReaches | src/server/conn/auto.rs:145-154 | at any point of any run, whoever has the connection knows of a shutdown iff there was one |
| ConnectionMachine.ServedShutdown | src/server/conn/auto.rs:148-149 | a shutdown of a served connection sets it closing and changes nothing else, and it closes for the rest of every run |
| ConnectionMachine.CancelledStaysCancelled | src/server/conn/auto.rs:145-154 | after a shutdown during detection nothing is read, started or handed over ever again and every poll is interrupted |
| ConnectionMachine.RunVerdict | src/server/conn/auto.rs:169-203 | in every run the version served is HTTP/2 iff the first read was the whole preface, and until then nothing has been taken |
| HostField.NumberReadsDecimal | src/service/host.rs:20-21 | a port is read as the number it is written as |
| HostField.LeadingZeros | src/service/host.rs:20-21 | whatever leading zeros it has |
| HostField.HostRoundTrip | src/service/host.rs:40-48 | parsing a printed host and port gives both back, bracketed IPv6 included |
| HostField.HostParsed | src/service/host.rs:40-48 | printing what was parsed gives the text back |
| HostField.TargetRoundTrip | src/service/http.rs:243-256 | the same for path and query |
| ClientRequest.Request.SetHostHeader | src/service/host.rs:29-50 | adds `Host` only when missing, from host and non-default port |
| ClientRequest.Request.SetHostByRequestVersion | src/service/host.rs:84-90 | only for requests below HTTP/2 |
| ClientRequest.Request.SetHostByConnection | src/service/host.rs:111-117 | only on an HTTP/1 connection |
| ClientRequest.Request.CheckHttp2 | src/service/http.rs:354-382 | on HTTP/2 rejects CONNECT, otherwise fixes the version and removes the connection headers and `Host` |
| ClientRequest.Request.CheckHttp1 | src/service/http.rs:188-212 | on HTTP/1 leaves authority-form for CONNECT and origin-form otherwise |
| ClientRequest.Request.ToOriginForm | src/service/http.rs:243-256 | path and query only, or `/` |
| ClientRequest.Request.Dispatch | src/client/builder.rs:521-525 | the layers in their order turn the request into its normal form for the connection, or report the error |
| ClientRequest.HttpConnection.SendRequest | src/client/conn/protocol/auto.rs:99-110 | the request carries the connection's version |
| ClientRequest.TargetSent | src/service/http.rs:207-208 | on HTTP/1 every request but CONNECT, with a preset `Host` or not, goes out with neither scheme nor authority, and its target parses to path and query |
| ClientRequest.HostSent | src/service/host.rs:29-50 | the `Host` added on HTTP/1, CONNECT included: one value, from which the host comes back; a port is in it iff there is one that is not 443 for https and wss or 80 otherwise |
| ClientRequest.ConnectSent | src/service/http.rs:198-204 | CONNECT goes out in authority-form, and host and effective port come back from the `Host` added |
| ClientRequest.TargetReconstructed | src/service/http.rs:205-209 | on HTTP/1 the target URI can be reconstructed from what is sent iff no port was left out that is not the scheme's default |
| ClientRequest.HttpTargetReconstructed | src/service/host.rs:19-25 | so always for http, https, ws and wss |
| ClientRequest.OtherSchemeLosesPort | src/service/host.rs:19-25 | a concrete URI of another scheme whose port is lost |
| ClientRequest.Http1KeepsHeaders | src/service/host.rs:37-49 | a preset `Host` and every other header survive; CONNECT leaves in authority-form |
| ClientRequest.Http2Filter | src/service/http.rs:324-382 | exactly the five connection headers and `Host` go, with all values; the rest and the URI stay; a second pass changes nothing |
| Multiplexing.AlpnDecides | src/client/conn/protocol/auto.rs:205-207 | the default builder comes to HTTP/2, and it is predicted, iff TLS negotiated "h2"; otherwise it is HTTP/1 |
| Multiplexing.HandshakeFails | src/client/conn/protocol/auto.rs:285-321 | a handshake fails iff hyper's does or HTTP/3 is asked for, with the error of the protocol tried |
| Multiplexing.PredictionExact | src/client/conn/protocol/auto.rs:205-207 | for any builder, `multiplex_ready` predicts version, sharing, reuse and sent version of a successful handshake iff HTTP/2 is neither forced nor missed |
| Multiplexing.DefaultPredictionSound | src/client/conn/protocol/auto.rs:269-322 | the default builder with TLS always predicts right |

## Left out

- hyper's HTTP/1 and HTTP/2 engines, tokio's timers and sockets, TLS, and the connection pool: used only through the assumptions above.
- Timer granularity, executor delays and tokio's cooperative budget: the model clock is exact.
- Wakers, pinning and uninitialised memory: cursors and contents are kept, and that bytes below the initialised cursor were written is not tracked.
- Writing, flushing and shutting down a connection: these only delegate.
- `IntoFuture` for `EyeballSet`: it only calls `finish`.
- Header order across different names: the header map is a multimap with ordered values per name, as removal from `http::HeaderMap` may reorder names.
- ClientRequest.Request.CheckHttp1: does not model what happens without a scheme or authority, where the original's debug assertions and `unreachable!` abort; the precondition excludes it.
- The URI grammar and header value validity: a URI is its parts, and only `host[:port]` and `path[?query]` are printed and parsed.
- Redirects, timeouts, user agent, body conversion and the other layers of the client: each is settled by one branch.
- SNI validation, connection info and the address types: they do not meet the protocols modelled here.
