/**
  A server connection from its first byte: it reads until the protocol is known, then an
  HTTP/1 or HTTP/2 engine serves it over the replayed bytes. Runs are arbitrary sequences
  of polls, graceful shutdowns and reads by the engine.
 */
module ConnectionMachine {
  import opened Wrappers
  import opened ByteFeed
  import opened Detection

  /** What polling hyper's connection comes to; it is not part of this model. */
  datatype EnginePoll = EnginePending | EngineDone | EngineFailed(code: nat)

  datatype IoError = Interrupted | Os(code: nat)
  datatype ConnectionError = Protocol(io: IoError) | Engine(code: nat)
  datatype ConnectionPoll = NotReady | Finished | Errored(error: ConnectionError)

  /** `service` names the service the connection was made with. */
  datatype Conn =
    | Reading(feed: Feed, got: seq<byte>, cancelled: bool, service: nat)
    | Serving(version: Protocol, feed: Feed, service: nat, closing: bool)

  function EngineResult(e: EnginePoll): ConnectionPoll {
    match e
    case EnginePending => NotReady
    case EngineDone => Finished
    case EngineFailed(code) => Errored(Engine(code))
  }

  ghost predicate Sound(c: Conn) {
    c.Reading? ==> |c.got| <= PREFACE_LENGTH
  }

  function PollConn(c: Conn, e: EnginePoll): (Conn, ConnectionPoll)
    requires Sound(c)
  {
    match c
    case Serving(_, _, _, _) => (c, EngineResult(e))
    case Reading(feed, got, cancelled, service) =>
      if cancelled then (c, Errored(Protocol(Interrupted)))
      else
        var (feed', s) := Sniff(Remainder, feed, got);
        match s
        case Unsure(got') => (Reading(feed', got', cancelled, service), NotReady)
        case Failure(code, got') => (Reading(feed', got', cancelled, service), Errored(Protocol(Os(code))))
        case Decided(version, got') => (Serving(version, Rewound(got', feed'), service, false), EngineResult(e))
  }

  function ShutDown(c: Conn): Conn {
    match c
    case Reading(_, _, _, _) => c.(cancelled := true)
    case Serving(_, _, _, _) => c.(closing := true)
  }

  /** A poll that finds or leaves the connection served answers as the engine did. */
  lemma ServedPollAnswers(c: Conn, e: EnginePoll)
    requires Sound(c) && PollConn(c, e).0.Serving?
    ensures c.Serving? ==> PollConn(c, e).0 == c
    ensures PollConn(c, e).1 == NotReady <==> e == EnginePending
    ensures PollConn(c, e).1 == Finished <==> e == EngineDone
    ensures forall code :: PollConn(c, e).1 == Errored(Engine(code)) <==> e == EngineFailed(code)
    ensures forall io :: PollConn(c, e).1 != Errored(Protocol(io))
  {
  }

  /**
    A poll during detection answers as its one read did: pending, or the error of the
    source, with not a byte taken; any other read ends detection. A full buffer ends it too.
   */
  lemma DetectingPollAnswers(c: Conn, e: EnginePoll)
    requires Sound(c) && c.Reading? && !c.cancelled
    ensures var (c', r) := PollConn(c, e);
            if |c.got| == PREFACE_LENGTH then c'.Serving?
            else
              var (feed', p) := Poll(c.feed, PREFACE_LENGTH - |c.got|);
              && (c'.Serving? <==> p.Got?)
              && (c'.Reading? ==> c' == Reading(feed', c.got, false, c.service))
              && (c'.Reading? && r == NotReady <==> p == Pending)
              && (forall code :: r == Errored(Protocol(Os(code))) <==> p == Failed(code))
              && r != Errored(Protocol(Interrupted))
              && (c'.Reading? ==> r == NotReady || (r.Errored? && r.error.Protocol?))
  {
    if |c.got| < PREFACE_LENGTH {
      SniffTurn(Remainder, c.feed, c.got);
    }
  }

  datatype Event = Drive(engine: EnginePoll) | Shutdown | EngineRead(room: nat)

  function Step(c: Conn, ev: Event): Conn
    requires Sound(c)
  {
    match ev
    case Drive(e) => PollConn(c, e).0
    case Shutdown => ShutDown(c)
    case EngineRead(room) => if c.Serving? then c.(feed := Poll(c.feed, room).0) else c
  }

  /** The bytes an event hands to the engine. */
  function Handed(c: Conn, ev: Event): seq<byte> {
    if c.Serving? && ev.EngineRead? then BytesOf(Poll(c.feed, ev.room).1) else []
  }

  lemma StepSound(c: Conn, ev: Event)
    requires Sound(c)
    ensures Sound(Step(c, ev))
  {
    if c.Reading? {
      SniffConserves(Remainder, c.feed, c.got);
    }
  }

  ghost function Play(c: Conn, evs: seq<Event>): (Conn, seq<byte>)
    requires Sound(c)
    decreases |evs|
  {
    if evs == [] then (c, [])
    else
      StepSound(c, evs[0]);
      var (c', out) := Play(Step(c, evs[0]), evs[1..]);
      (c', Handed(c, evs[0]) + out)
  }

  function Fresh(stream: seq<byte>, script: seq<Signal>, service: nat): Conn {
    Reading(Source(stream, script), [], false, service)
  }

  /** The bytes of the connection that the engine has not been given yet. */
  function Undelivered(c: Conn): seq<byte> {
    match c
    case Reading(feed, got, _, _) => got + Content(feed)
    case Serving(_, feed, _, _) => Content(feed)
  }

  lemma StepConserves(c: Conn, ev: Event)
    requires Sound(c)
    ensures Undelivered(c) == Handed(c, ev) + Undelivered(Step(c, ev))
  {
    match c
    case Reading(feed, got, _, _) =>
      SniffConserves(Remainder, feed, got);
    case Serving(_, feed, _, _) =>
      if ev.EngineRead? {
        PollConserves(feed, ev.room);
      }
  }

  /**
    End-to-end byte conservation. In every run, what the engine has been given is a prefix
    of the original stream and the rest is still to come, whichever version was chosen and
    however detection and reading were split up.
   */
  lemma {:induction false} RunConserves(c: Conn, evs: seq<Event>)
    requires Sound(c)
    ensures Sound(Play(c, evs).0)
    ensures Undelivered(c) == Play(c, evs).1 + Undelivered(Play(c, evs).0)
    decreases |evs|
  {
    if evs != [] {
      StepSound(c, evs[0]);
      StepConserves(c, evs[0]);
      RunConserves(Step(c, evs[0]), evs[1..]);
    }
  }

  /** When the engine reads with room and gets nothing, it has been given the whole stream. */
  lemma {:induction false} RunReachesEof(stream: seq<byte>, script: seq<Signal>, service: nat, evs: seq<Event>,
                                         c: Conn, out: seq<byte>, room: nat)
    requires Play(Fresh(stream, script, service), evs) == (c, out) && c.Serving?
    requires room > 0 && Poll(c.feed, room).1 == Got([])
    ensures out == stream
  {
    RunConserves(Fresh(stream, script, service), evs);
    NoFalseEof(c.feed, room);
    assert Undelivered(Fresh(stream, script, service)) == stream && Undelivered(c) == [];
  }

  /** The state of a connection that serves, or was cancelled while reading, is final. */
  ghost predicate Follows(c: Conn, c': Conn) {
    && c'.service == c.service
    && (c.Serving? ==> c'.Serving? && c'.version == c.version && (c.closing ==> c'.closing))
    && (c.Reading? && c.cancelled ==> c' == c)
  }

  lemma StepFollows(c: Conn, ev: Event)
    requires Sound(c)
    ensures Follows(c, Step(c, ev))
  {
  }

  /**
    Over every run the state only moves from reading to one of the two protocols, and
    stays there with the service the connection was made with.
   */
  lemma {:induction false} RunFollows(c: Conn, evs: seq<Event>)
    requires Sound(c)
    ensures Follows(c, Play(c, evs).0)
    decreases |evs|
  {
    if evs != [] {
      StepSound(c, evs[0]);
      StepFollows(c, evs[0]);
      RunFollows(Step(c, evs[0]), evs[1..]);
    }
  }

  /** The connection knows that it is to shut down. */
  predicate Told(c: Conn) {
    match c
    case Reading(_, _, cancelled, _) => cancelled
    case Serving(_, _, _, closing) => closing
  }

  /**
    Graceful shutdown reaches whoever has the connection, detection or engine, and lasts:
    at any later point of any run the connection knows of it, and it never does otherwise.
   */
  lemma {:induction false} ShutdownReaches(c: Conn, evs: seq<Event>)
    requires Sound(c)
    ensures Told(Play(c, evs).0) <==> Told(c) || Shutdown in evs
    decreases |evs|
  {
    if evs != [] {
      StepSound(c, evs[0]);
      ShutdownReaches(Step(c, evs[0]), evs[1..]);
      assert Shutdown in evs <==> evs[0] == Shutdown || Shutdown in evs[1..];
    }
  }

  /** A connection that is served goes on closing from a shutdown on; nothing else about it changes. */
  lemma ServedShutdown(c: Conn, evs: seq<Event>)
    requires Sound(c) && c.Serving?
    ensures ShutDown(c) == Serving(c.version, c.feed, c.service, true)
    ensures var end := Play(ShutDown(c), evs).0;
            end.Serving? && end.closing && end.version == c.version && end.service == c.service
  {
    ShutdownReaches(ShutDown(c), evs);
    RunFollows(ShutDown(c), evs);
  }

  /**
    Graceful shutdown during detection: whatever is done with the connection afterwards,
    not one more byte is read, no engine is started, nothing is handed over, and the next
    poll reports the interruption.
   */
  lemma CancelledStaysCancelled(c: Conn, evs: seq<Event>, e: EnginePoll)
    requires Sound(c) && c.Reading?
    ensures Play(ShutDown(c), evs) == (ShutDown(c), [])
    ensures PollConn(Play(ShutDown(c), evs).0, e) == (ShutDown(c), Errored(Protocol(Interrupted)))
  {
    RunFollows(ShutDown(c), evs);
    RunConserves(ShutDown(c), evs);
    assert |Undelivered(ShutDown(c))| == |Play(ShutDown(c), evs).1| + |Undelivered(ShutDown(c))|;
  }

  /** While undecided, detection has taken nothing; once decided, the verdict is that of the first read. */
  ghost predicate Detected(stream: seq<byte>, script: seq<Signal>, c: Conn, out: seq<byte>) {
    match c
    case Reading(feed, got, _, _) =>
      got == [] && out == [] && feed.Source? && feed.rest == stream && FirstRead(stream, feed.script) == FirstRead(stream, script)
    case Serving(version, feed, _, _) =>
      && out + Content(feed) == stream
      && FirstRead(stream, script).Some?
      && (version == Http2 <==> FirstRead(stream, script).value == PREFACE)
  }

  lemma StepDetects(stream: seq<byte>, script: seq<Signal>, c: Conn, ev: Event, before: seq<byte>)
    requires Sound(c) && Detected(stream, script, c, before)
    ensures Detected(stream, script, Step(c, ev), before + Handed(c, ev))
  {
    match c
    case Reading(feed, got, cancelled, _) =>
      assert before + Handed(c, ev) == [];
      if ev.Drive? && !cancelled {
        NeverPartlyFilled(feed);
        SniffConserves(Remainder, feed, []);
        assert [] + Content(feed) == stream;
      }
    case Serving(_, feed, _, _) =>
      StepConserves(c, ev);
      Regroup(before, Handed(c, ev), Undelivered(Step(c, ev)));
  }

  lemma {:induction false} RunDetects(stream: seq<byte>, script: seq<Signal>, c: Conn, evs: seq<Event>, before: seq<byte>)
    requires Sound(c) && Detected(stream, script, c, before)
    ensures Detected(stream, script, Play(c, evs).0, before + Play(c, evs).1)
    decreases |evs|
  {
    if evs == [] {
      assert before + [] == before;
    } else {
      var c' := Step(c, evs[0]);
      StepSound(c, evs[0]);
      StepDetects(stream, script, c, evs[0], before);
      RunDetects(stream, script, c', evs[1..], before + Handed(c, evs[0]));
      Regroup(before, Handed(c, evs[0]), Play(c', evs[1..]).1);
    }
  }

  /**
    In every run, a connection that is served is served over HTTP/2 just when its first
    read was the whole preface; so HTTP/2 is only ever spoken on a stream that starts with it.
   */
  lemma RunVerdict(stream: seq<byte>, script: seq<Signal>, service: nat, evs: seq<Event>)
    ensures var c := Play(Fresh(stream, script, service), evs).0;
            && c.service == service
            && (c.Reading? ==> c.got == [] && Play(Fresh(stream, script, service), evs).1 == [])
            && (c.Serving? ==>
                  && FirstRead(stream, script).Some?
                  && (c.version == Http2 <==> FirstRead(stream, script).value == PREFACE)
                  && (c.version == Http2 ==> PREFACE <= stream))
  {
    var c := Fresh(stream, script, service);
    RunDetects(stream, script, c, evs, []);
    RunFollows(c, evs);
    assert [] + Play(c, evs).1 == Play(c, evs).1;
    if FirstRead(stream, script).Some? {
      FirstReadIsPrefix(stream, script);
    }
  }
}
