/** `ReadVersion` and `UpgradableConnection`, each method proved against `Detection` and `ConnectionMachine`. */
module ServerConnection {
  import opened Wrappers
  import opened ByteFeed
  import opened Bridge
  import opened Detection
  import opened ConnectionMachine

  datatype Progress = StillReading | ReadFailed(error: IoError) | Resolved(version: Protocol, io: Rewind)

  /** One read of the detection loop and its comparison; `more` tells whether the loop goes on. */
  method Turn(h: HyperReader, b: HyperBuf, ghost next: (Feed, Sniffed)) returns (p: ReadPoll, more: bool)
    requires HyperWf(h) && b.Valid() && b !in HyperRepr(h) && b.raw !in HyperRepr(h)
    requires b.filled < PREFACE_LENGTH && b.filled + b.Room() == PREFACE_LENGTH
    requires next == Sniff(Remainder, HyperView(h), b.Filled())
    modifies HyperRepr(h), b, b.raw
    ensures b.Valid() && b.filled <= PREFACE_LENGTH
    ensures match p
            case Waiting => next == (HyperView(h), Unsure(b.Filled())) && b.filled == old(b.filled)
            case Broken(code) => next == (HyperView(h), Failure(code, b.Filled())) && b.filled == old(b.filled)
            case Ready =>
              if more then next == Sniff(Remainder, HyperView(h), b.Filled()) && b.filled > old(b.filled)
              else next == (HyperView(h), Decided(Http1, b.Filled()))
  {
    ghost var got, step := b.Filled(), ByteFeed.Poll(HyperView(h), b.Room());
    SniffTurn(Remainder, HyperView(h), got);
    var len := b.filled;
    p := ReadInto(h, b, step);
    more := b.filled != len && b.Filled()[len..] == PREFACE[len..];
  }

  class ReadVersion {
    var io: Option<HyperReader>
    const buf: array<byte>
    var filled: nat
    var version: Protocol
    var cancelled: bool

    ghost function Repr(): set<object>
      reads this
    {
      {this, buf} + (if io.Some? then HyperRepr(io.value) else {})
    }

    /** Until it resolves, the reader is there and the version is still the one assumed at first. */
    ghost predicate Valid()
      reads this
    {
      && buf.Length == PREFACE_LENGTH && filled <= PREFACE_LENGTH
      && (io.Some? ==>
            HyperWf(io.value) && this !in HyperRepr(io.value) && buf !in HyperRepr(io.value) && version == Http2)
    }

    ghost function Got(): seq<byte>
      requires Valid()
      reads this, buf
    {
      buf[..filled]
    }

    ghost function View(): Feed
      requires Valid() && io.Some?
      reads this, Repr()
    {
      HyperView(io.value)
    }

    constructor (io: HyperReader)
      requires HyperWf(io)
      ensures Valid() && this.io == Some(io) && !cancelled && Got() == []
      ensures fresh(this) && fresh(buf)
    {
      assert allocated(HyperRepr(io));
      this.io := Some(io);
      buf := new byte[PREFACE_LENGTH];
      filled, version, cancelled := 0, Http2, false;
    }

    method Cancel()
      requires Valid()
      modifies this`cancelled
      ensures cancelled
    {
      cancelled := true;
    }

    /** The buffer of a poll, over `buf`, agrees with the fields. */
    ghost predicate Working(h: HyperReader, b: HyperBuf)
      reads this, b
    {
      && Valid() && io == Some(h) && !cancelled
      && b.Valid() && b.raw == buf && b.base == 0 && b.filled == filled
      && b !in Repr() && buf != b as object
    }

    /** One turn of the detection loop; `more` tells whether it goes on. */
    method ReadMore(h: HyperReader, b: HyperBuf, ghost next: (Feed, Sniffed)) returns (p: ReadPoll, more: bool)
      requires Working(h, b) && b.filled < PREFACE_LENGTH
      requires next == Sniff(Remainder, HyperView(h), b.Filled())
      modifies HyperRepr(h), b, buf, this`filled, this`version
      ensures p == Ready && !more ==> version == Http1
      ensures p != Ready || more ==> Working(h, b)
      ensures b.Valid() && b.filled == filled <= PREFACE_LENGTH
      ensures match p
              case Waiting => next == (HyperView(h), Unsure(b.Filled()))
              case Broken(code) => next == (HyperView(h), Failure(code, b.Filled()))
              case Ready =>
                if more then next == Sniff(Remainder, HyperView(h), b.Filled()) && b.filled > old(b.filled)
                else next == (HyperView(h), Decided(Http1, b.Filled()))
    {
      p, more := Turn(h, b, next);
      assert allocated(HyperRepr(h));
      if p == Ready {
        filled := b.filled;
        if !more {
          version := Http1;
        }
      }
    }

    /** The detection loop over the buffer of a poll. */
    method Detect(h: HyperReader, b: HyperBuf, ghost next: (Feed, Sniffed)) returns (r: Progress)
      requires Working(h, b) && next == Sniff(Remainder, HyperView(h), b.Filled())
      modifies HyperRepr(h), b, buf, this`io, this`filled, this`version
      ensures Valid()
      ensures match next.1
              case Unsure(got) => r == StillReading && io == Some(h) && HyperView(h) == next.0 && Got() == got
              case Failure(code, got) => r == ReadFailed(Os(code)) && io == Some(h) && HyperView(h) == next.0 && Got() == got
              case Decided(v, got) =>
                && r.Resolved? && r.version == v && fresh(r.io) && io.None?
                && HyperWf(OfRewind(r.io)) && HyperRepr(OfRewind(r.io)) == {r.io} + HyperRepr(h)
                && HyperView(OfRewind(r.io)) == Rewound(got, next.0)
    {
      var more := true;
      while b.filled < PREFACE_LENGTH && more
        invariant b.Valid() && b.raw == buf && b.base == 0 && b.filled == filled
        invariant io == Some(h) && filled <= PREFACE_LENGTH
        invariant more ==> Working(h, b) && next == Sniff(Remainder, HyperView(h), b.Filled())
        invariant !more ==> version == Http1 && next == (HyperView(h), Decided(Http1, b.Filled()))
        decreases PREFACE_LENGTH - b.filled, more
      {
        var p;
        p, more := ReadMore(h, b, next);
        if p == Waiting {
          return StillReading;
        }
        if p.Broken? {
          return ReadFailed(Os(p.code));
        }
      }
      r := Resolve(h, b);
    }

    /** `next` is what `Detection.Sniff` says of a poll that is not cancelled. */
    method Poll(ghost next: (Feed, Sniffed)) returns (r: Progress)
      requires Valid() && io.Some?
      requires next == Sniff(Remainder, View(), Got())
      modifies Repr()
      ensures Valid() && cancelled == old(cancelled)
      ensures old(cancelled) ==>
                r == ReadFailed(Interrupted) && io == old(io) && View() == old(View()) && Got() == old(Got())
      ensures !old(cancelled) ==>
                match next.1
                case Unsure(got) => r == StillReading && io == old(io) && View() == next.0 && Got() == got
                case Failure(code, got) => r == ReadFailed(Os(code)) && io == old(io) && View() == next.0 && Got() == got
                case Decided(v, got) =>
                  && r.Resolved? && r.version == v && fresh(r.io) && io.None?
                  && HyperWf(OfRewind(r.io)) && HyperRepr(OfRewind(r.io)) == {r.io} + HyperRepr(old(io.value))
                  && HyperView(OfRewind(r.io)) == Rewound(got, next.0)
    {
      if cancelled {
        return ReadFailed(Interrupted);
      }
      var h := io.value;
      assert allocated(HyperRepr(h));
      var b := new HyperBuf.Uninit(buf, 0);
      b.Advance(filled);
      r := Detect(h, b, next);
    }

    /** Takes the reader and puts the bytes read back in front of it. */
    method Resolve(h: HyperReader, b: HyperBuf) returns (r: Progress)
      requires b.Valid() && io == Some(h) && HyperWf(h) && this !in HyperRepr(h)
      modifies this`io
      ensures r.Resolved? && r.version == version && fresh(r.io) && io.None?
      ensures HyperWf(OfRewind(r.io)) && HyperRepr(OfRewind(r.io)) == {r.io} + HyperRepr(h)
      ensures HyperView(OfRewind(r.io)) == Rewound(old(b.Filled()), old(HyperView(h)))
    {
      assert allocated(HyperRepr(h));
      io := None;
      var rewind := new Rewind(h, b.Filled());
      r := Resolved(version, rewind);
    }
  }

  /** hyper's HTTP/1 or HTTP/2 connection, opaque but for what it was given. */
  class HttpEngine {
    const io: Rewind
    const service: nat
    var closing: bool

    constructor (io: Rewind, service: nat)
      ensures this.io == io && this.service == service && !closing
    {
      this.io, this.service, closing := io, service, false;
    }

    method GracefulShutdown()
      modifies this
      ensures closing
    {
      closing := true;
    }
  }

  datatype ConnectionState =
    | ReadingVersion(readVersion: ReadVersion, service: Option<nat>)
    | OverHttp1(conn: HttpEngine)
    | OverHttp2(conn: HttpEngine)

  class UpgradableConnection {
    var state: ConnectionState

    ghost function Repr(): set<object>
      reads this, if state.ReadingVersion? then {state.readVersion} else {}
    {
      {this} + if state.ReadingVersion? then state.readVersion.Repr()
               else {state.conn} + HyperRepr(OfRewind(state.conn.io))
    }

    /** Before the handover, reader and service are both present, so neither unwrap can fail. */
    ghost predicate Valid()
      reads this, if state.ReadingVersion? then {state.readVersion} else {}
    {
      if state.ReadingVersion? then
        && state.readVersion.Valid() && this !in state.readVersion.Repr()
        && state.readVersion.io.Some? && state.service.Some?
      else
        && HyperWf(OfRewind(state.conn.io)) && state.conn as object != this
        && this !in HyperRepr(OfRewind(state.conn.io)) && state.conn !in HyperRepr(OfRewind(state.conn.io))
    }

    ghost function View(): Conn
      requires Valid()
      reads this, if state.ReadingVersion? then {state.readVersion} else {}
      reads Repr()
    {
      match state
      case ReadingVersion(rv, service) => Reading(rv.View(), rv.Got(), rv.cancelled, service.value)
      case OverHttp1(conn) => Serving(Http1, HyperView(OfRewind(conn.io)), conn.service, conn.closing)
      case OverHttp2(conn) => Serving(Http2, HyperView(OfRewind(conn.io)), conn.service, conn.closing)
    }

    constructor (io: HyperReader, service: nat)
      requires HyperWf(io)
      ensures Valid() && View() == Reading(HyperView(io), [], false, service)
      ensures fresh(Repr() - HyperRepr(io))
    {
      assert allocated(HyperRepr(io));
      var rv := new ReadVersion(io);
      state := ReadingVersion(rv, Some(service));
    }

    method GracefulShutdown()
      requires Valid()
      modifies Repr()
      ensures Valid() && View() == ShutDown(old(View())) && Repr() == old(Repr())
      ensures state == old(state)
      ensures state.ReadingVersion? ==> state.readVersion.cancelled
      ensures !state.ReadingVersion? ==> state.conn.closing
    {
      assert allocated(Repr());
      match state
      case ReadingVersion(rv, _) => rv.Cancel();
      case OverHttp1(conn) => conn.GracefulShutdown();
      case OverHttp2(conn) => conn.GracefulShutdown();
    }

    /** The `ReadVersion` arm of `poll`; `r` is `None` when the connection goes on to be served. */
    method Upgrade(ghost next: (Feed, Sniffed)) returns (r: Option<ConnectionPoll>)
      requires Valid() && state.ReadingVersion?
      requires next == Sniff(Remainder, state.readVersion.View(), state.readVersion.Got())
      modifies Repr()
      ensures Valid() && (forall o | o in Repr() && o !in old(Repr()) :: fresh(o))
      ensures old(View()).cancelled ==> r == Some(Errored(Protocol(Interrupted))) && View() == old(View())
      ensures !old(View()).cancelled ==>
                match next.1
                case Unsure(got) => r == Some(NotReady) && View() == Reading(next.0, got, false, old(View()).service)
                case Failure(code, got) =>
                  r == Some(Errored(Protocol(Os(code)))) && View() == Reading(next.0, got, false, old(View()).service)
                case Decided(version, got) =>
                  && r == None && View() == Serving(version, Rewound(got, next.0), old(View()).service, false)
                  && (if version == Http1 then state.OverHttp1? else state.OverHttp2?)
    {
      var rv := state.readVersion;
      assert allocated(rv.Repr());
      var p := rv.Poll(next);
      if p.StillReading? {
        return Some(NotReady);
      }
      if p.ReadFailed? {
        return Some(Errored(Protocol(p.error)));
      }
      var service := state.service.value;
      var conn := new HttpEngine(p.io, service);
      state := if p.version == Http1 then OverHttp1(conn) else OverHttp2(conn);
      r := None;
    }

    /** `rounds` counts the turns of the loop. */
    method Poll(e: EnginePoll) returns (r: ConnectionPoll, ghost rounds: nat)
      requires Valid() && Sound(View())
      modifies Repr()
      ensures Valid() && (forall o | o in Repr() && o !in old(Repr()) :: fresh(o))
      ensures (View(), r) == PollConn(old(View()), e)
      ensures View().Serving? ==>
                r == match e case EnginePending => NotReady case EngineDone => Finished case EngineFailed(code) => Errored(Engine(code))
      ensures old(View()).Reading? && old(View()).cancelled ==> r == Errored(Protocol(Interrupted)) && View() == old(View())
      ensures rounds <= 2
    {
      rounds := 0;
      while true
        invariant Valid() && (forall o | o in Repr() && o !in old(Repr()) :: fresh(o))
        invariant rounds == 0 ==> state == old(state) && View() == old(View()) && Repr() == old(Repr())
        invariant rounds > 0 ==> rounds == 1 && View().Serving? && (View(), EngineResult(e)) == PollConn(old(View()), e)
        decreases state.ReadingVersion?
      {
        rounds := rounds + 1;
        if state.ReadingVersion? {
          ghost var next := Sniff(Remainder, state.readVersion.View(), state.readVersion.Got());
          var early := Upgrade(next);
          if early.Some? {
            return early.value, rounds;
          }
        } else {
          return EngineResult(e), rounds;
        }
      }
    }

    /** The engine reads from the connection. */
    method EngineRead(buf: HyperBuf) returns (p: ReadPoll)
      requires Valid() && !state.ReadingVersion?
      requires buf.Valid() && buf !in Repr() && buf.raw !in Repr()
      modifies Repr(), buf, buf.raw
      ensures Valid() && View() == Step(old(View()), ConnectionMachine.EngineRead(old(buf.Room())))
      ensures buf.Valid() && Reports(p, ByteFeed.Poll(old(View()).feed, old(buf.Room())).1)
      ensures buf.Filled() == old(buf.Filled()) + Handed(old(View()), ConnectionMachine.EngineRead(old(buf.Room())))
    {
      assert allocated(Repr());
      var h := OfRewind(state.conn.io);
      p := ReadInto(h, buf, ByteFeed.Poll(HyperView(h), buf.Room()));
    }
  }
}
