/**
  Readers over caller-supplied buffers: the two `poll_read` bridges of `TokioIo` and the
  replaying `Rewind`, nested to any depth. Each poll is proved to be the one of `ByteFeed`
  on the stack's abstract value, and to append exactly the bytes delivered.
 */
module Bridge {
  import opened Wrappers
  import opened ByteFeed

  datatype ReadPoll = Waiting | Broken(code: nat) | Ready

  predicate Reports(p: ReadPoll, o: Polled) {
    match o
    case Pending => p == Waiting
    case Failed(code) => p == Broken(code)
    case Got(_) => p == Ready
  }

  // ---------- Buffers ----------

  /** `hyper::rt::ReadBuf` over the part of `raw` from `base` on. */
  class HyperBuf {
    const raw: array<byte>
    const base: nat
    var filled: nat
    var init: nat

    ghost predicate Valid()
      reads this
    {
      base <= raw.Length && filled <= init <= raw.Length - base
    }

    function Room(): nat
      reads this
      requires Valid()
    {
      raw.Length - base - filled
    }

    function Filled(): seq<byte>
      reads this, raw
      requires Valid()
    {
      raw[base..base + filled]
    }

    constructor Uninit(raw: array<byte>, base: nat)
      requires base <= raw.Length
      ensures Valid() && filled == 0 && this.raw == raw && this.base == base
    {
      this.raw, this.base, filled, init := raw, base, 0, 0;
    }

    /** Panics in the original when `src` does not fit. */
    method PutSlice(src: seq<byte>)
      requires Valid() && |src| <= Room()
      modifies this, raw
      ensures Valid() && filled == old(filled) + |src| && old(init) <= init && raw[base + old(filled)..base + filled] == src
      ensures forall i | 0 <= i < base + old(filled) :: raw[i] == old(raw[i])
    {
      var from := base + filled;
      forall i | 0 <= i < |src| {
        raw[from + i] := src[i];
      }
      if init < filled + |src| {
        init := filled + |src|;
      }
      filled := filled + |src|;
    }

    /** Asserts that the next `n` bytes have been written. */
    method Advance(n: nat)
      requires Valid() && n <= Room()
      modifies this
      ensures Valid() && filled == old(filled) + n && old(init) <= init
    {
      filled := filled + n;
      if init < filled {
        init := filled;
      }
    }
  }

  /** `tokio::io::ReadBuf` over the part of `raw` from `base` on. */
  class TokioBuf {
    const raw: array<byte>
    const base: nat
    var filled: nat
    var init: nat

    ghost predicate Valid()
      reads this
    {
      base <= raw.Length && filled <= init <= raw.Length - base
    }

    function Room(): nat
      reads this
      requires Valid()
    {
      raw.Length - base - filled
    }

    function Filled(): seq<byte>
      reads this, raw
      requires Valid()
    {
      raw[base..base + filled]
    }

    constructor Uninit(raw: array<byte>, base: nat)
      requires base <= raw.Length
      ensures Valid() && filled == 0 && this.raw == raw && this.base == base
    {
      this.raw, this.base, filled, init := raw, base, 0, 0;
    }

    method PutSlice(src: seq<byte>)
      requires Valid() && |src| <= Room()
      modifies this, raw
      ensures Valid() && filled == old(filled) + |src| && old(init) <= init && raw[base + old(filled)..base + filled] == src
      ensures forall i | 0 <= i < base + old(filled) :: raw[i] == old(raw[i])
    {
      var from := base + filled;
      forall i | 0 <= i < |src| {
        raw[from + i] := src[i];
      }
      AssumeInit(|src|);
      filled := filled + |src|;
    }

    /** Asserts that the `n` bytes after the filled ones have been written. */
    method AssumeInit(n: nat)
      requires Valid() && n <= Room()
      modifies this`init
      ensures Valid() && init == if old(init) < filled + n then filled + n else old(init)
    {
      if init < filled + n {
        init := filled + n;
      }
    }

    /** Panics in the original when `n` exceeds what is initialised. */
    method SetFilled(n: nat)
      requires Valid() && n <= init
      modifies this`filled
      ensures Valid() && filled == n
    {
      filled := n;
    }
  }

  // ---------- Reader stacks ----------

  /** A byte stream of the operating system. */
  class Socket {
    var rest: seq<byte>
    var script: seq<Signal>

    constructor (stream: seq<byte>, script: seq<Signal>)
      ensures rest == stream && this.script == script
    {
      rest, this.script := stream, script;
    }

    method PollRead(buf: TokioBuf, ghost next: (Feed, Polled)) returns (p: ReadPoll)
      requires buf.Valid() && next == Poll(Source(rest, script), buf.Room())
      modifies this, buf, buf.raw
      ensures Source(rest, script) == next.0 && TokioTook(buf, p, next.1)
    {
      if script == [] {
        return Waiting;
      }
      var signal := script[0];
      script := script[1..];
      match signal
      case Wait =>
        p := Waiting;
      case Fail(code) =>
        p := Broken(code);
      case Supply(extra) =>
        var n := Least(1 + extra, Least(buf.Room(), |rest|));
        assert next == (Source(rest[n..], script), Got(rest[..n]));
        buf.PutSlice(rest[..n]);
        rest := rest[n..];
        p := Ready;
    }
  }

  /** Something that implements tokio's `AsyncRead`. */
  datatype TokioReader = OfSocket(socket: Socket) | OfHyper(io: HyperReader)

  /** Something that implements hyper's `Read`. */
  datatype HyperReader = OfTokio(io: TokioReader) | OfRewind(rewind: Rewind)

  class Rewind {
    const inner: HyperReader
    var prefix: Option<seq<byte>>
    ghost const depth: nat  // above every `Rewind` in `inner`

    constructor (inner: HyperReader, prefix: seq<byte>)
      ensures this.inner == inner && this.prefix == Some(prefix)
      ensures depth == HyperDepth(inner) + 1
    {
      this.inner, this.prefix := inner, Some(prefix);
      depth := HyperDepth(inner) + 1;
    }
  }

  ghost function TokioDepth(t: TokioReader): nat {
    match t
    case OfSocket(_) => 0
    case OfHyper(h) => HyperDepth(h)
  }

  ghost function HyperDepth(h: HyperReader): nat {
    match h
    case OfTokio(t) => TokioDepth(t)
    case OfRewind(r) => r.depth
  }

  /** The objects a reader stack is made of. */
  ghost function TokioRepr(t: TokioReader): set<object>
    decreases TokioDepth(t), t
  {
    match t
    case OfSocket(s) => {s}
    case OfHyper(h) => HyperRepr(h)
  }

  ghost function HyperRepr(h: HyperReader): set<object>
    decreases HyperDepth(h), h
  {
    match h
    case OfTokio(t) => TokioRepr(t)
    case OfRewind(r) => {r} + (if HyperDepth(r.inner) < r.depth then HyperRepr(r.inner) else {})
  }

  ghost predicate TokioWf(t: TokioReader)
    decreases TokioDepth(t), t
  {
    t.OfHyper? ==> HyperWf(t.io)
  }

  ghost predicate HyperWf(h: HyperReader)
    decreases HyperDepth(h), h
  {
    match h
    case OfTokio(t) => TokioWf(t)
    case OfRewind(r) => HyperDepth(r.inner) < r.depth && HyperWf(r.inner) && r !in HyperRepr(r.inner)
  }

  /** The abstract value of a stack. The bridges leave no trace in it. */
  ghost function TokioView(t: TokioReader): Feed
    requires TokioWf(t)
    reads TokioRepr(t)
    decreases TokioDepth(t), t
  {
    match t
    case OfSocket(s) => Source(s.rest, s.script)
    case OfHyper(h) => HyperView(h)
  }

  ghost function HyperView(h: HyperReader): Feed
    requires HyperWf(h)
    reads HyperRepr(h)
    decreases HyperDepth(h), h
  {
    match h
    case OfTokio(t) => TokioView(t)
    case OfRewind(r) => Rewound(if r.prefix.Some? then r.prefix.value else [], HyperView(r.inner))
  }

  /**
    A reader in both bridges has the value of the reader itself. As the contracts below speak
    of a reader by its value alone, nothing tells the two apart.
   */
  lemma BothBridgesTransparent(t: TokioReader, h: HyperReader)
    requires TokioWf(t) && HyperWf(h)
    ensures TokioWf(OfHyper(OfTokio(t))) && TokioView(OfHyper(OfTokio(t))) == TokioView(t)
    ensures HyperWf(OfTokio(OfHyper(h))) && HyperView(OfTokio(OfHyper(h))) == HyperView(h)
    ensures TokioRepr(OfHyper(OfTokio(t))) == TokioRepr(t) && HyperRepr(OfTokio(OfHyper(h))) == HyperRepr(h)
  {
  }

  /** `buf` took in what the poll delivered, behind its filled bytes; a poll that is not ready moved no cursor. */
  twostate predicate HyperTook(buf: HyperBuf, p: ReadPoll, o: Polled)
    requires old(buf.Valid())
    reads buf, buf.raw
  {
    && buf.Valid() && Reports(p, o) && old(buf.filled) <= buf.filled && old(buf.init) <= buf.init
    && (forall i | 0 <= i < buf.base + old(buf.filled) :: buf.raw[i] == old(buf.raw[i]))
    && buf.raw[buf.base + old(buf.filled)..buf.base + buf.filled] == BytesOf(o)
    && (!o.Got? ==> buf.filled == old(buf.filled) && buf.init == old(buf.init))
  }

  twostate predicate TokioTook(buf: TokioBuf, p: ReadPoll, o: Polled)
    requires old(buf.Valid())
    reads buf, buf.raw
  {
    && buf.Valid() && Reports(p, o) && old(buf.filled) <= buf.filled && old(buf.init) <= buf.init
    && (forall i | 0 <= i < buf.base + old(buf.filled) :: buf.raw[i] == old(buf.raw[i]))
    && buf.raw[buf.base + old(buf.filled)..buf.base + buf.filled] == BytesOf(o)
    && (!o.Got? ==> buf.filled == old(buf.filled) && buf.init == old(buf.init))
  }

  /** The filled part is what was filled before and what was put behind it. */
  lemma FilledSplits(buf: HyperBuf, before: nat)
    requires buf.Valid() && before <= buf.filled
    ensures buf.Filled() == buf.raw[buf.base..buf.base + before] + buf.raw[buf.base + before..buf.base + buf.filled]
  {
  }

  /** hyper's `poll_read` on any reader. `next` is what `ByteFeed.Poll` says of it. */
  method PollHyper(h: HyperReader, buf: HyperBuf, ghost next: (Feed, Polled)) returns (p: ReadPoll)
    requires HyperWf(h) && buf.Valid() && buf !in HyperRepr(h) && buf.raw !in HyperRepr(h)
    requires next == Poll(HyperView(h), buf.Room())
    modifies HyperRepr(h), buf, buf.raw
    ensures HyperView(h) == next.0 && HyperTook(buf, p, next.1)
    decreases HyperDepth(h), h, 1
  {
    match h
    case OfTokio(t) => p := BridgeToHyper(t, buf, next);
    case OfRewind(_) => p := RewindRead(h, buf, next);
  }

  /** tokio's `poll_read` on any reader. */
  method PollTokio(t: TokioReader, buf: TokioBuf, ghost next: (Feed, Polled)) returns (p: ReadPoll)
    requires TokioWf(t) && buf.Valid() && buf !in TokioRepr(t) && buf.raw !in TokioRepr(t)
    requires next == Poll(TokioView(t), buf.Room())
    modifies TokioRepr(t), buf, buf.raw
    ensures TokioView(t) == next.0 && TokioTook(buf, p, next.1)
    decreases TokioDepth(t), t, 0
  {
    match t
    case OfSocket(s) => p := s.PollRead(buf, next);
    case OfHyper(h) => p := BridgeToTokio(h, buf, next);
  }

  /** Polls through a tokio buffer over the part of `raw` from `base` on; `n` bytes were added. */
  method PollTokioBehind(t: TokioReader, raw: array<byte>, base: nat, ghost next: (Feed, Polled)) returns (p: ReadPoll, n: nat)
    requires TokioWf(t) && base <= raw.Length && raw !in TokioRepr(t)
    requires next == Poll(TokioView(t), raw.Length - base)
    modifies TokioRepr(t), raw
    ensures TokioView(t) == next.0 && Reports(p, next.1)
    ensures n <= raw.Length - base && raw[base..base + n] == BytesOf(next.1)
    ensures forall i | 0 <= i < base :: raw[i] == old(raw[i])
    decreases TokioDepth(t), t, 1
  {
    assert allocated(TokioRepr(t));
    var tbuf := new TokioBuf.Uninit(raw, base);
    p := PollTokio(t, tbuf, next);
    n := tbuf.filled;
  }

  /** The same through a hyper buffer. */
  method PollHyperBehind(h: HyperReader, raw: array<byte>, base: nat, ghost next: (Feed, Polled)) returns (p: ReadPoll, n: nat)
    requires HyperWf(h) && base <= raw.Length && raw !in HyperRepr(h)
    requires next == Poll(HyperView(h), raw.Length - base)
    modifies HyperRepr(h), raw
    ensures HyperView(h) == next.0 && Reports(p, next.1)
    ensures n <= raw.Length - base && raw[base..base + n] == BytesOf(next.1)
    ensures forall i | 0 <= i < base :: raw[i] == old(raw[i])
    decreases HyperDepth(h), h, 2
  {
    assert allocated(HyperRepr(h));
    var hbuf := new HyperBuf.Uninit(raw, base);
    p := PollHyper(h, hbuf, next);
    n := hbuf.filled;
  }

  /** `TokioIo`'s `hyper::rt::Read`. */
  method BridgeToHyper(t: TokioReader, buf: HyperBuf, ghost next: (Feed, Polled)) returns (p: ReadPoll)
    requires TokioWf(t) && buf.Valid() && buf !in TokioRepr(t) && buf.raw !in TokioRepr(t)
    requires next == Poll(TokioView(t), buf.Room())
    modifies TokioRepr(t), buf, buf.raw
    ensures TokioView(t) == next.0 && HyperTook(buf, p, next.1)
    decreases TokioDepth(t), t, 2
  {
    assert allocated(TokioRepr(t));
    var n;
    p, n := PollTokioBehind(t, buf.raw, buf.base + buf.filled, next);
    if p == Ready {
      buf.Advance(n);
    }
  }

  /** `TokioIo`'s `tokio::io::AsyncRead`. */
  method BridgeToTokio(h: HyperReader, buf: TokioBuf, ghost next: (Feed, Polled)) returns (p: ReadPoll)
    requires HyperWf(h) && buf.Valid() && buf !in HyperRepr(h) && buf.raw !in HyperRepr(h)
    requires next == Poll(HyperView(h), buf.Room())
    modifies HyperRepr(h), buf, buf.raw
    ensures HyperView(h) == next.0 && TokioTook(buf, p, next.1)
    decreases HyperDepth(h), h, 3
  {
    assert allocated(HyperRepr(h));
    var filled := buf.filled;
    var n;
    p, n := PollHyperBehind(h, buf.raw, buf.base + filled, next);
    if p == Ready {
      buf.AssumeInit(n);
      buf.SetFilled(filled + n);
    }
  }

  /** `Rewind`'s `poll_read`. */
  method RewindRead(h: HyperReader, buf: HyperBuf, ghost next: (Feed, Polled)) returns (p: ReadPoll)
    requires HyperWf(h) && h.OfRewind? && buf.Valid() && buf !in HyperRepr(h) && buf.raw !in HyperRepr(h)
    requires next == Poll(HyperView(h), buf.Room())
    modifies HyperRepr(h), buf, buf.raw
    ensures HyperView(h) == next.0 && HyperTook(buf, p, next.1)
    decreases HyperDepth(h), h, 0
  {
    var r := h.rewind;
    assert allocated(HyperRepr(r.inner));
    assert r !in HyperRepr(r.inner) && buf !in HyperRepr(r.inner) && buf.raw !in HyperRepr(r.inner);
    var taken := r.prefix;
    r.prefix := None;
    if taken.Some? {
      var prefix := taken.value;
      if prefix != [] {
        var n := Least(|prefix|, buf.Room());
        buf.PutSlice(prefix[..n]);
        prefix := prefix[n..];
        if prefix != [] {
          r.prefix := Some(prefix);
        }
        assert HyperView(r.inner) == old(HyperView(r.inner));
        return Ready;
      }
    }
    p := PollHyper(r.inner, buf, (next.0.inner, next.1));
  }
  /** `PollHyper`, seen by a caller that holds on to the buffer: what was delivered is appended. */
  method ReadInto(h: HyperReader, buf: HyperBuf, ghost next: (Feed, Polled)) returns (p: ReadPoll)
    requires HyperWf(h) && buf.Valid() && buf !in HyperRepr(h) && buf.raw !in HyperRepr(h)
    requires next == Poll(HyperView(h), buf.Room())
    modifies HyperRepr(h), buf, buf.raw
    ensures HyperView(h) == next.0 && buf.Valid() && Reports(p, next.1)
    ensures buf.Filled() == old(buf.Filled()) + BytesOf(next.1)
  {
    ghost var got := buf.Filled();
    p := PollHyper(h, buf, next);
    assert buf.raw[buf.base..buf.base + |got|] == got;
    FilledSplits(buf, |got|);
  }
}
