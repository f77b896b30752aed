/**
  Where a reader's bytes come from: a stream of bytes with a script that says how each
  poll of it turns out, under any number of replayed prefixes. The script is the
  environment's, so a statement about every script is one about every chunking and every
  `Pending`.
 */
module ByteFeed {
  import opened Wrappers

  newtype byte = x: int | 0 <= x < 256

  /** How the next poll of the source turns out; `Supply(n)` offers up to `n + 1` bytes. */
  datatype Signal = Wait | Fail(code: nat) | Supply(extra: nat)

  datatype Polled = Pending | Failed(code: nat) | Got(bytes: seq<byte>)

  datatype Feed =
    | Source(rest: seq<byte>, script: seq<Signal>)
    | Rewound(prefix: seq<byte>, inner: Feed)

  function Least(a: nat, b: nat): (m: nat)
    ensures m <= a && m <= b && (m == a || m == b)
  {
    if a < b then a else b
  }

  /** One `poll_read` into a buffer with `room` bytes left. A script that has run out is pending. */
  function Poll(f: Feed, room: nat): (r: (Feed, Polled))
    ensures r.1.Got? ==> |r.1.bytes| <= room
    decreases f
  {
    match f
    case Source(rest, script) =>
      if script == [] then (f, Pending)
      else (match script[0]
            case Wait => (Source(rest, script[1..]), Pending)
            case Fail(code) => (Source(rest, script[1..]), Failed(code))
            case Supply(extra) =>
              var n := Least(1 + extra, Least(room, |rest|));
              (Source(rest[n..], script[1..]), Got(rest[..n])))
    case Rewound(prefix, inner) =>
      if prefix != [] then
        var n := Least(|prefix|, room);
        (Rewound(prefix[n..], inner), Got(prefix[..n]))
      else
        var (inner', p) := Poll(inner, room);
        (Rewound([], inner'), p)
  }

  /**
    A source is any reader: a poll may be pending, fail with any code, or deliver any
    number of bytes from one up to what fits and is there; then the script goes on.
   */
  lemma SourcePolls(rest: seq<byte>, script: seq<Signal>, room: nat, code: nat, n: nat)
    requires n <= Least(room, |rest|)
    ensures Poll(Source(rest, [Wait] + script), room) == (Source(rest, script), Pending)
    ensures Poll(Source(rest, [Fail(code)] + script), room) == (Source(rest, script), Failed(code))
    ensures n > 0 ==> Poll(Source(rest, [Supply(n - 1)] + script), room) == (Source(rest[n..], script), Got(rest[..n]))
    ensures rest == [] || room == 0 ==> Poll(Source(rest, [Supply(n)] + script), room) == (Source(rest, script), Got([]))
  {
    assert ([Wait] + script)[1..] == script && ([Fail(code)] + script)[1..] == script && ([Supply(n)] + script)[1..] == script;
    assert rest[0..] == rest && rest[..0] == [];
    if n > 0 {
      assert ([Supply(n - 1)] + script)[1..] == script;
    }
  }

  /** All the bytes still to come. */
  function Content(f: Feed): seq<byte> {
    match f
    case Source(rest, _) => rest
    case Rewound(prefix, inner) => prefix + Content(inner)
  }

  function BytesOf(p: Polled): seq<byte> {
    if p.Got? then p.bytes else []
  }

  /** A poll takes exactly the bytes it delivers off the front, and nothing otherwise. */
  lemma {:induction false} PollConserves(f: Feed, room: nat)
    ensures Content(f) == BytesOf(Poll(f, room).1) + Content(Poll(f, room).0)
  {
    match f
    case Source(rest, script) =>
    case Rewound(prefix, inner) =>
      if prefix == [] {
        PollConserves(inner, room);
      } else {
        var n := Least(|prefix|, room);
        assert prefix == prefix[..n] + prefix[n..];
      }
  }

  lemma Regroup(a: seq<byte>, b: seq<byte>, c: seq<byte>)
    ensures a + (b + c) == (a + b) + c
  {
  }

  /** A read with room that adds nothing is a true end of file, through any stack of prefixes. */
  lemma {:induction false} NoFalseEof(f: Feed, room: nat)
    requires room > 0 && Poll(f, room).1 == Got([])
    ensures Content(f) == []
  {
    if f.Rewound? {
      NoFalseEof(f.inner, room);
    }
  }

  /** Poll once for each buffer size and gather what was delivered. */
  function Drain(f: Feed, rooms: seq<nat>): (Feed, seq<byte>)
    decreases |rooms|
  {
    if rooms == [] then (f, [])
    else
      var (f', p) := Poll(f, rooms[0]);
      var (f'', out) := Drain(f', rooms[1..]);
      (f'', BytesOf(p) + out)
  }

  /**
    Whatever the buffer sizes, what a reader has been given is a prefix of the content, and
    the rest of the content is still to come: nothing is lost, repeated or reordered.
   */
  lemma {:induction false} DrainConserves(f: Feed, rooms: seq<nat>)
    ensures Content(f) == Drain(f, rooms).1 + Content(Drain(f, rooms).0)
    decreases |rooms|
  {
    if rooms != [] {
      PollConserves(f, rooms[0]);
      DrainConserves(Poll(f, rooms[0]).0, rooms[1..]);
    }
  }

  /** Once a read with room comes back empty, everything has been delivered. */
  lemma {:induction false} DrainToEof(f: Feed, rooms: seq<nat>, f': Feed, out: seq<byte>, room: nat)
    requires Drain(f, rooms) == (f', out)
    requires room > 0 && Poll(f', room).1 == Got([])
    ensures out == Content(f)
  {
    DrainConserves(f, rooms);
    NoFalseEof(f', room);
  }

  /** A read without room changes nothing while there is a prefix. */
  lemma ZeroRoomLosesNothing(prefix: seq<byte>, inner: Feed)
    requires prefix != []
    ensures Poll(Rewound(prefix, inner), 0) == (Rewound(prefix, inner), Got([]))
  {
    assert prefix[0..] == prefix && prefix[..0] == [];
  }

  /** A prefix that fits is delivered whole by one read; of one that does not, as much as fits. */
  lemma PrefixDelivered(prefix: seq<byte>, inner: Feed, room: nat)
    requires prefix != []
    ensures |prefix| <= room ==> Poll(Rewound(prefix, inner), room) == (Rewound([], inner), Got(prefix))
    ensures |prefix| > room ==> Poll(Rewound(prefix, inner), room) == (Rewound(prefix[room..], inner), Got(prefix[..room]))
  {
    assert prefix[|prefix|..] == [] && prefix[..|prefix|] == prefix;
  }

  function Total(rooms: seq<nat>): nat {
    if rooms == [] then 0 else rooms[0] + Total(rooms[1..])
  }

  /** While a prefix lasts every buffer is filled, and the first read that the rest fits in delivers the rest. */
  lemma {:induction false} PrefixFills(prefix: seq<byte>, inner: Feed, rooms: seq<nat>, last: nat)
    requires Total(rooms) < |prefix|
    ensures Drain(Rewound(prefix, inner), rooms) == (Rewound(prefix[Total(rooms)..], inner), prefix[..Total(rooms)])
    ensures Total(rooms) + last >= |prefix| ==>
              Poll(Drain(Rewound(prefix, inner), rooms).0, last) == (Rewound([], inner), Got(prefix[Total(rooms)..]))
    decreases |rooms|
  {
    if rooms == [] {
      assert prefix[0..] == prefix && prefix[..0] == [];
      PrefixDelivered(prefix, inner, last);
    } else {
      var n := rooms[0];
      PrefixDelivered(prefix, inner, n);
      PrefixFills(prefix[n..], inner, rooms[1..], last);
      assert prefix[..Total(rooms)] == prefix[..n] + prefix[n..][..Total(rooms[1..])];
      assert prefix[Total(rooms)..] == prefix[n..][Total(rooms[1..])..];
    }
  }

  /** How a sequence of polls turns out. */
  function Outcomes(f: Feed, rooms: seq<nat>): seq<Polled>
    decreases |rooms|
  {
    if rooms == [] then [] else [Poll(f, rooms[0]).1] + Outcomes(Poll(f, rooms[0]).0, rooms[1..])
  }

  /** Once its prefix is gone, a rewound reader is its inner reader: every poll turns out the same, errors included. */
  lemma {:induction false} ThenInner(inner: Feed, rooms: seq<nat>)
    ensures Outcomes(Rewound([], inner), rooms) == Outcomes(inner, rooms)
    decreases |rooms|
  {
    if rooms != [] {
      ThenInner(Poll(inner, rooms[0]).0, rooms[1..]);
    }
  }

  /** Reads with room drain a prefix in at most as many polls as it has bytes. */
  lemma {:induction false} PrefixDrains(prefix: seq<byte>, inner: Feed, rooms: seq<nat>)
    requires forall i | 0 <= i < |rooms| :: rooms[i] > 0
    requires |rooms| >= |prefix|
    ensures Drain(Rewound(prefix, inner), rooms).0.Rewound?
    ensures Drain(Rewound(prefix, inner), rooms).0.prefix == []
    decreases |rooms|
  {
    if rooms != [] {
      var f' := Poll(Rewound(prefix, inner), rooms[0]).0;
      assert f'.Rewound? && |f'.prefix| <= |rooms| - 1;
      PrefixDrains(f'.prefix, f'.inner, rooms[1..]);
    }
  }

  /**
    As long as less than the prefix has been delivered, exactly its front has been, and the
    inner reader has not been polled at all.
   */
  lemma {:induction false} InnerUntouched(prefix: seq<byte>, inner: Feed, rooms: seq<nat>)
    requires |Drain(Rewound(prefix, inner), rooms).1| < |prefix|
    ensures Drain(Rewound(prefix, inner), rooms).0 == Rewound(prefix[|Drain(Rewound(prefix, inner), rooms).1|..], inner)
    ensures Drain(Rewound(prefix, inner), rooms).1 <= prefix
    decreases |rooms|
  {
    if rooms != [] {
      var n := Least(|prefix|, rooms[0]);
      if n < |prefix| {
        InnerUntouched(prefix[n..], inner, rooms[1..]);
      }
    }
  }
}
