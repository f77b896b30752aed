/**
  Detecting the protocol of a server connection from its first bytes: what `ReadVersion`
  decides, exactly, and what it would decide if it compared only the bytes it has.
 */
module Detection {
  import opened Wrappers
  import opened ByteFeed

  datatype Protocol = Http1 | Http2

  const PREFACE_LENGTH: nat := 24

  /** The HTTP/2 connection preface, section 3.4 of RFC 9113. */
  const PREFACE: seq<byte> := [
    0x50, 0x52, 0x49, 0x20, 0x2a, 0x20, 0x48, 0x54, 0x54, 0x50, 0x2f, 0x32,
    0x2e, 0x30, 0x0d, 0x0a, 0x0d, 0x0a, 0x53, 0x4d, 0x0d, 0x0a, 0x0d, 0x0a]

  /**
    What the bytes just read are compared with: everything that is left of the preface, as
    the code has it, or only as much of it as was read.
   */
  datatype Comparison = Remainder | Slice

  predicate Agrees(cmp: Comparison, len: nat, filled: seq<byte>)
    requires len <= |filled| <= PREFACE_LENGTH
  {
    match cmp
    case Remainder => filled[len..] == PREFACE[len..]
    case Slice => filled[len..] == PREFACE[len..|filled|]
  }

  datatype Sniffed =
    | Unsure(got: seq<byte>)
    | Failure(code: nat, got: seq<byte>)
    | Decided(version: Protocol, got: seq<byte>)

  /** One poll of the detection, with `got` in the buffer. */
  function Sniff(cmp: Comparison, f: Feed, got: seq<byte>): (Feed, Sniffed)
    requires |got| <= PREFACE_LENGTH
    decreases PREFACE_LENGTH - |got|
  {
    if |got| >= PREFACE_LENGTH then (f, Decided(Http2, got))
    else
      var (f', p) := Poll(f, PREFACE_LENGTH - |got|);
      match p
      case Pending => (f', Unsure(got))
      case Failed(code) => (f', Failure(code, got))
      case Got(bytes) =>
        if bytes == [] || !Agrees(cmp, |got|, got + bytes) then (f', Decided(Http1, got + bytes))
        else Sniff(cmp, f', got + bytes)
  }

  /** One turn of the loop, by the outcome of its read. */
  lemma SniffTurn(cmp: Comparison, f: Feed, got: seq<byte>)
    requires |got| < PREFACE_LENGTH
    ensures var (f', p) := Poll(f, PREFACE_LENGTH - |got|);
            match p
            case Pending => got + BytesOf(p) == got && Sniff(cmp, f, got) == (f', Unsure(got))
            case Failed(code) => got + BytesOf(p) == got && Sniff(cmp, f, got) == (f', Failure(code, got))
            case Got(bytes) =>
              |got + bytes| <= PREFACE_LENGTH &&
              Sniff(cmp, f, got) ==
                if |got + bytes| == |got| || !Agrees(cmp, |got|, got + bytes) then (f', Decided(Http1, got + bytes))
                else Sniff(cmp, f', got + bytes)
  {
  }

  /** The bytes a poll leaves in the buffer and those still to come are those it began with. */
  lemma {:induction false} SniffConserves(cmp: Comparison, f: Feed, got: seq<byte>)
    requires |got| <= PREFACE_LENGTH
    ensures |Sniff(cmp, f, got).1.got| <= PREFACE_LENGTH
    ensures got + Content(f) == Sniff(cmp, f, got).1.got + Content(Sniff(cmp, f, got).0)
    decreases PREFACE_LENGTH - |got|
  {
    if |got| < PREFACE_LENGTH {
      var (f', p) := Poll(f, PREFACE_LENGTH - |got|);
      SniffTurn(cmp, f, got);
      PollMoves(f, PREFACE_LENGTH - |got|, got);
      if p.Got? && p.bytes != [] && Agrees(cmp, |got|, got + p.bytes) {
        SniffConserves(cmp, f', got + p.bytes);
      }
    }
  }

  /** A poll moves bytes from the front of what is to come to the end of what is there. */
  lemma PollMoves(f: Feed, room: nat, got: seq<byte>)
    ensures got + Content(f) == (got + BytesOf(Poll(f, room).1)) + Content(Poll(f, room).0)
  {
    PollConserves(f, room);
    Regroup(got, BytesOf(Poll(f, room).1), Content(Poll(f, room).0));
  }

  /** As written, the buffer is never partly filled: a poll that decides nothing has taken nothing. */
  lemma {:induction false} NeverPartlyFilled(f: Feed)
    ensures Sniff(Remainder, f, []).1.Decided? || Sniff(Remainder, f, []).1.got == []
    ensures Sniff(Remainder, f, []).1.Decided? ==>
              var (f', p) := Poll(f, PREFACE_LENGTH);
              p.Got? && Sniff(Remainder, f, []) == (f', Decided(if p.bytes == PREFACE then Http2 else Http1, p.bytes))
  {
    var (f', p) := Poll(f, PREFACE_LENGTH);
    if p.Got? {
      assert [] + p.bytes == p.bytes;
    }
  }

  // ---------- Polling until the answer is known ----------

  /** Poll again for as long as the source's script has something to say. */
  function SniffAll(cmp: Comparison, stream: seq<byte>, script: seq<Signal>, got: seq<byte>): (Feed, Sniffed)
    requires |got| <= PREFACE_LENGTH
    decreases |script|
  {
    var (f, s) := Sniff(cmp, Source(stream, script), got);
    if !s.Decided? && f.Source? && |f.script| < |script| && |s.got| <= PREFACE_LENGTH then
      SniffAll(cmp, f.rest, f.script, s.got)
    else
      (f, s)
  }

  /** What the first poll that delivers anything at all delivers. */
  function FirstRead(stream: seq<byte>, script: seq<Signal>): Option<seq<byte>> {
    if script == [] then None
    else if script[0].Supply? then Some(stream[..Least(1 + script[0].extra, Least(PREFACE_LENGTH, |stream|))])
    else FirstRead(stream, script[1..])
  }

  /** As written, the verdict is that of the first read alone: HTTP/2 just when it is the whole preface. */
  lemma {:induction false} VerdictAsWritten(stream: seq<byte>, script: seq<Signal>)
    ensures SniffAll(Remainder, stream, script, []).1.Decided? <==> FirstRead(stream, script).Some?
    ensures FirstRead(stream, script).Some? ==>
              var bytes := FirstRead(stream, script).value;
              SniffAll(Remainder, stream, script, []).1 == Decided(if bytes == PREFACE then Http2 else Http1, bytes)
    decreases |script|
  {
    NeverPartlyFilled(Source(stream, script));
    if script != [] && !script[0].Supply? {
      VerdictAsWritten(stream, script[1..]);
    }
  }

  /**
    When the code does what it is meant to do. Its verdict says whether the connection
    starts with the preface just when the first read is not a proper part of the preface
    of a connection that does.
   */
  lemma {:induction false} VerdictMeetsIntent(stream: seq<byte>, script: seq<Signal>)
    requires FirstRead(stream, script).Some?
    ensures SniffAll(Remainder, stream, script, []).1.Decided?
    ensures var version := SniffAll(Remainder, stream, script, []).1.version;
            && (version == Http2 ==> PREFACE <= stream)
            && ((version == Http2 <==> PREFACE <= stream) <==>
                  !(PREFACE <= stream && |FirstRead(stream, script).value| < PREFACE_LENGTH))
  {
    VerdictAsWritten(stream, script);
    FirstReadIsPrefix(stream, script);
  }

  lemma {:induction false} FirstReadIsPrefix(stream: seq<byte>, script: seq<Signal>)
    requires FirstRead(stream, script).Some?
    ensures FirstRead(stream, script).value <= stream
    ensures |FirstRead(stream, script).value| <= PREFACE_LENGTH
    decreases |script|
  {
    if !script[0].Supply? {
      FirstReadIsPrefix(stream, script[1..]);
    }
  }

  /** A preface that arrives in two reads is taken for HTTP/1. */
  lemma SplitPreface()
    ensures SniffAll(Remainder, PREFACE, [Supply(9), Supply(13)], []).1 == Decided(Http1, PREFACE[..10])
    ensures SniffAll(Slice, PREFACE, [Supply(9), Supply(13)], []).1 == Decided(Http2, PREFACE)
  {
    VerdictAsWritten(PREFACE, [Supply(9), Supply(13)]);
    assert PREFACE[..10] != PREFACE;
    assert [Supply(9), Supply(13)][1..] == [Supply(13)];
    var rest := PREFACE[10..];
    assert Poll(Source(PREFACE, [Supply(9), Supply(13)]), 24) == (Source(rest, [Supply(13)]), Got(PREFACE[..10]));
    assert [] + PREFACE[..10] == PREFACE[..10];
    assert Poll(Source(rest, [Supply(13)]), 14) == (Source([], []), Got(rest)) by {
      assert rest[..14] == rest && rest[14..] == [];
      assert [Supply(13)][1..] == [];
    }
    assert PREFACE[..10] + rest == PREFACE;
    assert (PREFACE[..10] + rest)[10..] == PREFACE[10..24];
    assert Sniff(Slice, Source([], []), PREFACE) == (Source([], []), Decided(Http2, PREFACE));
    assert Sniff(Slice, Source(rest, [Supply(13)]), PREFACE[..10]) == (Source([], []), Decided(Http2, PREFACE));
  }

  /** The sliced comparison tells whether what was read continues the preface. */
  lemma {:induction false} SliceAgrees(got: seq<byte>, bytes: seq<byte>, rest: seq<byte>)
    requires got <= PREFACE && |got + bytes| <= PREFACE_LENGTH
    ensures Agrees(Slice, |got|, got + bytes) ==> got + bytes <= PREFACE
    ensures !Agrees(Slice, |got|, got + bytes) ==> !(PREFACE <= got + bytes + rest)
  {
    var all := got + bytes;
    assert all[|got|..] == bytes;
    if Agrees(Slice, |got|, all) {
      assert all == PREFACE[..|got|] + PREFACE[|got|..|all|];
    } else {
      var i :| 0 <= i < |bytes| && bytes[i] != PREFACE[|got| + i];
      assert (all + rest)[|got| + i] == bytes[i];
    }
  }

  /** With the bytes read so far compared with as much of the preface, one poll keeps to the preface. */
  lemma {:induction false} SliceSniffs(f: Feed, got: seq<byte>)
    requires got <= PREFACE
    ensures |Sniff(Slice, f, got).1.got| <= PREFACE_LENGTH
    ensures !Sniff(Slice, f, got).1.Decided? ==> Sniff(Slice, f, got).1.got <= PREFACE
    ensures Sniff(Slice, f, got).1.Decided? ==>
              (Sniff(Slice, f, got).1.version == Http2 <==> PREFACE <= got + Content(f))
    decreases PREFACE_LENGTH - |got|
  {
    if |got| == PREFACE_LENGTH {
      assert got == PREFACE;
    } else {
      var (f', p) := Poll(f, PREFACE_LENGTH - |got|);
      SniffTurn(Slice, f, got);
      if p.Got? {
        SliceSniffsRead(f, got, f', p.bytes);
        if p.bytes != [] && Agrees(Slice, |got|, got + p.bytes) {
          SliceSniffs(f', got + p.bytes);
        }
      }
    }
  }

  /** A read of the sliced detection goes on while the preface may still come, and only then. */
  lemma {:induction false} SliceSniffsRead(f: Feed, got: seq<byte>, f': Feed, bytes: seq<byte>)
    requires got <= PREFACE && |got| < PREFACE_LENGTH
    requires Poll(f, PREFACE_LENGTH - |got|) == (f', Got(bytes))
    ensures |got + bytes| <= PREFACE_LENGTH && got + Content(f) == got + bytes + Content(f')
    ensures bytes != [] && Agrees(Slice, |got|, got + bytes) ==> got + bytes <= PREFACE
    ensures bytes == [] || !Agrees(Slice, |got|, got + bytes) ==> !(PREFACE <= got + Content(f))
  {
    PollMoves(f, PREFACE_LENGTH - |got|, got);
    SniffTurn(Slice, f, got);
    if bytes == [] {
      NoFalseEof(f, PREFACE_LENGTH - |got|);
      assert |got + Content(f)| < |PREFACE|;
    } else {
      SliceAgrees(got, bytes, Content(f'));
    }
  }

  /**
    With the sliced comparison the verdict would be that of the stream, for every chunking
    and every interruption: HTTP/2 just when the connection starts with the preface.
   */
  lemma {:induction false} VerdictSliced(stream: seq<byte>, script: seq<Signal>, got: seq<byte>)
    requires got <= PREFACE && SniffAll(Slice, stream, script, got).1.Decided?
    ensures SniffAll(Slice, stream, script, got).1.version == Http2 <==> PREFACE <= got + stream
    decreases |script|
  {
    SliceSniffs(Source(stream, script), got);
    SniffConserves(Slice, Source(stream, script), got);
    var (f, s) := Sniff(Slice, Source(stream, script), got);
    if !s.Decided? {
      VerdictSliced(f.rest, f.script, s.got);
    }
  }

  /** Two chunkings of one stream, both decided, then never disagree. */
  lemma SlicedIndependentOfChunking(stream: seq<byte>, script: seq<Signal>, script': seq<Signal>)
    requires SniffAll(Slice, stream, script, []).1.Decided? && SniffAll(Slice, stream, script', []).1.Decided?
    ensures SniffAll(Slice, stream, script, []).1.version == SniffAll(Slice, stream, script', []).1.version
  {
    VerdictSliced(stream, script, []);
    VerdictSliced(stream, script', []);
  }
}
