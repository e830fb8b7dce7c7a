/** Cutting the byte stream of the exec channel back into replies, however the
    transport splits it. */
module Framing {
  import opened Common
  import opened Wire

  datatype Frame = Frame(kind: byte, id: u32, body: bytes)

  /** A frame a well-formed server may send: its length field is within bounds. */
  predicate Legal(f: Frame) { 5 + |f.body| <= 262_144 }

  function Encode(f: Frame): bytes
    requires Legal(f)
  {
    PutU32(5 + |f.body|) + ([f.kind] + PutU32(f.id) + f.body)
  }

  function EncodeAll(fs: seq<Frame>): bytes
    requires forall i :: 0 <= i < |fs| ==> Legal(fs[i])
  {
    if fs == [] then [] else Encode(fs[0]) + EncodeAll(fs[1..])
  }

  /** What the front of a stream holds. */
  datatype Head =
    | Complete(frame: Frame, rest: bytes)
    | Incomplete
    | BadLength

  function Split(s: bytes): Head {
    if |s| < 4 then Incomplete
    else
      var len := GetU32(s);
      if len < 5 || len > MAX_PACKET then BadLength
      else if |s| < 4 + len then Incomplete
      else
        var pkt := s[4..4 + len];
        Complete(Frame(pkt[0], GetU32(pkt[1..]), pkt[5..]), s[4 + len..])
  }

  /** A split is exact: the frame found is legal and its encoding is what was cut off. */
  lemma {:induction false} SplitInverse(s: bytes)
    requires Split(s).Complete?
    ensures Legal(Split(s).frame) && s == Encode(Split(s).frame) + Split(s).rest
  {
    var f := Split(s).frame;
    var len := GetU32(s);
    U32Bytes(s);
    var pkt := s[4..4 + len];
    U32Bytes(pkt[1..]);
    assert pkt == [f.kind] + PutU32(f.id) + f.body by {
      assert pkt[1..][..4] == pkt[1..5];
      assert pkt == [pkt[0]] + pkt[1..5] + pkt[5..];
    }
    assert s == s[..4] + pkt + s[4 + len..];
  }

  /** Frames are self-delimiting: whatever follows, the first one is cut off whole. */
  lemma {:induction false} SplitEncode(f: Frame, rest: bytes)
    requires Legal(f)
    ensures Split(Encode(f) + rest) == Complete(f, rest)
  {
    var len := 5 + |f.body|;
    var pkt := [f.kind] + PutU32(f.id) + f.body;
    var s := Encode(f) + rest;
    assert s == PutU32(len) + (pkt + rest);
    U32RoundTrip(len, pkt + rest);
    assert s[4..4 + len] == pkt;
    assert pkt[1..] == PutU32(f.id) + f.body;
    U32RoundTrip(f.id, f.body);
    assert pkt[5..] == f.body;
    assert s[4 + len..] == rest;
  }

  /** Bytes that arrive later do not change a verdict already possible. */
  lemma SplitExtends(s: bytes, more: bytes)
    requires !Split(s).Incomplete?
    ensures Split(s + more) == if Split(s).Complete? then Split(s).(rest := Split(s).rest + more) else BadLength
  {
  }

  // ---- the transport ----

  /** How one read of the transport turns out. */
  datatype Outcome =
    | Data(n: nat)           // up to `n` bytes, at least one
    | TimedOut(late: bool)   // `late`: the whole reply timeout has passed
    | Interrupted
    | Failed

  datatype ReadError = Protocol | Lost | Timeout | Io

  function Deliveries(script: seq<Outcome>): nat {
    if script == [] then 0 else (if script[0].Data? then 1 else 0) + Deliveries(script[1..])
  }

  predicate IsFailure(o: Outcome) { o.Failed? || (o.TimedOut? && o.late) }

  /** Reads that never fail, and as many that deliver as there are bytes, each at least one. */
  predicate Suffices(script: seq<Outcome>, n: nat) {
    Deliveries(script) >= n && forall o :: o in script ==> !IsFailure(o)
  }

  lemma StillSuffices(script: seq<Outcome>, n: nat, got: nat)
    requires Suffices(script, n) && script != [] && got <= n && (script[0].Data? && n > 0 ==> got > 0)
    ensures !IsFailure(script[0]) && Suffices(script[1..], n - got)
  {
    assert forall o :: o in script[1..] ==> o in script;
  }

  /** The read half of the channel: `pending` is what the server has sent and will
      send, `script` how each coming read turns out. */
  class ReadHalf {
    var pending: bytes
    var script: seq<Outcome>

    constructor (pending: bytes, script: seq<Outcome>)
      ensures this.pending == pending && this.script == script
    {
      this.pending, this.script := pending, script;
    }

    /** Bytes are delivered in order, each once; `Ok([])` is the end of the stream. */
    method Read(max: nat) returns (o: Outcome, got: bytes)
      requires max > 0 && script != []
      modifies this
      ensures script == old(script)[1..] && o == old(script)[0]
      ensures old(pending) == got + pending
      ensures o.Data? ==> |got| <= max && (got == [] <==> old(pending) == [])
      ensures !o.Data? ==> got == []
    {
      o, script := script[0], script[1..];
      got := [];
      if o.Data? {
        var n := Min(Min(Max(o.n, 1), max), |pending|);
        got, pending := pending[..n], pending[n..];
      }
    }
  }

  lemma NothingLeft(script: seq<Outcome>, n: nat)
    ensures script == [] && Suffices(script, n) ==> n == 0
  {
  }

  /** The receive buffer; `rbuf[rpos..]` is not parsed yet. */
  class Reader {
    const half: ReadHalf
    var rbuf: bytes
    var rpos: nat

    ghost predicate Valid()
      reads this
    {
      rpos <= |rbuf|
    }

    /** Everything not parsed yet, received or not. */
    ghost function Stream(): bytes
      reads this, half
      requires Valid()
    {
      rbuf[rpos..] + half.pending
    }

    constructor (half: ReadHalf, rbuf: bytes)
      ensures Valid() && this.half == half && Stream() == rbuf + half.pending
    {
      this.half, this.rbuf, this.rpos := half, rbuf, 0;
    }

    method ParsePacket() returns (r: Result<Option<Frame>, ReadError>)
      requires Valid()
      modifies this
      ensures Valid()
      ensures match Split(old(rbuf[rpos..]))
              case Complete(f, rest) => r == Ok(Some(f)) && rbuf[rpos..] == rest
              case Incomplete => r == Ok(None) && rbuf == old(rbuf) && rpos == old(rpos)
              case BadLength => r == Err(Protocol) && rbuf == old(rbuf) && rpos == old(rpos)
    {
      var unread := rbuf[rpos..];
      if |unread| < 4 { return Ok(None); }
      var len := GetU32(unread);
      if len < 5 || len > MAX_PACKET { return Err(Protocol); }
      if |unread| < 4 + len { return Ok(None); }
      var pkt := unread[4..4 + len];
      r := Ok(Some(Frame(pkt[0], GetU32(pkt[1..]), pkt[5..])));
      assert unread[4 + len..] == rbuf[rpos + 4 + len..];
      rpos := rpos + 4 + len;
      if rpos == |rbuf| {
        rbuf, rpos := [], 0;
      }
    }

    /** Read until one reply is complete: the reply is the first frame of the stream,
        and exactly its bytes are consumed. A protocol error is reported only for a
        stream whose next length field is out of bounds. */
    method NextPacket() returns (r: Result<Frame, ReadError>)
      requires Valid()
      modifies this, half
      ensures Valid()
      ensures r.Ok? ==> Split(old(Stream())) == Complete(r.value, Stream())
      ensures r.Err? ==> Stream() == old(Stream())
      ensures r == Err(Protocol) ==> Split(old(Stream())) == BadLength
      ensures r == Err(Lost) ==> half.pending == []
      ensures old(Suffices(half.script, |half.pending|)) ==>
        Suffices(half.script, |half.pending|) && (Split(old(Stream())).Complete? ==> r.Ok?)
    {
      hide Suffices, Split;
      ghost var all := Stream();
      ghost var sure := Suffices(half.script, |half.pending|);
      NothingLeft(half.script, |half.pending|);
      while true
        invariant Valid() && Stream() == all
        invariant sure ==> Suffices(half.script, |half.pending|)
        decreases |half.script|
      {
        ghost var received := rbuf[rpos..];
        assert half.pending == [] ==> received == all;
        NothingLeft(half.script, |half.pending|);
        var p := ParsePacket();
        if !Split(received).Incomplete? {
          SplitExtends(received, half.pending);
        }
        if p.Err? { return Err(p.error); }
        if p.value.Some? { return Ok(p.value.value); }
        if rpos > 0 {
          rbuf, rpos := rbuf[rpos..], 0;
        }
        if half.script == [] { return Err(Io); }
        ghost var kept, waiting, script := rbuf, half.pending, half.script;
        var o, got := half.Read(READ_SLICE);
        if sure { StillSuffices(script, |waiting|, |got|); }
        match o {
          case Data(_) =>
            if got == [] { return Err(Lost); }
            rbuf := rbuf + got;
            assert rbuf + half.pending == kept + waiting;
          case TimedOut(late) => if late { return Err(Timeout); }
          case Interrupted =>
          case Failed => return Err(Io);
        }
      }
    }

    /** Reading `n` replies in a row off a stream of legal frames: what is read is
        always the next frames in order, wherever the transport splits the bytes. */
    method Drain(ghost sent: seq<Frame>, n: nat) returns (got: seq<Frame>, failed: Option<ReadError>)
      requires Valid()
      requires forall i :: 0 <= i < |sent| ==> Legal(sent[i])
      requires Stream() == EncodeAll(sent) && n <= |sent|
      modifies this, half
      ensures Valid() && |got| <= n && got == sent[..|got|] && (failed.None? ==> |got| == n)
      ensures failed != Some(Protocol)  // only the transport can fail
      ensures old(Suffices(half.script, |half.pending|)) ==> failed.None?
      ensures Stream() == EncodeAll(sent[|got|..])
    {
      got, failed := [], None;
      ghost var sure := Suffices(half.script, |half.pending|);
      hide Suffices;
      while |got| < n
        invariant sure ==> Suffices(half.script, |half.pending|)
        invariant Valid() && |got| <= n && got == sent[..|got|]
        invariant Stream() == EncodeAll(sent[|got|..])
      {
        ghost var rest := sent[|got|..];
        SplitEncode(rest[0], EncodeAll(rest[1..]));
        var r := NextPacket();
        if r.Err? {
          failed := Some(r.error);
          return;
        }
        got := got + [r.value];
        assert sent[|got|..] == rest[1..];
      }
    }
  }
}
