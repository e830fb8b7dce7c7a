/** The shared stream as bytes: what the one reader cuts off it, however the transport splits
    it, are the replies that the interleavings hand to their callers. */
module ByteChannel {
  import opened Common
  import opened Wire
  import opened Framing
  import RT = ReplyTable
  import opened Ledger
  import opened Multiplexer

  function FrameOf(p: Packet): Frame { Frame(p.reply.kind, p.id, p.reply.body) }

  function FramesOf(ps: seq<Packet>): seq<Frame> {
    seq(|ps|, i requires 0 <= i < |ps| => FrameOf(ps[i]))
  }

  /** The frames an action puts on the stream. */
  ghost function SentBy(s: System, a: Action): seq<Frame>
    requires Enabled(s, a)
  {
    match a
    case Answer(k, reply) => [Frame(reply.kind, s.ledger.issued[k].id, reply.body)]
    case Noise(p) => [FrameOf(p)]
    case _ => []
  }

  /** The frames an action takes off it. */
  ghost function ReadBy(s: System, a: Action): seq<Frame>
    requires Enabled(s, a)
  {
    match a
    case Read(_) => [FrameOf(s.ledger.wire[0])]
    case _ => []
  }

  /** All frames sent, and all read, by the first `n` actions of a run. */
  ghost function Sent(run: seq<System>, actions: seq<Action>, n: nat): seq<Frame>
    requires IsRun(run, actions) && n <= |actions|
  {
    if n == 0 then [] else Sent(run, actions, n - 1) + SentBy(run[n - 1], actions[n - 1])
  }

  ghost function ReadOff(run: seq<System>, actions: seq<Action>, n: nat): seq<Frame>
    requires IsRun(run, actions) && n <= |actions|
  {
    if n == 0 then [] else ReadOff(run, actions, n - 1) + ReadBy(run[n - 1], actions[n - 1])
  }

  /** The server keeps to the length limit of a packet. */
  predicate LegalReplies(actions: seq<Action>) {
    forall i :: 0 <= i < |actions| ==>
      && (actions[i].Answer? ==> 5 + |actions[i].reply.body| <= 262_144)
      && (actions[i].Noise? ==> 5 + |actions[i].p.reply.body| <= 262_144)
  }

  lemma WireMoves(s: System, a: Action)
    requires Enabled(s, a)
    ensures FramesOf(s.ledger.wire) + SentBy(s, a) == ReadBy(s, a) + FramesOf(Apply(s, a).ledger.wire)
  {
    var wire := s.ledger.wire;
    if a.Read? {
      assert wire == [wire[0]] + wire[1..];
    }
  }

  /** In every state of every run, the frames sent so far are those read so far followed by
      those still on the wire. */
  lemma {:induction false} InOrder(run: seq<System>, actions: seq<Action>, n: nat)
    requires IsRun(run, actions) && n <= |actions|
    ensures Sent(run, actions, n) == ReadOff(run, actions, n) + FramesOf(run[n].ledger.wire)
  {
    hide Apply, Enabled, SentBy, ReadBy;
    if n == 0 {
      assert run[0].ledger.wire == [];
    } else {
      var m := n - 1;
      InOrder(run, actions, m);
      WireMoves(run[m], actions[m]);
      var r, w := ReadOff(run, actions, m), FramesOf(run[m].ledger.wire);
      assert r + w + SentBy(run[m], actions[m]) == r + (w + SentBy(run[m], actions[m]));
    }
  }

  lemma {:induction false} LegalFrames(run: seq<System>, actions: seq<Action>, n: nat)
    requires IsRun(run, actions) && LegalReplies(actions) && n <= |actions|
    ensures forall i :: 0 <= i < |Sent(run, actions, n)| ==> Legal(Sent(run, actions, n)[i])
  {
    if n > 0 {
      LegalFrames(run, actions, n - 1);
      var a := actions[n - 1];
      assert a.Answer? || a.Noise? ==> Legal(SentBy(run[n - 1], a)[0]);
    }
  }

  /** What is read grows, and a read adds the frame it routes. */
  lemma {:induction false} ReadSoFar(run: seq<System>, actions: seq<Action>, i: nat, n: nat)
    requires IsRun(run, actions) && i < n <= |actions| && actions[i].Read?
    ensures |ReadOff(run, actions, i)| < |ReadOff(run, actions, n)|
    ensures ReadOff(run, actions, n)[|ReadOff(run, actions, i)|] == FrameOf(run[i].ledger.wire[0])
    decreases n
  {
    hide Apply, Enabled, FrameOf;
    if i < n - 1 {
      hide ReadBy;
      ReadSoFar(run, actions, i, n - 1);
    }
  }

  /** Each read of a run routes the frame that as many frames precede as there were reads. */
  ghost predicate RoutedInTurn(run: seq<System>, actions: seq<Action>, got: seq<Frame>)
    requires IsRun(run, actions)
  {
    forall i :: 0 <= i < |actions| && actions[i].Read? && |ReadOff(run, actions, i)| < |got| ==>
      got[|ReadOff(run, actions, i)|] == FrameOf(run[i].ledger.wire[0])
  }

  lemma EachInTurn(run: seq<System>, actions: seq<Action>, got: seq<Frame>)
    requires IsRun(run, actions) && got <= ReadOff(run, actions, |actions|)
    ensures RoutedInTurn(run, actions, got)
  {
    hide Apply, Enabled, FrameOf, ReadOff;
    forall i | 0 <= i < |actions| && actions[i].Read? && |ReadOff(run, actions, i)| < |got|
      ensures got[|ReadOff(run, actions, i)|] == ReadOff(run, actions, |actions|)[|ReadOff(run, actions, i)|]
    {
    }
    forall i | 0 <= i < |actions| && actions[i].Read?
    {
      ReadSoFar(run, actions, i, |actions|);
    }
  }

  /** The bytes a run's server sends. */
  ghost function SentBytes(run: seq<System>, actions: seq<Action>): bytes
    requires IsRun(run, actions) && LegalReplies(actions)
  {
    LegalFrames(run, actions, |actions|);
    EncodeAll(Sent(run, actions, |actions|))
  }

  /** Reading a run's bytes packet by packet: whatever the transport's script, the frames cut
      off are, one for one, those that the reads of the run route; only the transport can fail, and
      it does not while its reads succeed and are enough. */
  method ReadRun(ghost run: seq<System>, ghost actions: seq<Action>, reader: Reader, n: nat)
      returns (got: seq<Frame>, failed: Option<ReadError>)
    requires IsRun(run, actions) && LegalReplies(actions) && reader.Valid()
    requires reader.Stream() == SentBytes(run, actions) && n == |ReadOff(run, actions, |actions|)|
    modifies reader, reader.half
    ensures reader.Valid() && failed != Some(Protocol)
    ensures got <= ReadOff(run, actions, |actions|) && (failed.None? ==> got == ReadOff(run, actions, |actions|))
    ensures RoutedInTurn(run, actions, got)
    ensures old(Suffices(reader.half.script, |reader.half.pending|)) ==> failed.None?
  {
    hide IsRun, Sent, ReadOff, LegalReplies, FrameOf;
    ghost var all := |actions|;
    InOrder(run, actions, all);
    LegalFrames(run, actions, all);
    got, failed := reader.Drain(Sent(run, actions, all), n);
    EachInTurn(run, actions, got);
  }

  /** A read of a run: the packet for a request. */
  ghost predicate WasRead(run: seq<System>, actions: seq<Action>, i: nat, id: u32, reply: RT.Reply, k: nat)
    requires IsRun(run, actions)
  {
    i < |actions| && actions[i].Read? && run[i].ledger.wire[0] == Packet(id, reply, Some(k))
  }

  /** A reply stored under an id was read off the stream, as the packet of the id's request. */
  lemma {:induction false} StoredWasRead(run: seq<System>, actions: seq<Action>, n: nat, id: u32) returns (i: nat)
    requires IsRun(run, actions) && Honest(actions) && n < |run|
    requires id in run[n].ledger.table.slots && run[n].ledger.table.slots[id].Done?
    ensures id in run[n].ledger.token && i < n
    ensures WasRead(run, actions, i, id, run[n].ledger.table.slots[id].reply, run[n].ledger.token[id])
  {
    EveryHonestRun(run, actions, n);
    var m := n - 1;
    EveryHonestRun(run, actions, m);
    StoredStep(run[m], actions[m], id);
    if id in run[m].ledger.table.slots && run[m].ledger.table.slots[id].Done? {
      i := StoredWasRead(run, actions, m, id);
    } else {
      i := m;
    }
  }

  /** One action: a stored reply stays, or is the one just read. */
  lemma StoredStep(s: System, a: Action, id: u32)
    requires ClientInv(s) && HonestInv(s.ledger) && Enabled(s, a) && !a.Noise?
    requires var m := Apply(s, a).ledger; id in m.table.slots && m.table.slots[id].Done?
    ensures var l, m := s.ledger, Apply(s, a).ledger;
      if id in l.table.slots && l.table.slots[id].Done? then
        && m.table.slots[id] == l.table.slots[id]
        && id in l.token && id in m.token && m.token[id] == l.token[id]
      else
        && a.Read? && id in m.token
        && l.wire[0] == Packet(id, m.table.slots[id].reply, Some(m.token[id]))
  {
    hide RT.IsNextFree, GoalOk, NotifyAll, RoleInv, GoalInv, RT.Accounted;
    match a {
      case Drop(_, ids) => DroppedStep(s.ledger, ids, id);
      case Read(_) => ReadStep(s.ledger, id);
      case _ =>
    }
  }

  lemma ReadStep(l: Ledger, id: u32)
    requires TokenInv(l) && WireInv(l) && LiveInv(l) && l.wire != []
    requires var m := Received(l); id in m.table.slots && m.table.slots[id].Done?
    ensures var m := Received(l);
      if id in l.table.slots && l.table.slots[id].Done? then
        && m.table.slots[id] == l.table.slots[id]
        && id in l.token && id in m.token && m.token[id] == l.token[id]
      else id in m.token && l.wire[0] == Packet(id, m.table.slots[id].reply, Some(m.token[id]))
  {
    assert WirePacket(l, l.wire[0]);
    assert OnWire(l, l.wire[0].token.value) && Outstanding(l, l.wire[0].token.value);
  }

  lemma DroppedStep(l: Ledger, ids: seq<u32>, id: u32)
    requires TokenInv(l)
    requires var m := Dropped(l, ids); id in m.table.slots && m.table.slots[id].Done?
    ensures var m := Dropped(l, ids);
      && id in l.table.slots && m.table.slots[id] == l.table.slots[id]
      && id in l.token && id in m.token && m.token[id] == l.token[id]
  {
    RT.DiscardedSlots(l.table, ids);
  }

  /** From the bytes to the caller: what a thread returns from `wait` with is a frame cut off the
      stream, the one framed for the very request that thread wrote. */
  lemma {:induction false} OwnBytes(run: seq<System>, actions: seq<Action>, n: nat) returns (j: nat)
    requires IsRun(run, actions) && Honest(actions) && n < |actions| && actions[n].Take?
    ensures var l, t := run[n].ledger, actions[n].t;
      var id := run[n].threads[t].goal.id;
      && j < |ReadOff(run, actions, |actions|)|
      && id in l.token
      && var k := l.token[id];
        && k < |l.issued| && l.issued[k] == Issued(id, t) && k in l.answers
        && ReadOff(run, actions, |actions|)[j] == Frame(l.answers[k].kind, id, l.answers[k].body)
        && run[n + 1].ledger.delivered == l.delivered[k := Delivery(t, l.answers[k])]
  {
    OwnReply(run, actions, n);
    var i := StoredWasRead(run, actions, n, run[n].threads[actions[n].t].goal.id);
    ReadSoFar(run, actions, i, |actions|);
    j := |ReadOff(run, actions, i)|;
  }
}
