/** The request table together with the history of one connection: which request
    each live id stands for, what the server framed for it, and who was handed what.

    A request is named by its token, its position in the order of writing. Tokens,
    answers and deliveries are bookkeeping that no step of the client looks at; they
    let the properties speak of "the reply to this very request". */
module Ledger {
  import opened Common
  import opened ReplyTable

  datatype Issued = Issued(id: u32, thread: nat)

  datatype Packet = Packet(id: u32, reply: Reply, token: Option<nat>)

  datatype Delivery = Delivery(thread: nat, reply: Reply)

  datatype Ledger = Ledger(
    table: Table,
    wire: seq<Packet>,              // framed replies not read yet, in order
    owner: map<u32, nat>,           // ids whose reply a thread still expects
    issued: seq<Issued>,            // every request written; its index is its token
    token: map<u32, nat>,           // the request each live id stands for
    pending: set<nat>,              // requests the server has not answered
    answers: map<nat, Reply>,       // what the server framed for each request
    delivered: map<nat, Delivery>,  // what each request's caller was handed
    dropped: set<nat>)              // requests their callers gave up on

  const EMPTY_LEDGER: Ledger :=
    Ledger(Table(1, map[], 0, false), [], map[], [], map[], {}, map[], map[], {})

  // ---- steps ----

  function Written(l: Ledger, t: nat, id: u32, reserve: nat): Ledger {
    var k := |l.issued|;
    l.(table := Registered(l.table, id, reserve),
       owner := l.owner[id := t],
       issued := l.issued + [Issued(id, t)],
       token := l.token[id := k],
       pending := l.pending + {k})
  }

  function Broken(l: Ledger, nextId: u32): Ledger {
    l.(table := l.table.(nextId := nextId, broken := true))
  }

  /** The caller of `wait` leaves with its reply. */
  function Handed(l: Ledger, t: nat, id: u32): Ledger
    requires id in l.table.slots && l.table.slots[id].Done?
  {
    l.(table := Taken(l.table, id),
       owner := l.owner - {id},
       token := l.token - {id},
       delivered := if id in l.token
                    then l.delivered[l.token[id] := Delivery(t, l.table.slots[id].reply)]
                    else l.delivered)
  }

  /** The caller of `wait` leaves with an error, because the stream broke. */
  function GivenUp(l: Ledger, id: u32): Ledger {
    l.(table := Taken(l.table, id),
       owner := l.owner - {id},
       token := l.token - {id},
       dropped := l.dropped + (if id in l.token then {l.token[id]} else {}))
  }

  /** The first packet on the wire is read and routed. */
  function Received(l: Ledger): Ledger
    requires l.wire != []
  {
    var p := l.wire[0];
    var table := Routed(l.table, p.id, p.reply);
    l.(table := table,
       wire := l.wire[1..],
       token := if p.id in table.slots then l.token else l.token - {p.id})
  }

  function Dropped(l: Ledger, ids: seq<u32>): Ledger {
    var table := Discarded(l.table, ids);
    l.(table := table,
       owner := l.owner - (set id | id in ids),
       token := (map id | id in l.token && id in table.slots :: l.token[id]),
       dropped := l.dropped + (set id | id in ids && id in l.token :: l.token[id]))
  }

  function Answered(l: Ledger, k: nat, reply: Reply): Ledger
    requires k < |l.issued|
  {
    l.(pending := l.pending - {k},
       answers := l.answers[k := reply],
       wire := l.wire + [Packet(l.issued[k].id, reply, Some(k))])
  }

  // ---- invariants ----

  ghost predicate OwnerInv(l: Ledger) {
    forall id :: id in l.owner <==> id in l.table.slots && !l.table.slots[id].Discard?
  }

  ghost predicate OnWire(l: Ledger, k: nat) {
    exists i :: 0 <= i < |l.wire| && l.wire[i].token == Some(k)
  }

  /** Request `k` was written and its reply has not been read. */
  ghost predicate Outstanding(l: Ledger, k: nat) {
    k < |l.issued| && (k in l.pending || OnWire(l, k))
  }

  ghost predicate TokenInv(l: Ledger) {
    && (forall id :: id in l.token <==> id in l.table.slots)
    && (forall id :: id in l.token ==> LiveToken(l, id))
  }

  /** What is known of a live id: it was issued for its token by the thread that still
      expects it, and a reply stored under it is what the server framed for it. */
  ghost predicate LiveToken(l: Ledger, id: u32)
    requires id in l.token
  {
    var k := l.token[id];
    && k < |l.issued| && l.issued[k].id == id
    && (id in l.owner ==> l.issued[k].thread == l.owner[id])
    && (id in l.table.slots && l.table.slots[id].Done? ==> k in l.answers && l.table.slots[id].reply == l.answers[k])
    && (id in l.table.slots && l.table.slots[id].Discard? ==> k in l.dropped)
    && k !in l.delivered
  }

  ghost predicate WireInv(l: Ledger) {
    && (forall i :: 0 <= i < |l.wire| ==> WirePacket(l, l.wire[i]))
    && (forall i, j :: 0 <= i < j < |l.wire| ==> l.wire[i].token != l.wire[j].token)
    && (forall k :: k in l.pending ==> k < |l.issued| && k !in l.answers)
    && (forall k :: k in l.answers ==> k < |l.issued|)
  }

  ghost predicate WirePacket(l: Ledger, p: Packet) {
    && p.token.Some? && p.token.value < |l.issued| && p.id == l.issued[p.token.value].id
    && p.token.value in l.answers && p.reply == l.answers[p.token.value]
  }

  /** The id of request `k`, while live, stands for that very request. */
  ghost predicate StandsFor(l: Ledger, k: nat)
    requires k < |l.issued|
  {
    var id := l.issued[k].id;
    id in l.table.slots && id in l.token && l.token[id] == k && !l.table.slots[id].Done?
  }

  /** A live id still waiting is exactly an outstanding request of that id; so no id
      is live for one request while the reply to an earlier one is under way. */
  ghost predicate LiveInv(l: Ledger) {
    && (forall k: nat :: Outstanding(l, k) ==>
          StandsFor(l, k) || (l.table.broken && l.issued[k].id !in l.table.slots))
    && (!l.table.broken ==> forall id :: id in l.table.slots && !l.table.slots[id].Done? ==>
          id in l.token && Outstanding(l, l.token[id]))
  }

  ghost predicate DeliveryInv(l: Ledger) {
    forall k :: k in l.delivered ==>
      && k < |l.issued| && k in l.answers
      && l.delivered[k] == Delivery(l.issued[k].thread, l.answers[k])
  }

  /** Request `k` was answered to its caller, given up by it, or is still live. */
  ghost predicate AccountedFor(l: Ledger, k: nat)
    requires k < |l.issued|
  {
    k in l.delivered || k in l.dropped || (l.issued[k].id in l.token && l.token[l.issued[k].id] == k)
  }

  ghost predicate NothingLost(l: Ledger) {
    forall k: nat :: k < |l.issued| ==> AccountedFor(l, k)
  }

  ghost predicate HonestInv(l: Ledger) {
    OwnerInv(l) && TokenInv(l) && WireInv(l) && LiveInv(l) && DeliveryInv(l) && NothingLost(l)
  }

  // ---- each step keeps them ----

  /** No request is lost by a step that keeps every live token, or turns it into a
      delivery or a request given up. */
  lemma {:induction false} LostStep(l: Ledger, m: Ledger)
    requires NothingLost(l)
    requires l.issued <= m.issued && l.delivered.Keys <= m.delivered.Keys && l.dropped <= m.dropped
    requires forall id :: id in l.token ==>
      (id in m.token && m.token[id] == l.token[id]) || l.token[id] in m.delivered || l.token[id] in m.dropped
    requires forall k: nat :: |l.issued| <= k < |m.issued| ==> AccountedFor(m, k)
    ensures NothingLost(m)
  {
    forall k: nat | k < |l.issued|
      ensures AccountedFor(m, k)
    {
      assert AccountedFor(l, k);
    }
  }

  lemma WireStep(l: Ledger, m: Ledger)
    requires WireInv(l) && m.wire == l.wire && m.answers == l.answers && l.issued <= m.issued
    requires forall k :: k in m.pending ==> k in l.pending || (|l.issued| <= k < |m.issued|)
    ensures WireInv(m)
  {
  }

  /** The slot of `id` leaves the table: a finished one, or any one of a broken stream. */
  lemma {:induction false} LiveStep(l: Ledger, m: Ledger, id: u32)
    requires LiveInv(l) && TokenInv(l) && id in l.table.slots
    requires l.table.broken || l.table.slots[id].Done?
    requires m.table == Taken(l.table, id) && m.token == l.token - {id}
    requires m.issued == l.issued && m.pending == l.pending && m.wire == l.wire
    ensures LiveInv(m) && forall k: nat :: Outstanding(m, k) == Outstanding(l, k)
  {
    forall k: nat
      ensures Outstanding(m, k) == Outstanding(l, k)
      ensures Outstanding(m, k) ==> StandsFor(m, k) || (m.table.broken && m.issued[k].id !in m.table.slots)
    {
      assert OnWire(m, k) == OnWire(l, k);
      if Outstanding(l, k) && StandsFor(l, k) {
        assert l.issued[k].id != id ==> StandsFor(m, k);
      }
    }
    forall j | !m.table.broken && j in m.table.slots && !m.table.slots[j].Done?
      ensures Outstanding(m, m.token[j])
    {
      assert Outstanding(l, l.token[j]);
    }
  }

  lemma {:induction false} WrittenKeeps(l: Ledger, t: nat, id: u32, reserve: nat)
    requires HonestInv(l) && !l.table.broken && id !in l.table.slots
    ensures HonestInv(Written(l, t, id, reserve))
  {
    var m := Written(l, t, id, reserve);
    WireStep(l, m);
    WrittenLive(l, t, id, reserve);
    WrittenTokens(l, t, id, reserve);
    WrittenHistory(l, t, id, reserve);
  }

  lemma {:induction false} WrittenHistory(l: Ledger, t: nat, id: u32, reserve: nat)
    requires TokenInv(l) && OwnerInv(l) && DeliveryInv(l) && NothingLost(l) && id !in l.table.slots
    ensures var m := Written(l, t, id, reserve); OwnerInv(m) && DeliveryInv(m) && NothingLost(m)
  {
    var m := Written(l, t, id, reserve);
    forall k: nat | k < |m.issued|
      ensures AccountedFor(m, k)
    {
      assert k < |l.issued| ==> AccountedFor(l, k);
    }
  }

  lemma WrittenTokens(l: Ledger, t: nat, id: u32, reserve: nat)
    requires TokenInv(l) && OwnerInv(l) && DeliveryInv(l) && id !in l.table.slots
    ensures TokenInv(Written(l, t, id, reserve))
  {
  }

  /** The id was free, so no reply under way can be mistaken for the new one. */
  lemma WrittenLive(l: Ledger, t: nat, id: u32, reserve: nat)
    requires WireInv(l) && LiveInv(l) && !l.table.broken && id !in l.table.slots
    ensures LiveInv(Written(l, t, id, reserve))
  {
  }

  lemma {:induction false} BrokenKeeps(l: Ledger, nextId: u32)
    requires HonestInv(l)
    ensures HonestInv(Broken(l, nextId))
  {
    var m := Broken(l, nextId);
    WireStep(l, m);
    LostStep(l, m);
    assert TokenInv(m) by {
      forall j | j in m.token
        ensures LiveToken(m, j)
      {
        assert LiveToken(l, j);
      }
    }
    assert LiveInv(m) by {
      forall k: nat | Outstanding(m, k)
        ensures StandsFor(m, k) || m.issued[k].id !in m.table.slots
      {
        assert OnWire(m, k) == OnWire(l, k);
        assert Outstanding(l, k);
      }
    }
  }

  /** The caller of `wait` is handed what the server framed for its own request. */
  lemma {:induction false} HandedKeeps(l: Ledger, t: nat, id: u32)
    requires HonestInv(l) && id in l.table.slots && l.table.slots[id].Done?
    requires id in l.owner && l.owner[id] == t
    ensures HonestInv(Handed(l, t, id))
  {
    hide TokenInv, LiveInv, WireInv, OwnerInv, DeliveryInv, NothingLost;
    var m := Handed(l, t, id);
    WireStep(l, m);
    LiveStep(l, m, id);
    HandedHistory(l, t, id);
    HandedTokens(l, t, id);
  }

  lemma HandedHistory(l: Ledger, t: nat, id: u32)
    requires TokenInv(l) && OwnerInv(l) && DeliveryInv(l) && NothingLost(l)
    requires id in l.table.slots && l.table.slots[id].Done? && id in l.owner && l.owner[id] == t
    ensures var m := Handed(l, t, id); OwnerInv(m) && DeliveryInv(m) && NothingLost(m)
  {
    assert LiveToken(l, id);
    LostStep(l, Handed(l, t, id));
  }

  lemma {:induction false} HandedTokens(l: Ledger, t: nat, id: u32)
    requires TokenInv(l) && id in l.table.slots && l.table.slots[id].Done?
    ensures TokenInv(Handed(l, t, id))
  {
    var m := Handed(l, t, id);
    assert LiveToken(l, id);
    forall j | j in m.token
      ensures LiveToken(m, j)
    {
      assert LiveToken(l, j);
    }
  }

  lemma {:induction false} GivenUpKeeps(l: Ledger, id: u32)
    requires HonestInv(l) && id in l.table.slots && l.table.broken
    ensures HonestInv(GivenUp(l, id))
  {
    hide TokenInv, LiveInv, WireInv, OwnerInv, DeliveryInv, NothingLost;
    var m := GivenUp(l, id);
    WireStep(l, m);
    LiveStep(l, m, id);
    GivenUpHistory(l, id);
    GivenUpTokens(l, id);
  }

  lemma GivenUpHistory(l: Ledger, id: u32)
    requires TokenInv(l) && OwnerInv(l) && DeliveryInv(l) && NothingLost(l) && id in l.table.slots
    ensures var m := GivenUp(l, id); OwnerInv(m) && DeliveryInv(m) && NothingLost(m)
  {
    hide LiveToken, AccountedFor;
    LostStep(l, GivenUp(l, id));
  }

  lemma {:induction false} GivenUpTokens(l: Ledger, id: u32)
    requires TokenInv(l) && id in l.table.slots
    ensures TokenInv(GivenUp(l, id))
  {
    var m := GivenUp(l, id);
    forall j | j in m.token
      ensures LiveToken(m, j)
    {
      assert LiveToken(l, j);
    }
  }

  /** Reading a packet never breaks a connection whose server is honest: the reply
      finds the slot of its own request. */
  lemma {:induction false} ReceivedKeeps(l: Ledger)
    requires HonestInv(l) && l.wire != []
    ensures HonestInv(Received(l))
    ensures Received(l).table.broken == l.table.broken
  {
    ReceivedTokens(l);
    ReceivedWire(l);
    ReceivedLive(l);
    LostStep(l, Received(l));
  }

  lemma {:induction false} ReceivedTokens(l: Ledger)
    requires HonestInv(l) && l.wire != []
    ensures var m := Received(l);
      && TokenInv(m) && OwnerInv(m) && m.table.broken == l.table.broken
      && forall j :: j in l.token ==> (j in m.token && m.token[j] == l.token[j]) || l.token[j] in m.dropped
  {
    var m := Received(l);
    var p := l.wire[0];
    assert WirePacket(l, p);
    assert OnWire(l, p.token.value) && Outstanding(l, p.token.value);
    assert p.id in l.table.slots ==> LiveToken(l, p.id);
    forall j | j in m.token
      ensures LiveToken(m, j)
    {
      assert LiveToken(l, j);
    }
  }

  lemma ReceivedWire(l: Ledger)
    requires WireInv(l) && l.wire != []
    ensures WireInv(Received(l))
    ensures forall k: nat :: Outstanding(Received(l), k) <==>
      Outstanding(l, k) && l.wire[0].token != Some(k)
  {
  }

  lemma {:induction false} ReceivedLive(l: Ledger)
    requires WireInv(l) && TokenInv(l) && LiveInv(l) && l.wire != []
    ensures LiveInv(Received(l))
  {
    var m := Received(l);
    var p := l.wire[0];
    ReceivedWire(l);
    assert WirePacket(l, p) && OnWire(l, p.token.value) && Outstanding(l, p.token.value);
    forall k: nat | Outstanding(m, k)
      ensures StandsFor(m, k) || (m.table.broken && m.issued[k].id !in m.table.slots)
    {
      assert Outstanding(l, k);
    }
    forall j | !m.table.broken && j in m.table.slots && !m.table.slots[j].Done?
      ensures Outstanding(m, m.token[j])
    {
      assert Outstanding(l, l.token[j]);
      assert LiveToken(l, j);
    }
  }

  lemma {:induction false} DroppedKeeps(l: Ledger, ids: seq<u32>)
    requires HonestInv(l)
    ensures HonestInv(Dropped(l, ids))
  {
    hide TokenInv, LiveInv, WireInv, OwnerInv, DeliveryInv, NothingLost;
    WireStep(l, Dropped(l, ids));
    DroppedHistory(l, ids);
    DroppedLive(l, ids);
    DroppedTokens(l, ids);
  }

  lemma DroppedHistory(l: Ledger, ids: seq<u32>)
    requires TokenInv(l) && OwnerInv(l) && DeliveryInv(l) && NothingLost(l)
    ensures var m := Dropped(l, ids); OwnerInv(m) && DeliveryInv(m) && NothingLost(m)
  {
    hide LiveToken, AccountedFor;
    DiscardedSlots(l.table, ids);
    LostStep(l, Dropped(l, ids));
  }

  lemma {:induction false} DroppedTokens(l: Ledger, ids: seq<u32>)
    requires TokenInv(l) && OwnerInv(l)
    ensures TokenInv(Dropped(l, ids))
  {
    var m := Dropped(l, ids);
    DiscardedSlots(l.table, ids);
    forall j | j in m.token
      ensures LiveToken(m, j)
    {
      assert LiveToken(l, j);
    }
  }

  lemma {:induction false} DroppedLive(l: Ledger, ids: seq<u32>)
    requires TokenInv(l) && LiveInv(l)
    ensures LiveInv(Dropped(l, ids))
  {
    var m := Dropped(l, ids);
    DiscardedSlots(l.table, ids);
    forall k: nat | Outstanding(m, k)
      ensures StandsFor(m, k) || (m.table.broken && m.issued[k].id !in m.table.slots)
    {
      assert OnWire(m, k) == OnWire(l, k);
      assert Outstanding(l, k);
    }
    forall j | !m.table.broken && j in m.table.slots && !m.table.slots[j].Done?
      ensures Outstanding(m, m.token[j])
    {
      assert Outstanding(l, l.token[j]);
      assert OnWire(m, m.token[j]) == OnWire(l, m.token[j]);
    }
  }

  lemma {:induction false} AnsweredKeeps(l: Ledger, k: nat, reply: Reply)
    requires HonestInv(l) && k in l.pending
    ensures HonestInv(Answered(l, k, reply))
  {
    hide TokenInv, LiveInv, WireInv;
    PendingIsNew(l, k);
    LostStep(l, Answered(l, k, reply));
    AnsweredWire(l, k, reply);
    AnsweredTokens(l, k, reply);
    AnsweredLive(l, k, reply);
  }

  lemma PendingIsNew(l: Ledger, k: nat)
    requires WireInv(l) && k in l.pending
    ensures k < |l.issued| && k !in l.answers
  {
  }

  lemma {:induction false} AnsweredWire(l: Ledger, k: nat, reply: Reply)
    requires WireInv(l) && k in l.pending
    ensures k < |l.issued| && WireInv(Answered(l, k, reply))
  {
    var m := Answered(l, k, reply);
    forall i | 0 <= i < |m.wire|
      ensures WirePacket(m, m.wire[i])
      ensures i < |l.wire| ==> m.wire[i].token != Some(k)
    {
      assert i < |l.wire| ==> WirePacket(l, l.wire[i]);
    }
  }

  lemma {:induction false} AnsweredTokens(l: Ledger, k: nat, reply: Reply)
    requires TokenInv(l) && WireInv(l) && k in l.pending
    ensures TokenInv(Answered(l, k, reply))
  {
    var m := Answered(l, k, reply);
    forall j | j in m.token
      ensures LiveToken(m, j)
    {
      assert LiveToken(l, j);
      assert j in l.table.slots && l.table.slots[j].Done? ==> l.token[j] != k;
    }
  }

  lemma {:induction false} AnsweredLive(l: Ledger, k: nat, reply: Reply)
    requires LiveInv(l) && WireInv(l) && k in l.pending
    ensures LiveInv(Answered(l, k, reply))
  {
    var m := Answered(l, k, reply);
    forall q: nat
      ensures Outstanding(m, q) == Outstanding(l, q)
    {
      StillOutstanding(l, k, reply, q);
    }
    forall q: nat | Outstanding(m, q)
      ensures StandsFor(m, q) || (m.table.broken && m.issued[q].id !in m.table.slots)
    {
      assert Outstanding(l, q);
    }
  }

  lemma StillOutstanding(l: Ledger, k: nat, reply: Reply, q: nat)
    requires k in l.pending && k < |l.issued|
    ensures Outstanding(Answered(l, k, reply), q) == Outstanding(l, q)
  {
    var m := Answered(l, k, reply);
    assert m.wire[|l.wire|].token == Some(k);
    if OnWire(l, q) {
      var i :| 0 <= i < |l.wire| && l.wire[i].token == Some(q);
      assert m.wire[i].token == Some(q);
    }
    assert q != k && OnWire(m, q) ==> OnWire(l, q);
  }
}
