/** The request table of the SFTP-over-exec channel: which ids are live, what
    each still expects, and how many reply bytes are reserved. */
module ReplyTable {
  import opened Common

  const CHANNEL_WINDOW: nat := 16 * 1024 * 1024
  const REPLY_BUDGET: nat := CHANNEL_WINDOW / 4 * 3
  const SMALL_REPLY: nat := 1024
  const LISTING_REPLY: nat := 64 * 1024
  const READ_CHUNK: nat := 32 * 1024
  const MAX_OUT_PACKET: nat := 256 * 1024 - 1024

  /** The largest reservation any request makes: a listing, or a read of one chunk. */
  const MAX_RESERVE: nat := Max(LISTING_REPLY, READ_CHUNK + SMALL_REPLY)

  datatype Reply = Reply(kind: byte, body: bytes)

  datatype Slot =
    | Waiting(reserved: nat)
    | Done(reply: Reply)
    | Discard(reserved: nat)

  function Reserved(s: Slot): nat {
    if s.Done? then 0 else s.reserved
  }

  datatype Table = Table(nextId: u32, slots: map<u32, Slot>, inFlight: nat, broken: bool)

  // ---- what each locked section does to the table ----

  /** A reply frame (kind, id, body) has been read. */
  function Routed(t: Table, id: u32, reply: Reply): Table {
    if id !in t.slots then t.(broken := true)
    else match t.slots[id]
      case Waiting(r) => t.(slots := t.slots[id := Done(reply)], inFlight := SatSub(t.inFlight, r))
      case Discard(r) => t.(slots := t.slots - {id}, inFlight := SatSub(t.inFlight, r))
      case Done(_) => t.(broken := true)
  }

  /** A request was written under `id`. */
  function Registered(t: Table, id: u32, reserve: nat): Table {
    t.(nextId := Next(id), slots := t.slots[id := Waiting(reserve)], inFlight := t.inFlight + reserve)
  }

  /** The requester takes its slot away: with the reply, or because the stream broke. */
  function Taken(t: Table, id: u32): Table {
    t.(slots := t.slots - {id})
  }

  function DiscardedOne(t: Table, id: u32): Table {
    if id !in t.slots then t
    else if t.slots[id].Done? then t.(slots := t.slots - {id})
    else t.(slots := t.slots[id := Discard(t.slots[id].reserved)])
  }

  function Discarded(t: Table, ids: seq<u32>): Table
    decreases |ids|
  {
    if ids == [] then t else DiscardedOne(Discarded(t, ids[..|ids| - 1]), ids[|ids| - 1])
  }

  /** Sending must wait for replies while this holds. */
  predicate OverBudget(t: Table, reserve: nat) {
    t.inFlight > 0 && t.inFlight + reserve > REPLY_BUDGET
  }

  // ---- ids wrap around ----

  function Next(id: u32): u32 { (id + 1) % U32_LIMIT }

  /** How many steps of `Next` lead from `a` to `b`. */
  function Steps(a: u32, b: u32): nat { (b - a) % U32_LIMIT }

  /** The id `send` picks: the first free one from `nextId` on, wrapping around. */
  ghost predicate IsNextFree(t: Table, id: u32) {
    id !in t.slots && forall j: u32 :: j !in t.slots ==> Steps(t.nextId, id) <= Steps(t.nextId, j)
  }

  // ---- the invariant ----

  /** Reserved bytes are accounted exactly while the stream is usable, and never
      undercounted afterwards; the budget always holds. */
  ghost predicate Accounted(t: Table) {
    && (forall id :: id in t.slots ==> Reserved(t.slots[id]) <= MAX_RESERVE)
    && Sum(t.slots, Reserved) <= t.inFlight <= REPLY_BUDGET
    && (!t.broken ==> t.inFlight == Sum(t.slots, Reserved))
  }

  lemma {:induction false} RoutedAccounted(t: Table, id: u32, reply: Reply)
    requires Accounted(t)
    ensures Accounted(Routed(t, id, reply))
    ensures id in t.slots ==> Reserved(t.slots[id]) <= t.inFlight  // the subtraction is exact
  {
    if id in t.slots {
      SumRemove(t.slots, id, Reserved);
      SumUpdate(t.slots, id, Done(reply), Reserved);
    }
  }

  lemma {:induction false} RegisteredAccounted(t: Table, id: u32, reserve: nat)
    requires Accounted(t) && !t.broken && id !in t.slots
    requires reserve <= MAX_RESERVE && !OverBudget(t, reserve)
    ensures Accounted(Registered(t, id, reserve))
  {
    SumUpdate(t.slots, id, Waiting(reserve), Reserved);
  }

  lemma {:induction false} TakenAccounted(t: Table, id: u32)
    requires Accounted(t) && id in t.slots
    requires t.broken || t.slots[id].Done?
    ensures Accounted(Taken(t, id))
  {
    SumRemove(t.slots, id, Reserved);
  }

  lemma {:induction false} DiscardedAccounted(t: Table, ids: seq<u32>)
    requires Accounted(t)
    ensures Accounted(Discarded(t, ids))
    ensures Discarded(t, ids).inFlight == t.inFlight
    decreases |ids|
  {
    if ids != [] {
      var id := ids[|ids| - 1];
      var u := Discarded(t, ids[..|ids| - 1]);
      DiscardedAccounted(t, ids[..|ids| - 1]);
      if id in u.slots {
        SumRemove(u.slots, id, Reserved);
        if !u.slots[id].Done? {
          SumUpdate(u.slots, id, Discard(u.slots[id].reserved), Reserved);
        }
      }
    }
  }

  /** What a discard leaves behind: replies already read are dropped, the others
      are marked so their reply is dropped on arrival, and no other id is touched. */
  lemma {:induction false} DiscardedSlots(t: Table, ids: seq<u32>)
    ensures var u := Discarded(t, ids);
      && u.nextId == t.nextId && u.broken == t.broken && u.inFlight == t.inFlight
      && (forall id :: id in u.slots <==> id in t.slots && !(id in ids && t.slots[id].Done?))
      && (forall id :: id in u.slots ==>
            u.slots[id] == if id in ids then Discard(t.slots[id].reserved) else t.slots[id])
    decreases |ids|
  {
    if ids != [] {
      var init, last := ids[..|ids| - 1], ids[|ids| - 1];
      DiscardedSlots(t, init);
      assert forall id :: id in ids <==> id in init || id == last by {
        assert ids == init + [last];
      }
    }
  }

  /** The lock-protected state, updated in place. */
  class State {
    var nextId: u32
    var slots: map<u32, Slot>
    var inFlight: nat
    var readerActive: bool
    var broken: bool

    ghost function Abs(): Table
      reads this
    {
      Table(nextId, slots, inFlight, broken)
    }

    constructor ()
      ensures Abs() == Table(1, map[], 0, false) && !readerActive
      ensures Accounted(Abs())
    {
      nextId, slots, inFlight, readerActive, broken := 1, map[], 0, false, false;
      new;
      assert Sum(slots, Reserved) == 0;
    }

    method Route(id: u32, reply: Reply) returns (ok: bool)
      requires Accounted(Abs())
      modifies this
      ensures Abs() == Routed(old(Abs()), id, reply) && readerActive == old(readerActive)
      ensures ok <==> id in old(slots) && !old(slots)[id].Done?
      ensures Accounted(Abs())
    {
      RoutedAccounted(Abs(), id, reply);
      if id !in slots {
        broken, ok := true, false;
      } else {
        match slots[id]
        case Waiting(r) =>
          inFlight := SatSub(inFlight, r);
          slots, ok := slots[id := Done(reply)], true;
        case Discard(r) =>
          inFlight := SatSub(inFlight, r);
          slots, ok := slots - {id}, true;
        case Done(_) =>
          broken, ok := true, false;
      }
    }

    /** The end of `send`, once the budget allows it: pick an id, write, register.
        `written` is the outcome of the network write. */
    method Register(reserve: nat, written: bool) returns (id: u32)
      requires Accounted(Abs()) && !broken && reserve <= MAX_RESERVE && !OverBudget(Abs(), reserve)
      requires exists free: u32 :: free !in slots
      modifies this
      ensures IsNextFree(old(Abs()), id) && readerActive == old(readerActive)
      ensures written ==> Abs() == Registered(old(Abs()), id, reserve)
      ensures !written ==> Abs() == old(Abs()).(nextId := Next(id), broken := true)
      ensures Accounted(Abs())
    {
      id := nextId;
      ghost var free: u32 :| free !in slots;
      while id in slots
        invariant forall j: u32 :: j !in slots ==> Steps(nextId, id) <= Steps(nextId, j)
        modifies {}
        decreases Steps(nextId, free) - Steps(nextId, id)
      {
        StepsNext(nextId, id, free);
        forall j: u32 | j !in slots
          ensures Steps(nextId, Next(id)) <= Steps(nextId, j)
        {
          StepsNext(nextId, id, j);
        }
        id := Next(id);
      }
      RegisteredAccounted(Abs(), id, reserve);
      nextId := Next(id);
      if written {
        slots := slots[id := Waiting(reserve)];
        inFlight := inFlight + reserve;
      } else {
        broken := true;
      }
    }

    /** One pass of `wait`: the reply, or `None` with `again` set when the caller
        has to let the stream make progress first. */
    method TryTake(id: u32) returns (r: Option<Reply>, again: bool)
      requires Accounted(Abs())
      modifies this
      ensures readerActive == old(readerActive) && Accounted(Abs())
      ensures r.Some? <==> id in old(slots) && old(slots)[id].Done?
      ensures r.Some? ==> r.value == old(slots)[id].reply && Abs() == Taken(old(Abs()), id)
      ensures again <==> !broken && id in slots
      ensures again ==> Abs() == old(Abs())
      ensures r.None? && !again ==> Abs() == Taken(old(Abs()), id)
    {
      r, again := None, false;
      if id !in slots {
        assert slots - {id} == slots;
        return;
      }
      match slots[id]
      case Done(reply) =>
        TakenAccounted(Abs(), id);
        slots := slots - {id};
        r := Some(reply);
      case _ =>
        if broken {
          TakenAccounted(Abs(), id);
          slots := slots - {id};
        } else {
          again := true;
        }
    }

    method DiscardAll(ids: seq<u32>)
      requires Accounted(Abs())
      modifies this
      ensures Abs() == Discarded(old(Abs()), ids) && readerActive == old(readerActive)
      ensures Accounted(Abs())
    {
      DiscardedAccounted(Abs(), ids);
      for i := 0 to |ids|
        invariant Abs() == Discarded(old(Abs()), ids[..i]) && readerActive == old(readerActive)
      {
        assert ids[..i + 1][..i] == ids[..i];
        var id := ids[i];
        if id in slots {
          match slots[id]
          case Done(_) => slots := slots - {id};
          case Waiting(r) => slots := slots[id := Discard(r)];
          case Discard(r) => slots := slots[id := Discard(r)];
        }
      }
      assert ids[..|ids|] == ids;
    }
  }

  /** Walking past an occupied id brings the search one step closer to any free one. */
  lemma StepsNext(from: u32, id: u32, free: u32)
    requires id != free && Steps(from, id) <= Steps(from, free)
    ensures Steps(from, Next(id)) == Steps(from, id) + 1 <= Steps(from, free)
  {
  }
}
