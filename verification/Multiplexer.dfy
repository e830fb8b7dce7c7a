/** Many threads sharing one SFTP byte stream: every interleaving of senders,
    waiters and the one thread that reads replies for everybody.

    Each lock-held section of the source is one atomic action; between two actions any
    thread, the server or the network may move. */
module Multiplexer {
  import opened Common
  import opened ReplyTable
  import opened Ledger

  /** What a thread is inside of: `send` or `wait`. */
  datatype Goal =
    | Send(size: nat, reserve: nat)
    | Await(id: u32)

  datatype Ctl =
    | Idle
    | Ready(goal: Goal)    // about to enter the locked section
    | Asleep(goal: Goal)   // waiting on the condition variable
    | Reading(goal: Goal)  // holds the reader role, outside the lock

  datatype System = System(ledger: Ledger, readerActive: bool, threads: seq<Ctl>)

  datatype Action =
    | Call(t: nat, goal: Goal)
    | Refuse(t: nat)              // send: the stream is broken, or the request too large
    | BlockSend(t: nat)           // send: over the reply budget
    | Write(t: nat, id: u32)      // send: written and registered
    | WriteFails(t: nat, id: u32) // send: the network write failed
    | Take(t: nat)                // wait: the reply is there
    | Missing(t: nat)             // wait: no such request
    | GiveUp(t: nat)              // wait: the stream broke
    | BlockWait(t: nat)           // wait: no reply yet
    | Read(t: nat)                // reader: one packet arrived
    | ReadFails(t: nat)           // reader: the stream ended or failed
    | Wake(t: nat)                // the condition variable may wake a thread on its own
    | Drop(t: nat, ids: seq<u32>) // discard
    | Answer(k: nat, reply: Reply)// the server answers a request, in any order
    | Noise(p: Packet)            // a dishonest server sends anything at all

  predicate TooLarge(size: nat) { size + 5 + 4 > MAX_OUT_PACKET }

  predicate At(s: System, t: nat) { t < |s.threads| }

  predicate Sending(s: System, t: nat) { At(s, t) && s.threads[t].Ready? && s.threads[t].goal.Send? }

  predicate Awaiting(s: System, t: nat) { At(s, t) && s.threads[t].Ready? && s.threads[t].goal.Await? }

  predicate CanSend(s: System, t: nat) {
    Sending(s, t) && !s.ledger.table.broken && !TooLarge(s.threads[t].goal.size)
  }

  /** What a sender meets: on a usable stream a request whose whole packet would be longer than
      261,120 bytes is refused; one whose reply might overfill the window beside those expected
      waits; any other is written, under an id that is free. */
  lemma SendChoices(s: System, t: nat)
    requires Sending(s, t)
    ensures var table, goal := s.ledger.table, s.threads[t].goal;
      var fits := 4 + 1 + 4 + goal.size <= 261_120;
      var waits := table.inFlight > 0 && table.inFlight + goal.reserve > 12_582_912;
      && (Enabled(s, Refuse(t)) <==> table.broken || !fits)
      && (Enabled(s, BlockSend(t)) <==> !table.broken && fits && waits)
      && ((exists id :: Enabled(s, Write(t, id))) <==>
           !table.broken && fits && !waits && exists id: u32 :: id !in table.slots)
  {
    var table := s.ledger.table;
    if free: u32 :| free !in table.slots {
      var id := NextFree(table, free);
      assert Enabled(s, Write(t, id)) <==> CanSend(s, t) && !OverBudget(table, s.threads[t].goal.reserve);
    }
  }

  lemma {:induction false} NextFree(table: Table, free: u32) returns (id: u32)
    requires free !in table.slots
    ensures IsNextFree(table, id)
    decreases Steps(table.nextId, free)
  {
    id := free;
    if j: u32 :| j !in table.slots && Steps(table.nextId, j) < Steps(table.nextId, free) {
      id := NextFree(table, j);
    }
  }

  predicate Unanswered(s: System, t: nat) {
    && Awaiting(s, t)
    && s.threads[t].goal.id in s.ledger.table.slots && !s.ledger.table.slots[s.threads[t].goal.id].Done?
  }

  ghost predicate Enabled(s: System, a: Action) {
    var table, owner := s.ledger.table, s.ledger.owner;
    match a
    case Call(t, goal) => At(s, t) && s.threads[t].Idle? && GoalOk(owner, t, goal)
    case Refuse(t) => Sending(s, t) && (table.broken || TooLarge(s.threads[t].goal.size))
    case BlockSend(t) => CanSend(s, t) && OverBudget(table, s.threads[t].goal.reserve)
    case Write(t, id) => CanSend(s, t) && !OverBudget(table, s.threads[t].goal.reserve) && IsNextFree(table, id)
    case WriteFails(t, id) => CanSend(s, t) && !OverBudget(table, s.threads[t].goal.reserve) && IsNextFree(table, id)
    case Take(t) =>
      Awaiting(s, t) && s.threads[t].goal.id in table.slots && table.slots[s.threads[t].goal.id].Done?
    case Missing(t) => Awaiting(s, t) && s.threads[t].goal.id !in table.slots
    case GiveUp(t) => Unanswered(s, t) && table.broken
    case BlockWait(t) => Unanswered(s, t) && !table.broken
    case Read(t) => At(s, t) && s.threads[t].Reading? && s.ledger.wire != []
    case ReadFails(t) => At(s, t) && s.threads[t].Reading?
    case Wake(t) => At(s, t) && s.threads[t].Asleep?
    case Drop(t, ids) => At(s, t) && s.threads[t].Idle? && forall id :: id in ids ==> id in owner && owner[id] == t
    case Answer(k, _) => k in s.ledger.pending && k < |s.ledger.issued|
    case Noise(p) => p.token.None?
  }

  /** A caller asks for one of the fixed reservations, or waits for an id it was given. */
  predicate GoalOk(owner: map<u32, nat>, t: nat, goal: Goal) {
    match goal
    case Send(_, reserve) => reserve <= MAX_RESERVE
    case Await(id) => id in owner && owner[id] == t
  }

  /** `Inner::progress`: take the reader role, or sleep while another thread has it. */
  function Progress(s: System, t: nat): System
    requires At(s, t) && s.threads[t].Ready?
  {
    var goal := s.threads[t].goal;
    if s.readerActive then s.(threads := s.threads[t := Asleep(goal)])
    else s.(readerActive := true, threads := s.threads[t := Reading(goal)])
  }

  function NotifyAll(threads: seq<Ctl>): seq<Ctl> {
    seq(|threads|, i requires 0 <= i < |threads| =>
      if threads[i].Asleep? then Ready(threads[i].goal) else threads[i])
  }

  ghost function Apply(s: System, a: Action): System
    requires Enabled(s, a)
  {
    var l := s.ledger;
    match a
    case Call(t, goal) => s.(threads := s.threads[t := Ready(goal)])
    case Refuse(t) => s.(threads := s.threads[t := Idle])
    case BlockSend(t) => Progress(s, t)
    case Write(t, id) => s.(ledger := Written(l, t, id, s.threads[t].goal.reserve), threads := s.threads[t := Idle])
    case WriteFails(t, id) => s.(ledger := Broken(l, Next(id)), threads := NotifyAll(s.threads[t := Idle]))
    case Take(t) => s.(ledger := Handed(l, t, s.threads[t].goal.id), threads := s.threads[t := Idle])
    case Missing(t) => s.(threads := s.threads[t := Idle])
    case GiveUp(t) => s.(ledger := GivenUp(l, s.threads[t].goal.id), threads := s.threads[t := Idle])
    case BlockWait(t) => Progress(s, t)
    case Read(t) => System(Received(l), false, NotifyAll(s.threads[t := Ready(s.threads[t].goal)]))
    case ReadFails(t) => System(Broken(l, l.table.nextId), false, NotifyAll(s.threads[t := Ready(s.threads[t].goal)]))
    case Wake(t) => s.(threads := s.threads[t := Ready(s.threads[t].goal)])
    case Drop(t, ids) => s.(ledger := Dropped(l, ids))
    case Answer(k, reply) => s.(ledger := Answered(l, k, reply))
    case Noise(p) => s.(ledger := l.(wire := l.wire + [p]))
  }

  // ---- runs ----

  predicate Initial(s: System) {
    s.ledger == EMPTY_LEDGER && !s.readerActive && forall t :: 0 <= t < |s.threads| ==> s.threads[t] == Idle
  }

  /** `run[0]` is a start state and each state follows from the one before by the
      action listed for it. */
  ghost predicate IsRun(run: seq<System>, actions: seq<Action>) {
    && |run| == |actions| + 1
    && Initial(run[0])
    && forall i :: 0 <= i < |actions| ==> Enabled(run[i], actions[i]) && run[i + 1] == Apply(run[i], actions[i])
  }

  predicate Honest(actions: seq<Action>) {
    forall i :: 0 <= i < |actions| ==> !actions[i].Noise?
  }

  // ---- what holds whatever the server sends ----

  /** One reader at most, and nobody sleeps unless there is one to wake them. */
  ghost predicate RoleInv(s: System) { OneReader(s.threads, s.readerActive) }

  ghost predicate OneReader(threads: seq<Ctl>, active: bool) {
    && (forall t, u :: 0 <= t < u < |threads| ==> !(threads[t].Reading? && threads[u].Reading?))
    && (active ==> exists t :: 0 <= t < |threads| && threads[t].Reading?)
    && (forall t :: 0 <= t < |threads| && (threads[t].Reading? || threads[t].Asleep?) ==> active)
  }

  ghost predicate GoalInv(s: System) {
    forall t :: 0 <= t < |s.threads| && !s.threads[t].Idle? ==> GoalOk(s.ledger.owner, t, s.threads[t].goal)
  }

  ghost predicate ClientInv(s: System) {
    Accounted(s.ledger.table) && OwnerInv(s.ledger) && RoleInv(s) && GoalInv(s)
  }

  /** A thread that is not the reader goes on, and does not sleep. */
  lemma GoesOn(threads: seq<Ctl>, active: bool, t: nat, c: Ctl)
    requires OneReader(threads, active) && t < |threads| && !threads[t].Reading? && (c.Idle? || c.Ready?)
    ensures OneReader(threads[t := c], active)
  {
    if active {
      var r :| 0 <= r < |threads| && threads[r].Reading?;
      assert threads[t := c][r].Reading?;
    }
  }

  lemma TakesOrSleeps(threads: seq<Ctl>, active: bool, t: nat, goal: Goal)
    requires OneReader(threads, active) && t < |threads| && threads[t].Ready?
    ensures OneReader(threads[t := if active then Asleep(goal) else Reading(goal)], true)
  {
    if active {
      var r :| 0 <= r < |threads| && threads[r].Reading?;
      assert threads[t := Asleep(goal)][r].Reading?;
    } else {
      assert threads[t := Reading(goal)][t].Reading?;
    }
  }

  lemma AllWoken(threads: seq<Ctl>, active: bool)
    requires OneReader(threads, active)
    ensures OneReader(NotifyAll(threads), active)
  {
    if active {
      var r :| 0 <= r < |threads| && threads[r].Reading?;
      assert NotifyAll(threads)[r].Reading?;
    }
  }

  lemma RoleGivenUp(threads: seq<Ctl>, active: bool, t: nat, goal: Goal)
    requires OneReader(threads, active) && t < |threads| && threads[t].Reading?
    ensures OneReader(NotifyAll(threads[t := Ready(goal)]), false)
  {
  }

  lemma {:induction false} RoleStep(s: System, a: Action)
    requires RoleInv(s) && Enabled(s, a)
    ensures RoleInv(Apply(s, a))
  {
    hide OneReader, NotifyAll, GoalOk, IsNextFree, Written, Handed, GivenUp, Received, Dropped, Answered, Broken;
    match a {
      case Call(t, goal) => GoesOn(s.threads, s.readerActive, t, Ready(goal));
      case Refuse(t) => GoesOn(s.threads, s.readerActive, t, Idle);
      case BlockSend(t) => TakesOrSleeps(s.threads, s.readerActive, t, s.threads[t].goal);
      case Write(t, _) => GoesOn(s.threads, s.readerActive, t, Idle);
      case WriteFails(t, _) =>
        GoesOn(s.threads, s.readerActive, t, Idle);
        AllWoken(s.threads[t := Idle], s.readerActive);
      case Take(t) => GoesOn(s.threads, s.readerActive, t, Idle);
      case Missing(t) => GoesOn(s.threads, s.readerActive, t, Idle);
      case GiveUp(t) => GoesOn(s.threads, s.readerActive, t, Idle);
      case BlockWait(t) => TakesOrSleeps(s.threads, s.readerActive, t, s.threads[t].goal);
      case Read(t) => RoleGivenUp(s.threads, s.readerActive, t, s.threads[t].goal);
      case ReadFails(t) => RoleGivenUp(s.threads, s.readerActive, t, s.threads[t].goal);
      case Wake(t) => GoesOn(s.threads, s.readerActive, t, Ready(s.threads[t].goal));
      case _ =>
    }
  }

  lemma {:induction false} AccountedStep(s: System, a: Action)
    requires ClientInv(s) && Enabled(s, a)
    ensures Accounted(Apply(s, a).ledger.table)
  {
    var table := s.ledger.table;
    match a {
      case Write(t, id) => RegisteredAccounted(table, id, s.threads[t].goal.reserve);
      case Take(t) => TakenAccounted(table, s.threads[t].goal.id);
      case GiveUp(t) => TakenAccounted(table, s.threads[t].goal.id);
      case Read(t) => RoutedAccounted(table, s.ledger.wire[0].id, s.ledger.wire[0].reply);
      case Drop(t, ids) => DiscardedAccounted(table, ids);
      case _ =>
    }
  }

  lemma {:induction false} OwnerStep(s: System, a: Action)
    requires Accounted(s.ledger.table) && OwnerInv(s.ledger) && GoalInv(s) && Enabled(s, a)
    ensures OwnerInv(Apply(s, a).ledger) && GoalInv(Apply(s, a))
  {
    OwnersAgree(s, a);
    GoalsAgree(s, a);
  }

  /** A thread owns exactly the live ids that are not discarded. */
  lemma OwnersAgree(s: System, a: Action)
    requires OwnerInv(s.ledger) && Enabled(s, a)
    ensures OwnerInv(Apply(s, a).ledger)
  {
    hide NotifyAll;
    if a.Drop? { DiscardedSlots(s.ledger.table, a.ids); }
  }

  /** What every thread is inside of stays a proper goal. */
  lemma GoalsAgree(s: System, a: Action)
    requires OwnerInv(s.ledger) && GoalInv(s) && Enabled(s, a)
    ensures GoalInv(Apply(s, a))
  {
    hide Registered, Taken, Routed, Discarded;
  }

  lemma {:induction false} ClientStep(s: System, a: Action)
    requires ClientInv(s) && Enabled(s, a)
    ensures ClientInv(Apply(s, a))
  {
    RoleStep(s, a);
    AccountedStep(s, a);
    OwnerStep(s, a);
  }

  /** Whatever the server sends, in every state of every run: the reserved bytes are
      within budget and exact while the stream is usable, at most one thread holds the
      reader role, and no thread sleeps unless some thread holds it. */
  lemma {:induction false} EveryRunIsSafe(run: seq<System>, actions: seq<Action>, i: nat)
    requires IsRun(run, actions) && i < |run|
    ensures ClientInv(run[i])
  {
    if i == 0 {
      assert Sum(run[0].ledger.table.slots, Reserved) == 0;
    } else {
      EveryRunIsSafe(run, actions, i - 1);
      ClientStep(run[i - 1], actions[i - 1]);
    }
  }

  /** Consequences the source relies on: the saturating subtraction never saturates,
      and a waiter never finds its request missing. */
  lemma {:induction false} NeverSaturatesNorMisses(run: seq<System>, actions: seq<Action>, i: nat)
    requires IsRun(run, actions) && i < |actions|
    ensures !actions[i].Missing?
    ensures actions[i].Read? ==>
      var table, p := run[i].ledger.table, run[i].ledger.wire[0];
      p.id in table.slots ==> Reserved(table.slots[p.id]) <= table.inFlight
  {
    EveryRunIsSafe(run, actions, i);
    if actions[i].Read? {
      RoutedAccounted(run[i].ledger.table, run[i].ledger.wire[0].id, run[i].ledger.wire[0].reply);
    }
  }

  /** A sleeper still has what it sleeps for: nothing it waits for has happened yet. */
  ghost predicate StillBlocked(table: Table, goal: Goal) {
    && !table.broken
    && match goal
      case Send(_, reserve) => OverBudget(table, reserve)
      case Await(id) => id in table.slots && !table.slots[id].Done?
  }

  ghost predicate SleepInv(s: System) {
    forall t :: 0 <= t < |s.threads| && s.threads[t].Asleep? ==> StillBlocked(s.ledger.table, s.threads[t].goal)
  }

  lemma {:induction false} SleepStep(s: System, a: Action)
    requires ClientInv(s) && SleepInv(s) && Enabled(s, a)
    ensures SleepInv(Apply(s, a))
  {
    hide Accounted, RoleInv, IsNextFree;
    if a.Drop? { DiscardedSlots(s.ledger.table, a.ids); }
  }

  /** No wake-up is lost: in every state of every run, whatever the server sends, no thread
      sleeps once its reply has been read, its budget is free, or the stream broke. */
  lemma {:induction false} NoLostWakeUp(run: seq<System>, actions: seq<Action>, i: nat)
    requires IsRun(run, actions) && i < |run|
    ensures SleepInv(run[i])
  {
    hide ClientInv, StillBlocked;
    if i > 0 {
      hide Apply, Enabled, SleepInv;
      NoLostWakeUp(run, actions, i - 1);
      EveryRunIsSafe(run, actions, i - 1);
      SleepStep(run[i - 1], actions[i - 1]);
    }
  }

  // ---- what an honest server adds ----

  /** The reader, while the stream is usable, reads because a reply is owed. */
  ghost predicate ReaderInv(s: System) {
    forall t :: 0 <= t < |s.threads| && s.threads[t].Reading? && !s.ledger.table.broken ==>
      match s.threads[t].goal
      case Send(_, _) => s.ledger.table.inFlight > 0
      case Await(id) => id in s.ledger.table.slots && s.ledger.table.slots[id].Waiting?
  }

  lemma {:induction false} ReaderStep(s: System, a: Action)
    requires ClientInv(s) && ReaderInv(s) && Enabled(s, a)
    ensures ReaderInv(Apply(s, a))
  {
    if a.Drop? {
      DiscardedSlots(s.ledger.table, a.ids);
    }
  }

  lemma {:induction false} HonestStep(s: System, a: Action)
    requires ClientInv(s) && HonestInv(s.ledger) && Enabled(s, a) && !a.Noise?
    ensures HonestInv(Apply(s, a).ledger)
  {
    var l := s.ledger;
    match a {
      case Write(t, id) => WrittenKeeps(l, t, id, s.threads[t].goal.reserve);
      case WriteFails(_, id) => BrokenKeeps(l, Next(id));
      case Take(t) => HandedKeeps(l, t, s.threads[t].goal.id);
      case GiveUp(t) => GivenUpKeeps(l, s.threads[t].goal.id);
      case Read(_) => ReceivedKeeps(l);
      case ReadFails(_) => BrokenKeeps(l, l.table.nextId);
      case Drop(_, ids) => DroppedKeeps(l, ids);
      case Answer(k, reply) => AnsweredKeeps(l, k, reply);
      case _ =>
    }
  }

  lemma {:induction false} EveryHonestRun(run: seq<System>, actions: seq<Action>, i: nat)
    requires IsRun(run, actions) && Honest(actions) && i < |run|
    ensures ClientInv(run[i]) && ReaderInv(run[i]) && HonestInv(run[i].ledger)
  {
    EveryRunIsSafe(run, actions, i);
    if i > 0 {
      EveryHonestRun(run, actions, i - 1);
      ReaderStep(run[i - 1], actions[i - 1]);
      HonestStep(run[i - 1], actions[i - 1]);
    }
  }

  /** The main theorem: under every interleaving, with ids wrapping around, whoever
      returns from `wait` with a reply returns with exactly the reply the server framed
      for the request that very thread wrote; and each request is answered to its
      caller at most once. */
  lemma {:induction false} OwnReply(run: seq<System>, actions: seq<Action>, i: nat)
    requires IsRun(run, actions) && Honest(actions) && i < |actions| && actions[i].Take?
    ensures var l, t := run[i].ledger, actions[i].t;
      var id := run[i].threads[t].goal.id;
      && id in l.token
      && var k := l.token[id];
        && k < |l.issued| && l.issued[k] == Issued(id, t)
        && k in l.answers && l.table.slots[id].reply == l.answers[k]
        && k !in l.delivered && run[i + 1].ledger.delivered == l.delivered[k := Delivery(t, l.answers[k])]
  {
    EveryHonestRun(run, actions, i);
    assert LiveToken(run[i].ledger, run[i].threads[actions[i].t].goal.id);
  }

  /** An id given out by `send` is not the id of any request whose reply is still to
      be read, so a late reply cannot reach the wrong caller. */
  lemma {:induction false} IdsAreFresh(run: seq<System>, actions: seq<Action>, i: nat, k: nat)
    requires IsRun(run, actions) && Honest(actions) && i < |actions| && actions[i].Write?
    requires Outstanding(run[i].ledger, k)
    ensures run[i].ledger.issued[k].id != actions[i].id
  {
    EveryHonestRun(run, actions, i);
    assert StandsFor(run[i].ledger, k);
  }

  /** Only a failed read or write of the network ever breaks the stream. */
  lemma {:induction false} HonestServerNeverBreaks(run: seq<System>, actions: seq<Action>, i: nat)
    requires IsRun(run, actions) && Honest(actions) && i < |actions|
    requires run[i + 1].ledger.table.broken && !run[i].ledger.table.broken
    ensures actions[i].WriteFails? || actions[i].ReadFails?
  {
    EveryHonestRun(run, actions, i);
    match actions[i] {
      case Read(_) => ReceivedKeeps(run[i].ledger);
      case Drop(_, ids) => DiscardedSlots(run[i].ledger.table, ids);
      case _ =>
    }
  }

  /** Nothing leaks: once every request was answered or given up by its caller and all
      replies were read, a usable stream has an empty table and its whole budget back,
      and every request ever written is accounted for. */
  lemma {:induction false} QuiescentTableIsEmpty(run: seq<System>, actions: seq<Action>, i: nat)
    requires IsRun(run, actions) && Honest(actions) && i < |run|
    requires var l := run[i].ledger; !l.table.broken && l.owner == map[] && l.pending == {} && l.wire == []
    ensures var l := run[i].ledger;
      && l.table.slots == map[] && l.table.inFlight == 0
      && forall k: nat :: k < |l.issued| ==> k in l.delivered || k in l.dropped
  {
    EveryHonestRun(run, actions, i);
    var l := run[i].ledger;
    assert forall k: nat :: !Outstanding(l, k);
    assert forall id :: id !in l.table.slots;
    forall k: nat | k < |l.issued|
      ensures k in l.delivered || k in l.dropped
    {
      assert AccountedFor(l, k);
    }
  }

  /** The reader never waits on a silent server: while the stream is usable, a reply is
      on the wire or the server still has a request to answer. */
  lemma {:induction false} ReaderIsOwedAReply(run: seq<System>, actions: seq<Action>, i: nat)
    requires IsRun(run, actions) && Honest(actions) && i < |run|
    requires run[i].readerActive && !run[i].ledger.table.broken
    ensures run[i].ledger.wire != [] || run[i].ledger.pending != {}
  {
    EveryHonestRun(run, actions, i);
    var s := run[i];
    var t :| 0 <= t < |s.threads| && s.threads[t].Reading?;
    var id;
    if s.threads[t].goal.Await? {
      id := s.threads[t].goal.id;
    } else {
      id := SomeReserved(s.ledger.table.slots);
    }
    assert Outstanding(s.ledger, s.ledger.token[id]);
  }

  lemma {:induction false} SomeReserved(slots: map<u32, Slot>) returns (id: u32)
    requires Sum(slots, Reserved) > 0
    ensures id in slots && !slots[id].Done?
    decreases |slots|
  {
    var j :| j in slots;
    SumRemove(slots, j, Reserved);
    if slots[j].Done? {
      id := SomeReserved(slots - {j});
    } else {
      id := j;
    }
  }
}
