/** An open remote file with read-ahead and pipelined writes, against a server that
    answers honestly but may return any non-empty part of what was asked for. */
module ExecFile {
  import opened Common
  import opened ReplyTable
  import opened Wire

  const MAX_READS_IN_FLIGHT: nat := 256
  const WRITE_CHUNK: nat := 32 * 1024
  const MAX_WRITES_IN_FLIGHT: nat := 64

  const FXP_STATUS: byte := 101
  const FXP_DATA: byte := 103
  const FX_OK: u32 := 0
  const FX_EOF: u32 := 1

  datatype Error = Connection | Protocol | Status(code: u32) | InvalidInput

  // ---- what honest answers are ----

  /** `Reply::status`. */
  function StatusOf(r: Reply): Result<u32, Error> {
    if r.kind != FXP_STATUS || ParseU32(r.body).Err? then Err(Protocol)
    else Ok(ParseU32(r.body).value.0)
  }

  /** A status message with a code, as the server frames it. */
  predicate IsStatus(r: Reply, code: u32) {
    r.kind == 101 && ParseU32(r.body).Ok? && ParseU32(r.body).value.0 == code
  }

  predicate IsOk(r: Reply) { IsStatus(r, 0) }

  predicate IsRefusal(r: Reply) { r.kind == 101 && ParseU32(r.body).Ok? && !IsStatus(r, 0) && !IsStatus(r, 1) }

  /** An honest answer to READ(offset, len): some bytes from there, end of file only at
      or past the end, or an error of the server's choice. */
  predicate HonestRead(content: bytes, offset: nat, len: nat, r: Reply) {
    || IsRefusal(r)
    || (IsStatus(r, 1) && offset >= |content|)
    || (r.kind == 103 && ParseString(r.body).Ok? &&
        var d := ParseString(r.body).value.0;
        0 < |d| <= len && offset + |d| <= |content| && d == content[offset..offset + |d|])
  }

  /** The file after `data` was written at `offset`: bytes before and behind keep their
      values, a gap past the old end queue as zeros. */
  function Overwrite(content: bytes, offset: nat, data: bytes): bytes {
    if data == [] then content
    else
      var head := if offset <= |content| then content[..offset] else content + Zeros(offset - |content|);
      var tail := if offset + |data| <= |content| then content[offset + |data|..] else [];
      head + data + tail
  }

  /** `c1` differs from `c0` only inside [lo, hi), up to zeros filling a gap. */
  ghost predicate Touched(c0: bytes, c1: bytes, lo: nat, hi: nat) {
    && |c0| <= |c1| <= Max(|c0|, hi)
    && forall i :: 0 <= i < |c1| && !(lo <= i < hi) ==> c1[i] == if i < |c0| then c0[i] else 0
  }

  lemma OverwriteAppend(c: bytes, offset: nat, a: bytes, b: bytes)
    ensures Overwrite(Overwrite(c, offset, a), offset + |a|, b) == Overwrite(c, offset, a + b)
  {
    assert a == [] ==> a + b == b;
  }

  lemma NextChunk(c: bytes, offset: nat, data: bytes, k: nat, n: nat)
    requires k + n <= |data|
    ensures Overwrite(Overwrite(c, offset, data[..k]), offset + k, data[k..k + n])
      == Overwrite(c, offset, data[..k + n])
  {
    hide Overwrite;
    OverwriteAppend(c, offset, data[..k], data[k..k + n]);
    assert data[..k] + data[k..k + n] == data[..k + n];
  }

  lemma NothingWritten(c: bytes, lo: nat, hi: nat)
    ensures Overwrite(c, lo, []) == c && Touched(c, c, lo, hi)
  {
  }

  lemma OverwriteTouches(c: bytes, offset: nat, data: bytes)
    ensures Touched(c, Overwrite(c, offset, data), offset, offset + |data|)
  {
  }

  lemma TouchedStep(c0: bytes, c1: bytes, c2: bytes, lo: nat, hi: nat, a: nat, b: nat)
    requires Touched(c0, c1, lo, hi) && Touched(c1, c2, a, b) && lo <= a <= b <= hi
    ensures Touched(c0, c2, lo, hi)
  {
  }

  /** The writes in flight are exactly the requests outstanding. */
  ghost predicate Pipelined(ids: seq<u32>, replies: map<u32, Reply>) {
    && (forall i, j :: 0 <= i < j < |ids| ==> ids[i] != ids[j])
    && (forall id :: id in ids <==> id in replies)
  }

  ghost predicate AllOk(ids: seq<u32>, replies: map<u32, Reply>)
    requires Pipelined(ids, replies)
  {
    forall id :: id in ids ==> IsOk(replies[id])
  }

  lemma PipelinedPush(ids: seq<u32>, replies: map<u32, Reply>, id: u32, reply: Reply)
    requires Pipelined(ids, replies) && id !in replies
    ensures Pipelined(ids + [id], replies[id := reply])
    ensures AllOk(ids + [id], replies[id := reply]) <==> AllOk(ids, replies) && IsOk(reply)
  {
    hide IsOk;
    var m := replies[id := reply];
    assert forall j :: j in ids + [id] <==> j in ids || j == id;
    assert id in ids + [id] && m[id] == reply;
    assert forall j :: j in ids ==> m[j] == replies[j];
  }

  lemma NoneInFlight(replies: map<u32, Reply>)
    requires replies == map[]
    ensures Pipelined([], replies) && AllOk([], replies)
  {
  }

  lemma PipelinedPop(ids: seq<u32>, replies: map<u32, Reply>)
    requires Pipelined(ids, replies) && ids != []
    ensures ids[0] in replies && Pipelined(ids[1..], replies - {ids[0]})
    ensures AllOk(ids, replies) <==> AllOk(ids[1..], replies - {ids[0]}) && IsOk(replies[ids[0]])
  {
    hide IsOk;
    assert ids == [ids[0]] + ids[1..];
    assert forall j :: j in ids <==> j in ids[1..] || j == ids[0];
  }

  lemma NotRefused(content: bytes, offset: nat, len: nat, r: Reply)
    requires HonestRead(content, offset, len, r)
    ensures IsRefusal(r) || StatusOf(r) == Ok(FX_EOF) || (r.kind == FXP_DATA && ParseString(r.body).Ok?)
    ensures r.kind == FXP_DATA ==> ParseString(r.body).Ok?
  {
  }

  lemma EofIsHonest(content: bytes, offset: nat, len: nat, r: Reply)
    requires HonestRead(content, offset, len, r) && StatusOf(r) == Ok(FX_EOF)
    ensures offset >= |content|
  {
  }

  lemma DataIsHonest(content: bytes, offset: nat, len: nat, r: Reply, d: bytes, rest: bytes)
    requires HonestRead(content, offset, len, r) && r.kind == FXP_DATA && ParseString(r.body) == Ok((d, rest))
    ensures 0 < |d| <= len && offset + |d| <= |content| && d == content[offset..offset + |d|]
    ensures |r.body| >= 4 + |d| && r.body[4..4 + |d|] == d
  {
  }

  /** Some id is not in use. */
  ghost predicate Free(replies: map<u32, Reply>) { exists id: u32 :: id !in replies }

  /** An obliging server's answers that are still to be read refuse nothing. */
  ghost predicate Willing(obliging: bool, replies: map<u32, Reply>) {
    obliging ==> forall id :: id in replies ==> !IsRefusal(replies[id])
  }

  lemma WillingMore(obliging: bool, replies: map<u32, Reply>, id: u32, reply: Reply)
    requires Willing(obliging, replies) && (obliging ==> !IsRefusal(reply))
    ensures Willing(obliging, replies[id := reply])
  {
  }

  lemma {:induction false} Missing(ids: set<u32>, n: nat)
    requires |ids| < n <= U32_LIMIT
    ensures exists id: u32 :: id < n && id !in ids
  {
    var last: u32 := n - 1;
    if last in ids {
      Missing(ids - {last}, n - 1);
      var id: u32 :| id < n - 1 && id !in ids - {last};
      assert id !in ids;
    }
  }

  ghost function IdSet(ids: seq<u32>): set<u32> { set id | id in ids }

  lemma {:induction false} Few(ids: seq<u32>)
    ensures |IdSet(ids)| <= |ids|
  {
    if ids != [] {
      var n := |ids| - 1;
      Few(ids[..n]);
      assert ids == ids[..n] + [ids[n]];
      assert IdSet(ids) == IdSet(ids[..n]) + {ids[n]};
    }
  }

  lemma FewAreFree(ids: seq<u32>, replies: map<u32, Reply>)
    requires |ids| < 1000 && forall id :: id in replies ==> id in ids
    ensures Free(replies)
  {
    Few(ids);
    Missing(IdSet(ids), 1000);
    var id: u32 :| id < 1000 && id !in IdSet(ids);
    assert id !in replies;
  }

  method AnyUpTo(max: nat) returns (n: nat)
    requires max > 0
    ensures 0 < n <= max
  {
    n :| 0 < n <= max;
  }

  // ---- one open file, as the shared channel presents it ----

  /** Replies reach the request they answer and no id is reused while a reply is owed;
      `replies` holds what the server framed for each request still outstanding. The
      server handles requests in the order they are written. */
  class Channel {
    var content: bytes
    var replies: map<u32, Reply>
    const maxSize: nat
    /** Whether FSTAT replies carry the size. */
    const tellsSize: bool
    /** The connection holds, and the server refuses nothing it has room for. */
    const obliging: bool

    ghost predicate Valid()
      reads this
    {
      |content| <= maxSize < U64_LIMIT
    }

    constructor (content: bytes, maxSize: nat, tellsSize: bool, obliging: bool)
      requires |content| <= maxSize < U64_LIMIT
      ensures Valid() && this.content == content && replies == map[]
      ensures this.maxSize == maxSize && this.tellsSize == tellsSize && this.obliging == obliging
    {
      this.content, this.maxSize, this.tellsSize, this.obliging := content, maxSize, tellsSize, obliging;
      this.replies := map[];
    }

    method Fails() returns (f: bool)
      ensures obliging ==> !f
    {
      f := *;
      f := f && !obliging;
    }

    method SendRead(offset: u64, len: u32) returns (r: Result<u32, Error>)
      requires Valid() && len > 0
      modifies this
      ensures Valid() && content == old(content)
      ensures r.Err? ==> replies == old(replies)
      ensures r.Ok? ==> r.value !in old(replies) && r.value in replies
      ensures r.Ok? ==> replies == old(replies)[r.value := replies[r.value]]
      ensures r.Ok? ==> HonestRead(content, offset, len, replies[r.value])
      ensures obliging && Free(old(replies)) ==> r.Ok?
      ensures obliging && r.Ok? ==> !IsRefusal(replies[r.value])
    {
      if id: u32 :| id !in replies {
        var fails := Fails();
        if fails {
          r := Err(Connection);
          return;
        }
        var reply;
        var refuses := Fails();
        if refuses {
          var code: u32 :| code != 0 && code != 1;
          reply := Reply(101, PutU32(code));
          ParseU32Put(code, []);
          assert PutU32(code) + [] == PutU32(code);
        } else if offset >= |content| {
          reply := Reply(101, PutU32(1));
          ParseU32Put(1, []);
          assert PutU32(1) + [] == PutU32(1);
        } else {
          var n := AnyUpTo(Min(len, |content| - offset));
          var d := content[offset..offset + n];
          reply := Reply(103, PutStr(d));
          ParseStringPut(d, []);
          assert PutStr(d) + [] == PutStr(d);
        }
        replies := replies[id := reply];
        r := Ok(id);
      } else {
        r := Err(Connection);
      }
    }

    /** WRITE: applied where asked and acknowledged, or refused, then possibly with part
        of the chunk written. */
    method SendWrite(offset: u64, data: bytes) returns (r: Result<u32, Error>)
      requires Valid() && data != []
      modifies this
      ensures Valid()
      ensures r.Err? ==> content == old(content) && replies == old(replies)
      ensures r.Ok? ==> r.value !in old(replies) && r.value in replies
      ensures r.Ok? ==> replies == old(replies)[r.value := replies[r.value]]
      ensures r.Ok? && IsOk(replies[r.value]) ==>
        content == Overwrite(old(content), offset, data) && offset + |data| <= maxSize
      ensures Touched(old(content), content, offset, offset + |data|)
      ensures obliging && offset + |data| <= maxSize && Free(old(replies)) ==> r.Ok? && IsOk(replies[r.value])
    {
      if id: u32 :| id !in replies {
        var fails := Fails();
        if fails {
          r := Err(Connection);
          return;
        }
        r := Ok(id);
        var code: u32 := *;
        if obliging { code := 0; }
        var full := offset + |data| > maxSize;
        if code == 0 && full { code := 4; }
        ParseU32Put(code, []);
        assert PutU32(code) + [] == PutU32(code);
        replies := replies[id := Reply(101, PutU32(code))];
        var done := data;
        if code != 0 {
          var n :| 0 <= n <= |data|;
          done := if offset + n <= maxSize then data[..n] else [];
        }
        OverwriteTouches(content, offset, done);
        content := Overwrite(content, offset, done);
      } else {
        r := Err(Connection);
      }
    }

    method Wait(id: u32) returns (r: Result<Reply, Error>)
      requires Valid() && id in replies
      modifies this
      ensures Valid() && content == old(content) && replies == old(replies) - {id}
      ensures r.Ok? ==> r.value == old(replies)[id]
      ensures obliging ==> r.Ok?
    {
      var fails := Fails();
      if fails {
        r := Err(Connection);
      } else {
        r := Ok(replies[id]);
      }
      replies := replies - {id};
    }

    method DiscardAll(ids: seq<u32>)
      requires Valid()
      modifies this
      ensures Valid() && content == old(content) && replies == old(replies) - (set id | id in ids)
    {
      replies := replies - (set id | id in ids);
    }

    /** FSTAT: the size, when the server tells. */
    method Stat() returns (size: Result<Option<u64>, Error>)
      requires Valid()
      ensures size.Ok? ==> size.value == if tellsSize then Some(|content|) else None
      ensures size.Err? ==> size.error == Connection
      ensures obliging ==> size.Ok?
    {
      var fails := Fails();
      size := if fails then Err(Connection) else Ok(if tellsSize then Some(|content|) else None);
    }
  }

  // ---- the file ----

  datatype PendingRead = PendingRead(id: u32, offset: u64, len: u32)

  /** The queued requests cover [from, to) in order, without gap or overlap. */
  ghost predicate Tiles(queue: seq<PendingRead>, from: nat, to: nat) {
    if queue == [] then from == to
    else queue[0].offset == from && queue[0].len > 0 && Tiles(queue[1..], from + queue[0].len, to)
  }

  lemma {:induction false} TilesAppend(queue: seq<PendingRead>, from: nat, to: nat, r: PendingRead)
    requires Tiles(queue, from, to) && r.offset == to && r.len > 0
    ensures Tiles(queue + [r], from, to + r.len)
  {
    if queue != [] {
      TilesAppend(queue[1..], from + queue[0].len, to, r);
      assert (queue + [r])[1..] == queue[1..] + [r];
    }
  }

  /** The queued requests are exactly those outstanding, each with an honest answer on
      its way. */
  ghost predicate Queued(queue: seq<PendingRead>, replies: map<u32, Reply>, content: bytes) {
    && |queue| <= 256
    && (forall i, j :: 0 <= i < j < |queue| ==> queue[i].id != queue[j].id)
    && (forall i :: 0 <= i < |queue| ==> queue[i].id in replies && HonestFor(queue[i], replies, content))
    && (forall id :: id in replies ==> exists i :: 0 <= i < |queue| && queue[i].id == id)
  }

  ghost predicate HonestFor(r: PendingRead, replies: map<u32, Reply>, content: bytes)
    requires r.id in replies
  {
    HonestRead(content, r.offset, r.len, replies[r.id])
  }

  lemma QueuedBack(queue: seq<PendingRead>, replies: map<u32, Reply>, content: bytes, r: PendingRead, reply: Reply)
    requires Queued(queue, replies, content) && |queue| < MAX_READS_IN_FLIGHT && r.id !in replies
    requires HonestRead(content, r.offset, r.len, reply)
    ensures Queued(queue + [r], replies[r.id := reply], content)
  {
    var q, m := queue + [r], replies[r.id := reply];
    forall i | 0 <= i < |q|
      ensures q[i].id in m && HonestFor(q[i], m, content)
    {
      assert i < |queue| ==> HonestFor(queue[i], replies, content);
    }
    forall id | id in m
      ensures exists i :: 0 <= i < |q| && q[i].id == id
    {
      if id == r.id {
        assert q[|queue|].id == id;
      } else {
        var i :| 0 <= i < |queue| && queue[i].id == id;
        assert q[i].id == id;
      }
    }
  }

  lemma QueuedFront(queue: seq<PendingRead>, replies: map<u32, Reply>, content: bytes, r: PendingRead, reply: Reply)
    requires Queued(queue, replies, content) && |queue| < MAX_READS_IN_FLIGHT && r.id !in replies
    requires HonestRead(content, r.offset, r.len, reply)
    ensures Queued([r] + queue, replies[r.id := reply], content)
  {
    var q, m := [r] + queue, replies[r.id := reply];
    forall i | 0 <= i < |q|
      ensures q[i].id in m && HonestFor(q[i], m, content)
    {
      assert i > 0 ==> HonestFor(queue[i - 1], replies, content);
    }
    forall id | id in m
      ensures exists i :: 0 <= i < |q| && q[i].id == id
    {
      if id == r.id {
        assert q[0].id == id;
      } else {
        var i :| 0 <= i < |queue| && queue[i].id == id;
        assert q[i + 1].id == id;
      }
    }
  }

  lemma QueuedPop(queue: seq<PendingRead>, replies: map<u32, Reply>, content: bytes)
    requires Queued(queue, replies, content) && queue != []
    ensures |queue| <= MAX_READS_IN_FLIGHT
    ensures queue[0].id in replies && HonestFor(queue[0], replies, content)
    ensures Queued(queue[1..], replies - {queue[0].id}, content)
  {
  }

  function IdsOf(queue: seq<PendingRead>): (ids: seq<u32>)
    ensures |ids| == |queue| && forall i :: 0 <= i < |ids| ==> ids[i] == queue[i].id
  {
    seq(|queue|, i requires 0 <= i < |queue| => queue[i].id)
  }

  lemma QueuedAll(queue: seq<PendingRead>, replies: map<u32, Reply>, content: bytes)
    requires Queued(queue, replies, content)
    ensures replies - (set id | id in IdsOf(queue)) == map[]
  {
  }

  lemma QueuedFree(queue: seq<PendingRead>, replies: map<u32, Reply>, content: bytes)
    requires Queued(queue, replies, content)
    ensures Free(replies)
  {
    FewAreFree(IdsOf(queue), replies);
  }

  ghost predicate StashOk(unread: bytes, pos: nat, content: bytes) {
    unread != [] ==> pos + |unread| <= |content| && unread == content[pos..pos + |unread|]
  }

  lemma NothingUnread(content: bytes)
    ensures forall pos: nat :: StashOk([], pos, content)
  {
  }

  /** How far requests made chunk by chunk from `q` on can get: the last chunk whose end still
      fits the offset type. */
  function Reach(q: u64): nat { q + 32_768 * ((0xFFFF_FFFF_FFFF_FFFF - q) / 32_768) }

  lemma ReachStep(q: u64)
    ensures q <= Reach(q) < U64_LIMIT <= Reach(q) + READ_CHUNK
    ensures q + READ_CHUNK < U64_LIMIT ==> Reach(q + READ_CHUNK) == Reach(q)
    ensures q + READ_CHUNK >= U64_LIMIT ==> Reach(q) == q
  {
  }

  lemma {:induction false} TilesLe(queue: seq<PendingRead>, from: nat, to: nat)
    requires Tiles(queue, from, to)
    ensures from <= to && (queue != [] ==> queue[0].offset == from && from + queue[0].len <= to)
  {
    if queue != [] {
      TilesLe(queue[1..], from + queue[0].len, to);
    }
  }

  lemma NothingQueued(from: nat, to: nat)
    ensures Tiles([], from, to) <==> from == to
  {
  }

  /** The bytes a read of up to `n` at `from` finds when requests reach up to `reach`. */
  function Readable(content: bytes, from: nat, n: nat, reach: nat): nat {
    Min(n, Max(Min(|content|, reach) - from, 0))
  }

  /** `n` bytes were read at `from`: exactly the file's bytes there, nothing else of the
      buffer changed, and the count is what buffer, file and `reach` allow. */
  ghost predicate ReadResult(n: nat, content: bytes, from: nat, to: nat, reach: nat, before: bytes, after: bytes) {
    && |after| == |before| && n == Readable(content, from, |before|, reach) && to == from + n
    && (forall i :: 0 <= i < n ==> after[i] == content[from + i])
    && (forall i :: n <= i < |before| ==> after[i] == before[i])
  }

  datatype SeekTo = Start(offset: u64) | Current(delta: int) | End(delta: int)

  /** Where a seek goes; `checked_add_signed` refuses positions below 0 or past 2^64. */
  function Target(pos: nat, size: nat, to: SeekTo): Option<u64> {
    var t := match to
      case Start(o) => o
      case Current(d) => pos + d
      case End(d) => size + d;
    if 0 <= t < U64_LIMIT then Some(t) else None
  }

  /** A seek means the offset `t`, which need not be one: counted from the start, from the
      position, or from the end of a file of that size. */
  predicate Aims(to: SeekTo, pos: nat, size: nat, t: int) {
    match to
    case Start(offset) => t == offset
    case Current(delta) => t - pos == delta
    case End(delta) => t - size == delta
  }

  /** It aims below 0 or past the largest offset. */
  ghost predicate AimsNowhere(to: SeekTo, pos: nat, size: nat) {
    exists t :: Aims(to, pos, size, t) && !(0 <= t < U64_LIMIT)
  }

  class ExecFile {
    const chan: Channel
    var pos: u64
    var queue: seq<PendingRead>
    var nextReq: u64
    var stash: bytes
    var stashPos: nat
    var stashEnd: nat
    var eof: bool

    /** Holds at every moment, also in the middle of a failed call. */
    ghost predicate Core()
      reads this, chan
    {
      && chan.Valid() && stashPos <= stashEnd <= |stash| && Queued(queue, chan.replies, chan.content)
      && Willing(chan.obliging, chan.replies)
    }

    /** The unread stash holds the bytes at the position, and the queued requests go on
        where it ends, up to the next request. */
    ghost predicate Valid()
      reads this, chan
    {
      && Core()
      && StashOk(stash[stashPos..stashEnd], pos, chan.content)
      && Tiles(queue, pos + (stashEnd - stashPos), nextReq)
      && (eof ==> stashPos == stashEnd && queue == [] && pos >= |chan.content|)
    }

    /** Nothing read ahead, nothing outstanding. */
    ghost predicate Clean()
      reads this, chan
    {
      queue == [] && stash == [] && stashPos == stashEnd == 0 && nextReq == pos && !eof && chan.replies == map[]
    }

    constructor (chan: Channel)
      requires chan.Valid() && chan.replies == map[]
      ensures Valid() && Clean() && this.chan == chan && pos == 0
    {
      this.chan := chan;
      pos, queue, nextReq, stash, stashPos, stashEnd, eof := 0, [], 0, [], 0, 0, false;
    }

    method ResetReadAhead()
      requires Core()
      modifies this, chan
      ensures Valid() && Clean() && pos == old(pos) && chan.content == old(chan.content)
    {
      QueuedAll(queue, chan.replies, chan.content);
      chan.DiscardAll(IdsOf(queue));
      queue, stash, stashPos, stashEnd, nextReq, eof := [], [], 0, 0, pos, false;
    }

    /** Ask for the next chunks up to `limit`, as long as requests may be added and their
        end still fits the offset type. */
    method RequestAhead(limit: u64) returns (r: Result<(), Error>)
      requires Valid() && !eof && stashPos == stashEnd
      modifies this, chan
      ensures Valid() && !eof && stashPos == stashEnd
      ensures pos == old(pos) && chan.content == old(chan.content)
      ensures r.Ok? ==> |queue| >= 256 || nextReq >= limit || nextReq + READ_CHUNK >= U64_LIMIT
      ensures old(nextReq) <= nextReq && Reach(nextReq) == Reach(old(nextReq))
      ensures old(queue) <= queue && (nextReq == old(nextReq) ==> queue == old(queue))
      ensures chan.obliging ==> r.Ok?
    {
      hide HonestRead, Queued, Reach, IsRefusal, Free;
      while |queue| < MAX_READS_IN_FLIGHT && nextReq < limit && nextReq + READ_CHUNK < U64_LIMIT
        invariant Valid() && !eof && stashPos == stashEnd
        invariant pos == old(pos) && chan.content == old(chan.content)
        invariant old(nextReq) <= nextReq && Reach(nextReq) == Reach(old(nextReq))
        invariant old(queue) <= queue && (nextReq == old(nextReq) ==> queue == old(queue))
        decreases limit - nextReq
      {
        ghost var replies := chan.replies;
        QueuedFree(queue, replies, chan.content);
        var id := chan.SendRead(nextReq, READ_CHUNK);
        if id.Err? { return Err(id.error); }
        var req := PendingRead(id.value, nextReq, READ_CHUNK);
        TilesAppend(queue, pos, nextReq, req);
        ReachStep(nextReq);
        QueuedBack(queue, replies, chan.content, req, chan.replies[id.value]);
        queue := queue + [req];
        nextReq := nextReq + READ_CHUNK;
      }
      r := Ok(());
    }

    /** Take the reply to the first queued request into the stash, asking again for
        what a short reply left out. */
    method NextReply() returns (r: Result<(), Error>)
      requires Valid() && !eof && stashPos == stashEnd && queue != []
      modifies this, chan
      ensures Core() && pos == old(pos) && chan.content == old(chan.content)
      ensures r.Ok? ==> Valid() && (eof || (stashPos < stashEnd && nextReq == old(nextReq)))
      ensures chan.obliging ==> r.Ok?
    {
      hide Queued, HonestRead, IsRefusal;
      var req := queue[0];
      QueuedPop(queue, chan.replies, chan.content);
      NotRefused(chan.content, req.offset, req.len, chan.replies[req.id]);
      queue := queue[1..];
      var reply := chan.Wait(req.id);
      if reply.Err? { return Err(reply.error); }
      if reply.value.kind == FXP_DATA {
        r := TakeData(req, reply.value);
      } else if reply.value.kind == FXP_STATUS {
        var code := StatusOf(reply.value);
        if code.Err? { return Err(code.error); }
        if code.value == FX_EOF { EofIsHonest(chan.content, req.offset, req.len, reply.value); }
        ResetReadAhead();
        if code.value != FX_EOF {
          return Err(if code.value == FX_OK then Protocol else Status(code.value));
        }
        eof := true;
        r := Ok(());
      } else {
        r := Err(Protocol);
      }
    }

    method TakeData(req: PendingRead, reply: Reply) returns (r: Result<(), Error>)
      requires Core() && |queue| < MAX_READS_IN_FLIGHT && !eof && stashPos == stashEnd
      requires HonestRead(chan.content, req.offset, req.len, reply) && reply.kind == FXP_DATA
      requires req.offset == pos && req.len > 0 && Tiles(queue, pos + req.len, nextReq)
      modifies this, chan
      ensures Core() && pos == old(pos) && chan.content == old(chan.content)
      ensures r.Ok? ==> Valid() && stashPos < stashEnd && nextReq == old(nextReq) && !eof
      ensures chan.obliging && ParseString(reply.body).Ok? ==> r.Ok?
    {
      hide Queued, HonestRead, ParseString, IsRefusal, Free, Willing;
      var data := ParseString(reply.body);
      if data.Ok? { DataIsHonest(chan.content, req.offset, req.len, reply, data.value.0, data.value.1); }
      if data.Err? || data.value.0 == [] || |data.value.0| > req.len { return Err(Protocol); }
      var got := |data.value.0|;
      if got < req.len {
        if req.offset + got >= U64_LIMIT { return Err(Protocol); }
        ghost var replies := chan.replies;
        QueuedFree(queue, replies, chan.content);
        var id := chan.SendRead(req.offset + got, req.len - got);
        if id.Err? { return Err(id.error); }
        var again := PendingRead(id.value, req.offset + got, req.len - got);
        QueuedFront(queue, replies, chan.content, again, chan.replies[id.value]);
        WillingMore(chan.obliging, replies, id.value, chan.replies[id.value]);
        assert ([again] + queue)[1..] == queue;
        queue := [again] + queue;
      }
      stash, stashPos, stashEnd := reply.body, 4, 4 + got;
      r := Ok(());
    }

    /** Copy what the stash holds, as far as it fits behind `filled`. */
    method CopyOut(out: array<byte>, filled: nat) returns (n: nat)
      requires Valid() && filled < out.Length && stashPos < stashEnd
      modifies this, out
      ensures Valid() && chan.content == old(chan.content) && eof == old(eof) && nextReq == old(nextReq)
      ensures 0 < n <= out.Length - filled && pos == old(pos) + n <= |chan.content|
      ensures filled + n == out.Length || stashPos == stashEnd
      ensures forall i :: filled <= i < filled + n ==> out[i] == chan.content[old(pos) + (i - filled)]
      ensures forall i :: 0 <= i < out.Length && !(filled <= i < filled + n) ==> out[i] == old(out[i])
    {
      hide Queued, Tiles;
      n := Min(stashEnd - stashPos, out.Length - filled);
      ghost var unread := stash[stashPos..stashEnd];
      forall i | filled <= i < filled + n {
        out[i] := stash[stashPos + (i - filled)];
      }
      forall i | filled <= i < filled + n
        ensures out[i] == chan.content[pos + (i - filled)]
      {
        assert unread[i - filled] == stash[stashPos + (i - filled)];
      }
      stashPos := stashPos + n;
      pos := SatAdd(pos, n);
      assert stash[stashPos..stashEnd] == unread[n..];
    }

    /** Ask for more and take the next reply; false when nothing can be asked for. */
    method Refill(limit: u64) returns (r: Result<bool, Error>)
      requires Valid() && !eof && stashPos == stashEnd && (limit > pos || limit == U64_LIMIT - 1)
      modifies this, chan
      ensures Core() && pos == old(pos) && chan.content == old(chan.content)
      ensures r.Ok? ==> Valid() && (eof || Reach(nextReq) == Reach(old(nextReq)))
      ensures r == Ok(true) ==> eof || stashPos < stashEnd
      ensures r == Ok(false) ==> !eof && pos == Reach(nextReq)
      ensures chan.obliging ==> r.Ok?
    {
      hide Queued, StashOk, Reach;
      var asked := RequestAhead(limit);
      if asked.Err? { return Err(asked.error); }
      ReachStep(nextReq);
      if queue == [] {
        NothingQueued(pos + (stashEnd - stashPos), nextReq);
        return Ok(false);
      }
      var got := NextReply();
      r := if got.Err? then Err(got.error) else Ok(true);
    }

    /** The body of `read`; on an error the read-ahead is left for the caller to reset. */
    method ReadStep(out: array<byte>) returns (r: Result<nat, Error>)
      requires Valid()
      modifies this, chan, out
      ensures Core() && chan.content == old(chan.content)
      ensures r.Ok? ==> Valid() && (eof || (!old(eof) && Reach(nextReq) == Reach(old(nextReq))))
      ensures r.Ok? ==> ReadResult(r.value, chan.content, old(pos), pos, Reach(old(nextReq)), old(out[..]), out[..])
      ensures old(pos) <= pos <= old(pos) + out.Length
      ensures chan.obliging ==> r.Ok?
    {
      hide Queued, Tiles, StashOk, Reach, Willing, Free;
      if out.Length == 0 { return Ok(0); }
      var ahead := Min(Max(4 * out.Length, READ_CHUNK), READ_CHUNK * MAX_READS_IN_FLIGHT);
      var limit := SatAdd(pos, Max(ahead, out.Length));
      var filled := 0;
      ghost var reach := Reach(nextReq);
      while true
        invariant Valid() && chan.content == old(chan.content)
        invariant eof || (!old(eof) && Reach(nextReq) == reach)
        invariant filled < out.Length && pos == old(pos) + filled
        invariant filled > 0 ==> pos <= |chan.content| && pos <= reach
        invariant forall i :: 0 <= i < filled ==> out[i] == chan.content[old(pos) + i]
        invariant forall i :: filled <= i < out.Length ==> out[i] == old(out[i])
        decreases out.Length - filled, !eof, stashPos == stashEnd
      {
        TilesLe(queue, pos + (stashEnd - stashPos), nextReq);
        ReachStep(nextReq);
        if stashPos < stashEnd {
          var n := CopyOut(out, filled);
          TilesLe(queue, pos + (stashEnd - stashPos), nextReq);
          filled := filled + n;
          if filled == out.Length { return Ok(filled); }
          continue;
        }
        if eof { return Ok(filled); }
        var more := Refill(limit);
        if more.Err? { return Err(more.error); }
        if !more.value { return Ok(filled); }
      }
    }

    /** `read`: exactly the file's bytes from the position on, as many as the buffer holds, the
        file has, and requests can reach. After an error nothing is read ahead; bytes already
        copied may have moved the position. */
    method Read(out: array<byte>) returns (r: Result<nat, Error>)
      requires Valid()
      modifies this, chan, out
      ensures Valid() && chan.content == old(chan.content)
      ensures r.Ok? ==> eof || (!old(eof) && Reach(nextReq) == Reach(old(nextReq)))
      ensures r.Ok? ==> ReadResult(r.value, chan.content, old(pos), pos, Reach(old(nextReq)), old(out[..]), out[..])
      ensures r.Err? ==> Clean() && old(pos) <= pos <= old(pos) + out.Length
      ensures chan.obliging ==> r.Ok?
    {
      r := ReadStep(out);
      if r.Err? {
        ResetReadAhead();
      }
    }

    /** `wait` for one write and require a STATUS OK. */
    method Acknowledged(ghost ids: seq<u32>, id: u32) returns (failed: Option<Error>)
      requires chan.Valid() && Pipelined(ids, chan.replies) && ids != [] && id == ids[0]
      modifies chan
      ensures chan.Valid() && chan.content == old(chan.content) && chan.replies == old(chan.replies) - {id}
      ensures Pipelined(ids[1..], chan.replies)
      ensures failed.None? && AllOk(ids[1..], chan.replies) ==> AllOk(ids, old(chan.replies))
      ensures AllOk(ids, old(chan.replies)) ==> AllOk(ids[1..], chan.replies) && (chan.obliging ==> failed.None?)
    {
      PipelinedPop(ids, chan.replies);
      var reply := chan.Wait(id);
      if reply.Err? { return Some(reply.error); }
      var code := StatusOf(reply.value);
      if code.Err? { return Some(code.error); }
      failed := if code.value == FX_OK then None else Some(Status(code.value));
    }

    /** Send `buf` in chunks from the position on, at most 64 of them
        unacknowledged at a time. */
    method SendAll(buf: bytes) returns (inFlight: seq<u32>, failed: Option<Error>)
      requires Valid() && Clean() && buf != []
      modifies chan
      ensures chan.Valid() && Pipelined(inFlight, chan.replies) && |inFlight| <= 64
      ensures Touched(old(chan.content), chan.content, pos, pos + |buf|)
      ensures failed.None? && AllOk(inFlight, chan.replies) ==>
        chan.content == Overwrite(old(chan.content), pos, buf) && pos + |buf| < U64_LIMIT
      ensures chan.obliging && pos + |buf| <= chan.maxSize ==> failed.None? && AllOk(inFlight, chan.replies)
    {
      hide IsOk, Overwrite, Touched, AllOk, Queued, Tiles, StashOk, Free;
      ghost var fits := chan.obliging && pos + |buf| <= chan.maxSize;
      inFlight, failed := [], None;
      var offset: u64 := pos;
      var k := 0;
      NoneInFlight(chan.replies);
      NothingWritten(chan.content, pos, pos + |buf|);
      while k < |buf| && failed.None?
        invariant k <= |buf| && pos <= offset <= pos + k
        invariant chan.Valid() && Pipelined(inFlight, chan.replies) && |inFlight| <= MAX_WRITES_IN_FLIGHT
        invariant Touched(old(chan.content), chan.content, pos, pos + |buf|)
        invariant failed.None? && AllOk(inFlight, chan.replies) ==>
          chan.content == Overwrite(old(chan.content), pos, buf[..k]) && offset == pos + k
        invariant fits ==> failed.None? && AllOk(inFlight, chan.replies)
        decreases |buf| - k, failed.None?
      {
        inFlight, failed := MakeRoom(inFlight);
        if failed.Some? { break; }
        var chunk := buf[k..Min(k + WRITE_CHUNK, |buf|)];
        ghost var content := chan.content;
        inFlight, failed := SendChunk(inFlight, offset, chunk);
        TouchedStep(old(chan.content), content, chan.content, pos, pos + |buf|, offset, offset + |chunk|);
        if failed.Some? { break; }
        NextChunk(old(chan.content), pos, buf, k, |chunk|);
        offset := SatAdd(offset, |chunk|);
        k := k + |chunk|;
      }
      assert failed.None? ==> buf[..k] == buf;
    }

    /** Wait for the oldest write where as many as allowed are unacknowledged. */
    method MakeRoom(inFlight: seq<u32>) returns (left: seq<u32>, failed: Option<Error>)
      requires chan.Valid() && Pipelined(inFlight, chan.replies) && |inFlight| <= MAX_WRITES_IN_FLIGHT
      modifies chan
      ensures chan.Valid() && chan.content == old(chan.content) && Pipelined(left, chan.replies)
      ensures |left| <= MAX_WRITES_IN_FLIGHT && (failed.None? ==> |left| < MAX_WRITES_IN_FLIGHT)
      ensures failed.None? && AllOk(left, chan.replies) ==> AllOk(inFlight, old(chan.replies))
      ensures AllOk(inFlight, old(chan.replies)) ==> AllOk(left, chan.replies) && (chan.obliging ==> failed.None?)
    {
      hide AllOk, Pipelined;
      left, failed := inFlight, None;
      if |left| >= MAX_WRITES_IN_FLIGHT {
        failed := Acknowledged(left, left[0]);
        left := left[1..];
      }
    }

    /** Send one chunk. */
    method SendChunk(inFlight: seq<u32>, offset: u64, chunk: bytes) returns (all: seq<u32>, failed: Option<Error>)
      requires chan.Valid() && Pipelined(inFlight, chan.replies) && |inFlight| < 64
      requires 0 < |chunk| <= 32_768
      modifies chan
      ensures chan.Valid() && Pipelined(all, chan.replies) && |all| <= MAX_WRITES_IN_FLIGHT
      ensures Touched(old(chan.content), chan.content, offset, offset + |chunk|)
      ensures failed.None? && AllOk(all, chan.replies) ==>
        && AllOk(inFlight, old(chan.replies))
        && chan.content == Overwrite(old(chan.content), offset, chunk) && offset + |chunk| <= chan.maxSize
      ensures chan.obliging && offset + |chunk| <= chan.maxSize && AllOk(inFlight, old(chan.replies)) ==>
        failed.None? && AllOk(all, chan.replies)
    {
      hide IsOk, Overwrite, Touched, AllOk, Free;
      ghost var replies := chan.replies;
      FewAreFree(inFlight, replies);
      var id := chan.SendWrite(offset, chunk);
      if id.Err? { return inFlight, Some(id.error); }
      PipelinedPush(inFlight, replies, id.value, chan.replies[id.value]);
      all, failed := inFlight + [id.value], None;
    }

    /** Wait for every write, up to the first that failed. */
    method AwaitAll(inFlight: seq<u32>) returns (left: seq<u32>, failed: Option<Error>)
      requires chan.Valid() && Pipelined(inFlight, chan.replies)
      modifies chan
      ensures chan.Valid() && Pipelined(left, chan.replies) && chan.content == old(chan.content)
      ensures failed.None? ==> AllOk(inFlight, old(chan.replies))
      ensures chan.obliging && AllOk(inFlight, old(chan.replies)) ==> failed.None?
    {
      hide IsOk;
      left, failed := inFlight, None;
      while failed.None? && left != []
        invariant chan.Valid() && Pipelined(left, chan.replies) && chan.content == old(chan.content)
        invariant failed.None? && AllOk(left, chan.replies) ==> AllOk(inFlight, old(chan.replies))
        invariant chan.obliging && AllOk(inFlight, old(chan.replies)) ==> failed.None? && AllOk(left, chan.replies)
        decreases |left|, failed.None?
      {
        failed := Acknowledged(left, left[0]);
        left := left[1..];
      }
      assert failed.None? ==> AllOk(left, chan.replies);
    }

    /** `write`: the whole buffer lands at the position and every chunk was acknowledged;
        after an error only bytes of that range can have changed, and the position is
        where it was. */
    method Write(buf: bytes) returns (r: Result<nat, Error>)
      requires Valid()
      modifies this, chan
      ensures Valid() && (buf != [] ==> Clean())
      ensures buf == [] ==> nextReq == old(nextReq) && eof == old(eof)
      ensures r.Ok? ==> r.value == |buf| && pos == old(pos) + |buf|
      ensures r.Ok? ==> chan.content == Overwrite(old(chan.content), old(pos), buf)
      ensures r.Err? ==> pos == old(pos) && Touched(old(chan.content), chan.content, pos, pos + |buf|)
      ensures chan.obliging && (buf == [] || old(pos) + |buf| <= chan.maxSize) ==> r.Ok?
    {
      hide IsOk, Overwrite, Touched;
      NothingWritten(chan.content, pos, pos);
      if buf == [] { return Ok(0); }
      ResetReadAhead();
      var inFlight, failed := SendAll(buf);
      if failed.None? {
        inFlight, failed := AwaitAll(inFlight);
      }
      chan.DiscardAll(inFlight);
      assert chan.replies == map[];
      if failed.Some? { return Err(failed.value); }
      pos := SatAdd(pos, |buf|);
      nextReq := pos;
      r := Ok(|buf|);
    }

    /** `seek`: to the target, or refused and nothing moves; a size the server does not tell
        counts as 0. */
    method Seek(to: SeekTo) returns (r: Result<u64, Error>)
      requires Valid()
      modifies this, chan
      ensures Valid() && chan.content == old(chan.content)
      ensures var target := Target(old(pos), if chan.tellsSize then |chan.content| else 0, to);
        && (r.Ok? ==> target == Some(pos) && pos == r.value)
        && (r.Err? ==>
              pos == old(pos) && ((r.error == InvalidInput && target.None?) || (to.End? && r.error == Connection)))
      ensures var size := if chan.tellsSize then |chan.content| else 0;
        && (r.Ok? ==> Aims(to, old(pos), size, pos) && pos == r.value)
        && (r == Err(InvalidInput) ==> AimsNowhere(to, old(pos), size))
        && (r.Err? && r.error != InvalidInput ==> to.End? && r.error == Connection)
      ensures if pos == old(pos) then nextReq == old(nextReq) && eof == old(eof) else Clean()
      ensures chan.obliging && r.Err? ==> r.error == InvalidInput
    {
      hide Queued, Tiles, StashOk;
      NothingUnread(chan.content);
      var size: u64 := 0;
      if to.End? {
        var st := chan.Stat();
        if st.Err? { return Err(st.error); }
        size := Or(st.value, 0);
      }
      var target := Target(pos, size, to);
      if target.None? {
        NoOffset(to, pos, if chan.tellsSize then |chan.content| else 0);
        return Err(InvalidInput);
      }
      if target.value != pos {
        pos := target.value;
        ResetReadAhead();
      }
      r := Ok(target.value);
    }
  }

  /** A refused seek means an offset below 0 or past the largest one. */
  lemma NoOffset(to: SeekTo, pos: nat, size: nat)
    requires Target(pos, size, to).None?
    ensures AimsNowhere(to, pos, size)
  {
    var t: int := match to
      case Start(offset) => offset
      case Current(delta) => pos + delta
      case End(delta) => size + delta;
    assert Aims(to, pos, size, t);
  }

  // ---- whole runs ----

  datatype Op = ReadOp(n: nat) | WriteOp(data: bytes) | SeekOp(to: SeekTo)

  datatype Answer = Got(data: bytes) | Count(n: nat) | At(pos: nat) | Refused

  /** What an open file means: a byte array with a cursor, and how far requests from there can
      reach. Moving the cursor by a seek or a write looks from the new position. Where the
      server does not tell the size, seeks from the end count from 0. */
  datatype ByteFile = ByteFile(content: bytes, pos: u64, reach: nat, toldSize: bool)

  function MovedTo(f: ByteFile, content: bytes, pos: u64): ByteFile {
    f.(content := content, pos := pos, reach := Reach(pos))
  }

  function SeekTarget(f: ByteFile, to: SeekTo): Option<u64> {
    Target(f.pos, if f.toldSize then |f.content| else 0, to)
  }

  function Answered(f: ByteFile, op: Op): Answer {
    match op
    case ReadOp(n) =>
      var count := Readable(f.content, f.pos, n, f.reach);
      Got(if count == 0 then [] else f.content[f.pos..f.pos + count])
    case WriteOp(data) => Count(|data|)
    case SeekOp(to) =>
      var t := SeekTarget(f, to);
      if t.Some? then At(t.value) else Refused
  }

  /** The file after an operation; a write that would pass the largest offset fails instead. */
  function After(f: ByteFile, op: Op): ByteFile {
    match op
    case ReadOp(n) => f.(pos := SatAdd(f.pos, Readable(f.content, f.pos, n, f.reach)))
    case WriteOp(data) =>
      if data == [] then f else MovedTo(f, Overwrite(f.content, f.pos, data), SatAdd(f.pos, |data|))
    case SeekOp(to) =>
      var t := SeekTarget(f, to);
      if t.Some? && t.value != f.pos then MovedTo(f, f.content, t.value) else f
  }

  function AfterAll(f: ByteFile, ops: seq<Op>): ByteFile {
    if ops == [] then f else After(AfterAll(f, ops[..|ops| - 1]), ops[|ops| - 1])
  }

  /** What a plain array with a cursor answers to a read. */
  function ArrayRead(f: ByteFile, n: nat): Answer {
    Got(if f.pos >= |f.content| then [] else f.content[f.pos..Min(f.pos + n, |f.content|)])
  }

  /** A read is that of a plain array exactly when what it asks for, or the file, ends within
      reach, or nothing is left to read. */
  lemma ReadsAsArray(f: ByteFile, n: nat)
    ensures Answered(f, ReadOp(n)) == ArrayRead(f, n) <==>
      n == 0 || f.pos >= |f.content| || Min(f.pos + n, |f.content|) <= f.reach
  {
    var count := Readable(f.content, f.pos, n, f.reach);
    if f.pos < |f.content| {
      assert |ArrayRead(f, n).data| == Min(f.pos + n, |f.content|) - f.pos;
      assert |Answered(f, ReadOp(n)).data| == count;
    }
  }

  /** After a seek or a write the reach is everything but at most the last chunk of the offset
      space; so a file that leaves that chunk free is a plain array. */
  lemma ReachOfMove(f: ByteFile, content: bytes, pos: u64)
    ensures MovedTo(f, content, pos).reach + READ_CHUNK >= U64_LIMIT
    ensures |content| + READ_CHUNK <= U64_LIMIT ==> |content| <= MovedTo(f, content, pos).reach
  {
    ReachStep(pos);
  }

  /** Every read of a run on a file that stays below the last chunk is that of a plain array. */
  lemma {:induction false} SmallFilesAreArrays(f: ByteFile, ops: seq<Op>, k: nat, n: nat)
    requires k <= |ops| && f.reach + READ_CHUNK >= U64_LIMIT
    requires |AfterAll(f, ops[..k]).content| + READ_CHUNK <= U64_LIMIT
    ensures Answered(AfterAll(f, ops[..k]), ReadOp(n)) == ArrayRead(AfterAll(f, ops[..k]), n)
  {
    ReachStays(f, ops[..k]);
    ReadsAsArray(AfterAll(f, ops[..k]), n);
  }

  lemma {:induction false} ReachStays(f: ByteFile, ops: seq<Op>)
    requires f.reach + READ_CHUNK >= U64_LIMIT
    ensures AfterAll(f, ops).reach + READ_CHUNK >= U64_LIMIT
  {
    if ops != [] {
      hide Reach, Overwrite, SeekTarget;
      var before, op := AfterAll(f, ops[..|ops| - 1]), ops[|ops| - 1];
      ReachStays(f, ops[..|ops| - 1]);
      ReachStep(After(before, op).pos);
    }
  }

  /** An open file is the byte file it stands for; at its end the reach no longer matters. */
  ghost predicate Stands(f: ExecFile, b: ByteFile)
    reads f, f.chan
  {
    && f.chan.content == b.content && f.pos == b.pos && f.chan.tellsSize == b.toldSize
    && (f.eof || Reach(f.nextReq) == b.reach)
  }

  function Meaning(f: ExecFile): ByteFile
    reads f, f.chan
  {
    ByteFile(f.chan.content, f.pos, Reach(f.nextReq), f.chan.tellsSize)
  }

  /** Every read was answered as a plain array with a cursor answers it. */
  ghost predicate AsArray(start: ByteFile, ops: seq<Op>, answers: seq<Answer>) {
    forall i :: 0 <= i < |answers| && i < |ops| && ops[i].ReadOp? ==>
      answers[i] == ArrayRead(AfterAll(start, ops[..i]), ops[i].n)
  }

  /** Every operation was answered as the byte file answers it. */
  ghost predicate AsFile(start: ByteFile, ops: seq<Op>, answers: seq<Answer>) {
    forall i :: 0 <= i < |answers| && i < |ops| ==> answers[i] == Answered(AfterAll(start, ops[..i]), ops[i])
  }

  /** What one operation does to a file and answers, byte by byte. A read gets the file's bytes
      from the cursor on, and short of what it asked for only at the end of the file or of what
      can be reached. A write puts its bytes at the cursor and moves no other, zeros filling a
      gap. A seek moves the cursor to where it aims, or is refused when that is no offset. */
  ghost predicate Did(f: ByteFile, op: Op, answer: Answer, g: ByteFile) {
    && g.toldSize == f.toldSize
    && match op
      case ReadOp(n) =>
        && answer.Got? && |answer.data| <= n && g == f.(pos := g.pos) && g.pos == f.pos + |answer.data|
        && (forall i :: 0 <= i < |answer.data| ==>
              f.pos + i < |f.content| && answer.data[i] == f.content[f.pos + i])
        && (|answer.data| < n ==> g.pos >= |f.content| || g.pos >= f.reach)
      case WriteOp(data) =>
        && answer == Count(|data|) && g.pos == f.pos + |data| && (data == [] ==> g == f)
        && (data != [] ==> |g.content| == Max(|f.content|, f.pos + |data|))
        && (forall i :: 0 <= i < |data| ==> g.content[f.pos + i] == data[i])
        && (data != [] ==> forall i :: 0 <= i < |g.content| && !(f.pos <= i < f.pos + |data|) ==>
              g.content[i] == if i < |f.content| then f.content[i] else 0)
      case SeekOp(to) =>
        && g.content == f.content
        && var size := if f.toldSize then |f.content| else 0;
          if answer.At? then answer.pos == g.pos && Aims(to, f.pos, size, g.pos)
          else answer.Refused? && g == f && AimsNowhere(to, f.pos, size)
  }

  lemma FileDid(f: ByteFile, op: Op)
    requires f.reach < U64_LIMIT && (op.WriteOp? ==> f.pos + |op.data| < U64_LIMIT)
    ensures Did(f, op, Answered(f, op), After(f, op))
  {
    hide Did, Answered, After;
    match op
    case ReadOp(n) => ReadDid(f, n);
    case WriteOp(data) => WriteDid(f, data);
    case SeekOp(to) => SeekDid(f, to);
  }

  lemma ReadDid(f: ByteFile, n: nat)
    requires f.reach < U64_LIMIT
    ensures Did(f, ReadOp(n), Answered(f, ReadOp(n)), After(f, ReadOp(n)))
  {
  }

  lemma WriteDid(f: ByteFile, data: bytes)
    requires f.pos + |data| < U64_LIMIT
    ensures Did(f, WriteOp(data), Answered(f, WriteOp(data)), After(f, WriteOp(data)))
  {
    hide Overwrite, Reach;
    OverwriteBytes(f.content, f.pos, data);
  }

  lemma SeekDid(f: ByteFile, to: SeekTo)
    ensures Did(f, SeekOp(to), Answered(f, SeekOp(to)), After(f, SeekOp(to)))
  {
    hide Reach;
    var size: nat := if f.toldSize then |f.content| else 0;
    if SeekTarget(f, to).None? {
      NoOffset(to, f.pos, size);
    } else {
      assert Aims(to, f.pos, size, After(f, SeekOp(to)).pos);
    }
  }

  lemma OverwriteBytes(c: bytes, offset: nat, data: bytes)
    ensures data != [] ==> |Overwrite(c, offset, data)| == Max(|c|, offset + |data|)
    ensures forall i :: 0 <= i < |data| ==>
      offset + i < |Overwrite(c, offset, data)| && Overwrite(c, offset, data)[offset + i] == data[i]
    ensures data != [] ==> forall i :: 0 <= i < |Overwrite(c, offset, data)| && !(offset <= i < offset + |data|) ==>
      Overwrite(c, offset, data)[i] == if i < |c| then c[i] else 0
  {
  }

  /** Every operation of a run did what it says. */
  ghost predicate AllDid(start: ByteFile, ops: seq<Op>, answers: seq<Answer>) {
    |answers| <= |ops| && forall i :: 0 <= i < |answers| ==>
      Did(AfterAll(start, ops[..i]), ops[i], answers[i], AfterAll(start, ops[..i + 1]))
  }

  lemma OneMoreDid(start: ByteFile, ops: seq<Op>, answers: seq<Answer>, answer: Answer)
    requires AllDid(start, ops, answers) && |answers| < |ops|
    requires var now := AfterAll(start, ops[..|answers|]); Did(now, ops[|answers|], answer, After(now, ops[|answers|]))
    ensures AllDid(start, ops, answers + [answer])
  {
    hide Did, After;
    var k := |answers|;
    assert ops[..k + 1][..k] == ops[..k];
  }

  lemma {:induction false} ReachBelow(f: ByteFile, ops: seq<Op>)
    requires f.reach < U64_LIMIT
    ensures AfterAll(f, ops).reach < U64_LIMIT
  {
    if ops != [] {
      ReachBelow(f, ops[..|ops| - 1]);
      ReachStep(AfterAll(f, ops).pos);
    }
  }

  /** What was written is read back, as far as requests reach. */
  lemma ReadBack(f: ByteFile, data: bytes)
    requires data != [] && f.pos + |data| < U64_LIMIT
    ensures var g := After(After(f, WriteOp(data)), SeekOp(Start(f.pos)));
      && g.pos == f.pos
      && (Answered(g, ReadOp(|data|)) == Got(data) <==> f.pos + |data| <= Reach(f.pos))
  {
    hide Reach;
    var w := After(f, WriteOp(data));
    var g := After(w, SeekOp(Start(f.pos)));
    OverwriteBytes(f.content, f.pos, data);
    var got := Answered(g, ReadOp(|data|)).data;
    assert f.pos + |data| <= g.reach ==> got == data;
  }

  lemma OneMoreAnswer(start: ByteFile, ops: seq<Op>, answers: seq<Answer>, answer: Answer)
    requires |answers| < |ops| && AsFile(start, ops, answers)
    requires answer == Answered(AfterAll(start, ops[..|answers|]), ops[|answers|])
    ensures AsFile(start, ops, answers + [answer])
    ensures AfterAll(start, ops[..|answers| + 1]) == After(AfterAll(start, ops[..|answers|]), ops[|answers|])
  {
    hide Answered, After;
    var k := |answers|;
    assert AfterAll(start, ops[..k + 1]) == After(AfterAll(start, ops[..k]), ops[k]) by {
      assert ops[..k + 1][..k] == ops[..k];
    }
    hide AfterAll;
  }

  lemma OneMoreRead(start: ByteFile, ops: seq<Op>, answers: seq<Answer>, answer: Answer)
    requires |answers| < |ops| && AsArray(start, ops, answers)
    requires answer == Answered(AfterAll(start, ops[..|answers|]), ops[|answers|])
    requires start.reach + READ_CHUNK >= U64_LIMIT
    requires |AfterAll(start, ops[..|answers|]).content| + READ_CHUNK <= U64_LIMIT
    ensures AsArray(start, ops, answers + [answer])
  {
    hide Answered, After, AfterAll, ArrayRead;
    var k := |answers|;
    if ops[k].ReadOp? { SmallFilesAreArrays(start, ops, k, ops[k].n); }
  }

  /** A write ends within the largest file the server keeps. */
  predicate HasRoom(f: ByteFile, op: Op, maxSize: nat) {
    op.WriteOp? && op.data != [] ==> f.pos + |op.data| <= maxSize
  }

  predicate AllHaveRoom(start: ByteFile, ops: seq<Op>, maxSize: nat) {
    forall k :: 0 <= k < |ops| ==> HasRoom(AfterAll(start, ops[..k]), ops[k], maxSize)
  }

  /** Any run of reads, writes and seeks gives the answers of a byte array with a cursor, and does
      to it what each operation says, up to the first error; the server may cut every reply as
      short as it likes. Reads of files that leave the last chunk of the offset space free are
      those of a plain array. With an obliging server no run fails whose writes it has room for. */
  method Run(f: ExecFile, ops: seq<Op>) returns (answers: seq<Answer>, failed: bool)
    requires f.Valid()
    modifies f, f.chan
    ensures f.Valid() && |answers| <= |ops| && (!failed ==> |answers| == |ops|)
    ensures AsFile(old(Meaning(f)), ops, answers)
    ensures f.chan.maxSize + READ_CHUNK <= U64_LIMIT ==> AsArray(old(Meaning(f)), ops, answers)
    ensures AllDid(old(Meaning(f)), ops, answers)
    ensures !failed ==> Stands(f, AfterAll(old(Meaning(f)), ops))
    ensures f.chan.obliging && AllHaveRoom(old(Meaning(f)), ops, f.chan.maxSize) ==> !failed
  {
    hide Queued, Tiles, StashOk, Answered, After, Reach, AsFile, AsArray, AllDid, Did;
    answers, failed := [], false;
    ghost var start := Meaning(f);
    ReachStep(f.nextReq);
    NoAnswers(start, ops);
    while |answers| < |ops|
      invariant f.Valid() && |answers| <= |ops| && AsFile(start, ops, answers) && AllDid(start, ops, answers)
      invariant Stands(f, AfterAll(start, ops[..|answers|]))
      invariant f.chan.maxSize + READ_CHUNK <= U64_LIMIT ==> AsArray(start, ops, answers)
    {
      var k := |answers|;
      ghost var now := AfterAll(start, ops[..k]);
      var answer, bad := Step(f, ops[k], now);
      if bad { return answers, true; }
      OneMoreAnswer(start, ops, answers, answer);
      ReachBelow(start, ops[..k]);
      FileDid(now, ops[k]);
      OneMoreDid(start, ops, answers, answer);
      if f.chan.maxSize + READ_CHUNK <= U64_LIMIT { OneMoreRead(start, ops, answers, answer); }
      answers := answers + [answer];
    }
    assert ops[..|ops|] == ops;
  }

  lemma NoAnswers(start: ByteFile, ops: seq<Op>)
    ensures AllDid(start, ops, []) && AsFile(start, ops, []) && AsArray(start, ops, [])
    ensures AfterAll(start, ops[..0]) == start
  {
  }

  /** Read into a fresh buffer of `n` bytes. */
  method ReadBytes(f: ExecFile, n: nat) returns (r: Result<bytes, Error>)
    requires f.Valid()
    modifies f, f.chan
    ensures f.Valid() && f.chan.content == old(f.chan.content)
    ensures r.Ok? ==> f.eof || (!old(f.eof) && Reach(f.nextReq) == Reach(old(f.nextReq)))
    ensures r.Ok? ==> f.pos == old(f.pos) + |r.value|
    ensures r.Ok? ==> |r.value| == Readable(f.chan.content, old(f.pos), n, Reach(old(f.nextReq)))
    ensures r.Ok? && r.value != [] ==> r.value == f.chan.content[old(f.pos)..f.pos]
    ensures f.chan.obliging ==> r.Ok?
  {
    hide Queued, Tiles, StashOk, Reach;
    var out := new byte[n](_ => 0);
    var count := f.Read(out);
    if count.Err? { return Err(count.error); }
    r := Ok(out[..count.value]);
  }

  method Step(f: ExecFile, op: Op, ghost now: ByteFile) returns (answer: Answer, failed: bool)
    requires f.Valid() && Stands(f, now)
    modifies f, f.chan
    ensures f.Valid()
    ensures !failed ==> answer == Answered(now, op) && Stands(f, After(now, op))
    ensures !failed && op.WriteOp? ==> now.pos + |op.data| < U64_LIMIT
    ensures f.chan.obliging && HasRoom(now, op, f.chan.maxSize) ==> !failed
  {
    hide Overwrite, Queued, Tiles, StashOk, Reach;
    answer, failed := Refused, false;
    match op
    case ReadOp(n) =>
      assert f.eof ==>
        Readable(f.chan.content, f.pos, n, Reach(f.nextReq)) == Readable(f.chan.content, f.pos, n, now.reach) == 0;
      var r := ReadBytes(f, n);
      if r.Err? { return answer, true; }
      answer := Got(r.value);
    case WriteOp(data) =>
      NothingWritten(f.chan.content, f.pos, f.pos);
      var r := f.Write(data);
      if r.Err? { return answer, true; }
      answer := Count(r.value);
    case SeekOp(to) =>
      var r := f.Seek(to);
      if r.Err? && r.error != InvalidInput { return answer, true; }
      if r.Ok? { answer := At(r.value); }
  }
}
