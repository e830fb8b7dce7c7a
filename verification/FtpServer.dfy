/** An honest FTP server as the other end of one control connection: one final reply
    per command, transfers that end with exactly one more, and a restart marker. Every
    choice a real server or network may make is left open. */
module FtpServer {
  import opened Common

  type Path = string

  datatype Command =
    | Epsv | Pasv
    | Rest(offset: nat)
    | Retr(path: Path)
    | Stor(path: Path)
    | Appe(path: Path)
    | Listing(path: Path)
    | Size(path: Path)
    | Other(line: string)
  {
    predicate IsTransfer() { Retr? || Stor? || Appe? || Listing? }

    predicate IsUpload() { Stor? || Appe? }
  }

  /** A text that is no more than one line of a control connection. */
  predicate IsOneLine(s: string) {
    forall i :: 0 <= i < |s| ==> s[i] as int != 0 && s[i] as int != 10 && s[i] as int != 13
  }

  /** A command whose line carries no second one. */
  predicate OneLine(c: Command) {
    && (c.Other? ==> IsOneLine(c.line))
    && (c.Retr? || c.Stor? || c.Appe? || c.Listing? || c.Size? ==> IsOneLine(c.path))
  }

  /** `command` tells which command the reply belongs to (its number on this
      connection); no client code looks at it. */
  datatype Reply = Reply(code: nat, value: Option<nat>, command: nat)

  /** A transfer whose final reply has not been sent: what a download still has to
      deliver, or what an upload has received. */
  datatype Transfer = Transfer(command: nat, stream: bytes, aborted: bool, start: nat)

  function Class(code: nat): nat { code / 100 }

  function From(content: bytes, offset: nat): bytes {
    if offset >= |content| then [] else content[offset..]
  }

  function Slice(content: bytes, offset: nat, length: nat): bytes {
    var rest := From(content, offset);
    if length >= |rest| then rest else rest[..length]
  }

  function FileAt(files: map<Path, bytes>, path: Path): bytes {
    if path in files then files[path] else []
  }

  /** The restart marker after a command and the code of its reply: transfers use it up, and a
      server that is not `sticky` forgets it at the next command of any kind. */
  function MarkerAfter(sticky: bool, m: nat, c: Command, code: nat): nat {
    if c.Rest? && code == 350 then c.offset else if c.IsTransfer() || !sticky then 0 else m
  }

  /** The file after `data` was stored from the marker on: APPE appends, STOR without a
      marker replaces, STOR behind a marker keeps what is before it and may keep or cut
      what is behind the data. */
  predicate Placed(before: bytes, after: bytes, c: Command, start: nat, data: bytes)
    requires c.IsUpload()
  {
    if c.Appe? then after == before + data
    else if start == 0 then after == data
    else
      var head := if start <= |before| then before[..start] else before + Zeros(start - |before|);
      after == head + data || after == head + data + From(before, start + |data|)
  }

  /** What a server has been through: its commands, the files each of them found, and the files
      now. */
  datatype Past = Past(log: seq<Command>, seen: seq<map<Path, bytes>>, files: map<Path, bytes>)

  /** The files found by command `n`, or the present ones if it has not come yet. */
  function FilesAt(p: Past, n: nat): map<Path, bytes> { if n < |p.seen| then p.seen[n] else p.files }

  /** `b` comes after `a`; files change only by commands. */
  ghost predicate Later(a: Past, b: Past) {
    && |a.seen| == |a.log| && |b.seen| == |b.log| && a.log <= b.log && a.seen <= b.seen
    && FilesAt(b, |a.log|) == a.files
  }

  lemma LaterStep(a: Past, b: Past, c: Past)
    requires Later(a, b) && Later(b, c)
    ensures Later(a, c)
  {
  }

  lemma Advance(p: Past, q: Past)
    requires Later(p, q)
    ensures |p.log| <= |q.log| && |p.seen| == |p.log| && FilesAt(p, |p.log|) == p.files && p.log <= q.log
  {
  }

  /** A transfer may change files after its command. */
  lemma LaterWrite(a: Past, b: Past, c: Past)
    requires Later(a, b) && |a.log| < |b.log| && c.log == b.log && c.seen == b.seen
    ensures Later(a, c)
  {
  }

  lemma FilesStay(a: Past, b: Past, n: nat)
    requires Later(a, b) && n <= |a.log|
    ensures FilesAt(b, n) == FilesAt(a, n)
  {
  }

  /** The reply of a server that does everything asked of it. */
  function ObligingCode(c: Command): nat {
    match c
    case Epsv => 229
    case Pasv => 227
    case Rest(_) => 350
    case Size(_) => 213
    case Other(_) => 200
    case _ => 150
  }

  type Listings = (map<Path, bytes>, Path) -> bytes

  /** What a command outside transfers does to the files, given its number. */
  type Effects = (nat, map<Path, bytes>, string) -> map<Path, bytes>

  class Server {
    var files: map<Path, bytes>
    var log: seq<Command>            // every command received
    var owed: seq<Reply>             // replies sent and not read yet
    var transfer: Option<Transfer>   // a transfer still to be concluded
    var marker: nat                  // restart offset for the next transfer
    var closed: bool                 // said 421 and hung up
    ghost var seen: seq<map<Path, bytes>>  // the files each command found
    const sticky: bool               // the marker survives commands other than transfers
    const obliging: bool             // does everything asked of it, over a network that never fails
    const listing: Listings          // what a folder's listing says
    const effect: Effects            // what other commands do

    ghost predicate Valid()
      reads this
    {
      && (transfer.Some? ==> transfer.value.command == |log| - 1 >= 0 && log[transfer.value.command].IsTransfer())
      && |owed| <= 1 && (owed != [] ==> owed[0].command == |log| - 1)
      && |seen| == |log|
      && (obliging && transfer.Some? ==> !transfer.value.aborted)
    }

    constructor (files: map<Path, bytes>, sticky: bool, obliging: bool, listing: Listings, effect: Effects)
      ensures Valid() && this.files == files && this.sticky == sticky && this.obliging == obliging
      ensures this.listing == listing && this.effect == effect
      ensures owed == [] && transfer.None? && marker == 0 && !closed
    {
      this.files, this.sticky, this.obliging, this.listing, this.effect := files, sticky, obliging, listing, effect;
      log, seen, owed, transfer, marker, closed := [], [], [], None, 0, false;
    }

    ghost function Now(): Past
      reads this
    {
      Past(log, seen, files)
    }

    /** The network fails, or the client gives up, at any moment. */
    method Fails() returns (f: bool)
      ensures obliging ==> !f
    {
      f := *;
      f := f && !obliging;
    }

    /** Nothing is owed and no transfer is open: the only moments at which a client
        following the protocol sends a command. */
    ghost predicate InSync()
      reads this
    {
      owed == [] && transfer.None?
    }

    /** A command line arrives, never more than one. Unless the server has hung up it sends one reply at
        once: 1xx announces a transfer, 350 accepts a restart marker, 229/227 name a
        data port, 213 tells a size truthfully. */
    method Receive(c: Command)
      requires Valid() && (closed || InSync()) && OneLine(c)
      modifies this
      ensures Valid()
      ensures !old(closed) ==>
        files == if c.Other? then effect(|old(log)|, old(files), c.line) else old(files)
      ensures old(closed) ==> closed && log == old(log) && seen == old(seen) && files == old(files)
      ensures old(closed) ==> owed == old(owed) && transfer == old(transfer) && marker == old(marker)
      ensures !old(closed) ==> log == old(log) + [c] && seen == old(seen) + [old(files)]
      ensures !old(closed) ==> |owed| == 1 && owed[0].command == |old(log)| && (closed <==> owed[0].code == 421)
      ensures !old(closed) && obliging ==> owed[0].code == ObligingCode(c) && owed[0].value.Some?
      ensures !old(closed) && Class(owed[0].code) == 1 ==>
        c.IsTransfer() && transfer.Some? && transfer.value.command == |old(log)|
      ensures !old(closed) && Class(owed[0].code) == 1 && c.Retr? ==>
        !transfer.value.aborted && transfer.value.stream == From(FileAt(files, c.path), old(marker))
      ensures !old(closed) && Class(owed[0].code) == 1 && c.Listing? ==>
        !transfer.value.aborted && transfer.value.stream == listing(files, c.path)
      ensures !old(closed) && Class(owed[0].code) == 1 && c.IsUpload() ==>
        transfer.value.stream == [] && transfer.value.start == old(marker)
      ensures !old(closed) && Class(owed[0].code) != 1 ==> transfer.None?
      ensures !old(closed) && Class(owed[0].code) == 2 && c.Retr? ==> From(FileAt(files, c.path), old(marker)) == []
      ensures !old(closed) && Class(owed[0].code) == 2 && c.Listing? ==> listing(files, c.path) == []
      ensures !old(closed) && c.Size? && owed[0].code == 213 && owed[0].value.Some? ==>
        owed[0].value.value == |FileAt(files, c.path)|
      ensures !old(closed) ==> marker == MarkerAfter(sticky, old(marker), c, owed[0].code)
    {
      hide MarkerAfter, From, FileAt;
      if closed { return; }
      var k := |log|;
      var code, value := Judge(c);
      log, seen := log + [c], seen + [files];
      if Class(code) == 1 {
        var stream := if c.Retr? then From(FileAt(files, c.path), marker)
          else if c.Listing? then listing(files, c.path)
          else [];
        transfer := Some(Transfer(k, stream, false, marker));
      }
      marker := MarkerAfter(sticky, marker, c, code);
      if c.Other? { files := effect(k, files, c.line); }
      closed := code == 421;
      owed := [Reply(code, value, k)];
    }

    /** The code of the reply to a command, and the number it carries. */
    method Judge(c: Command) returns (code: nat, value: Option<nat>)
      ensures Class(code) == 1 ==> c.IsTransfer()
      ensures Class(code) == 2 && c.Retr? ==> From(FileAt(files, c.path), marker) == []
      ensures Class(code) == 2 && c.Listing? ==> listing(files, c.path) == []
      ensures code == 213 && c.Size? && value.Some? ==> value.value == |FileAt(files, c.path)|
      ensures obliging ==> code == ObligingCode(c) && value.Some?
    {
      code, value := *, *;
      if obliging { code, value := ObligingCode(c), Some(0); }
      if Class(code) == 1 && !c.IsTransfer() { code := 500; }
      if c.Retr? && Class(code) == 2 && From(FileAt(files, c.path), marker) != [] { code := 550; }
      if c.Listing? && Class(code) == 2 && listing(files, c.path) != [] { code := 550; }
      if c.Size? && code == 213 && value.Some? { value := Some(|FileAt(files, c.path)|); }
    }

    /** The client reads the next reply. With nothing sent yet, a transfer whose data
        connection has ended is concluded now; otherwise nothing will ever come. */
    method Next(dataEnded: bool) returns (r: Option<Reply>)
      requires Valid()
      modifies this
      ensures Valid() && log == old(log) && seen == old(seen) && marker == old(marker)
      ensures obliging && old(owed) == [] && r.Some? ==> Class(r.value.code) == 2
      ensures old(owed) != [] ==> r == Some(old(owed)[0]) && owed == old(owed)[1..]
      ensures old(owed) != [] ==> transfer == old(transfer) && files == old(files) && closed == old(closed)
      ensures old(owed) == [] ==> owed == [] && (r.Some? <==> old(transfer).Some? && dataEnded && !old(closed))
      ensures old(owed) == [] && r.None? ==> transfer == old(transfer) && files == old(files) && closed == old(closed)
      ensures old(owed) == [] && r.Some? ==>
        transfer.None? && Concluded(old(files), files, log, old(transfer).value, r.value)
      ensures old(owed) == [] && r.Some? ==> (closed <==> r.value.code == 421)
    {
      if owed != [] {
        r, owed := Some(owed[0]), owed[1..];
        return;
      }
      if transfer.None? || !dataEnded || closed { return None; }
      var t := transfer.value;
      var c := log[t.command];
      transfer := None;
      var code: nat := *;
      if Class(code) == 1 { code := 226; }
      if t.aborted && Class(code) == 2 { code := 451; }
      if obliging { code := 226; }
      if c.IsUpload() {
        var kept := t.stream;
        if Class(code) != 2 {
          var n :| 0 <= n <= |t.stream|;
          kept := t.stream[..n];
        }
        var before := FileAt(files, c.path);
        var after := if c.Appe? then before + kept
          else if t.start == 0 then kept
          else (if t.start <= |before| then before[..t.start] else before + Zeros(t.start - |before|)) + kept;
        var keepsTail: bool := *;
        if c.Stor? && t.start > 0 && keepsTail { after := after + From(before, t.start + |kept|); }
        assert kept <= t.stream && Placed(before, after, c, t.start, kept);
        files := files[c.path := after];
      }
      closed := code == 421;
      r := Some(Reply(code, None, t.command));
    }

    /** Read up to `n` bytes of a download, less at its end. The server may abort. */
    method DataRead(n: nat) returns (got: bytes)
      requires Valid() && transfer.Some?
      modifies this
      ensures Valid() && Now() == old(Now()) && owed == old(owed)
      ensures marker == old(marker) && closed == old(closed)
      ensures transfer.Some? && transfer.value ==
        old(transfer.value).(stream := transfer.value.stream, aborted := transfer.value.aborted)
      ensures |got| <= n && got + transfer.value.stream <= old(transfer.value.stream)
      ensures |got| < n ==> transfer.value.stream == []
      ensures !transfer.value.aborted ==>
        !old(transfer.value.aborted) && got + transfer.value.stream == old(transfer.value.stream)
    {
      var t := transfer.value;
      var aborts := Fails();
      if aborts {
        var k :| 0 <= k <= |t.stream|;
        t := t.(stream := t.stream[..k], aborted := true);
      }
      if n < |t.stream| {
        got := t.stream[..n];
        t := t.(stream := t.stream[n..]);
      } else {
        got := t.stream;
        t := t.(stream := []);
      }
      transfer := Some(t);
    }

    /** Send `data` of an upload; on failure only part of it may have arrived. */
    method DataWrite(data: bytes) returns (ok: bool)
      requires Valid() && transfer.Some? && transfer.value.stream == []
      modifies this
      ensures Valid() && Now() == old(Now()) && owed == old(owed)
      ensures marker == old(marker) && closed == old(closed)
      ensures transfer.Some? && transfer.value == old(transfer.value).(stream := transfer.value.stream)
      ensures transfer.value.stream <= data && (ok ==> transfer.value.stream == data)
      ensures obliging ==> ok
    {
      var fails := Fails();
      ok := !fails;
      var got := data;
      if !ok {
        var k :| 0 <= k <= |data|;
        got := data[..k];
      }
      transfer := Some(transfer.value.(stream := got));
    }
  }

  /** How a transfer ends: a final reply of its own command, never a success for one the
      server cut short; an upload reported as done stored every byte received, any other
      at most the first part of them. */
  ghost predicate Concluded(before: map<Path, bytes>, after: map<Path, bytes>, log: seq<Command>, t: Transfer,
      r: Reply)
    requires t.command < |log|
  {
    var c := log[t.command];
    && r.command == t.command && Class(r.code) != 1
    && (t.aborted ==> Class(r.code) != 2)
    && (!c.IsUpload() ==> after == before)
    && (c.IsUpload() ==> c.path in after && after == before[c.path := after[c.path]])
    && (c.IsUpload() && Class(r.code) == 2 ==> Placed(FileAt(before, c.path), after[c.path], c, t.start, t.stream))
    && (c.IsUpload() ==>
          exists kept :: kept <= t.stream && Placed(FileAt(before, c.path), after[c.path], c, t.start, kept))
  }
}
