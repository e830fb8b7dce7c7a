/** The FTP control connection, with a download that may stay open from one call to
    the next. */
module FtpConn {
  import opened Common
  import opened FtpServer

  const CHUNK: nat := 8 * 1024
  const MAX_LISTING_BYTES: nat := 64 * 1024 * 1024

  datatype Error =
    | Refused(reply: Reply)     // the server's reply was not the one wanted
    | BadArgument               // CR, LF or NUL in an argument
    | BadOffset                 // the remote file has another size
    | RestRefused
    | EndedEarly
    | Malformed
    | Io

  function ReplyCode(e: Error): Option<nat> { if e.Refused? then Some(e.reply.code) else None }

  datatype ActiveRetr = ActiveRetr(path: Path, nextOffset: nat)

  datatype TransferStart = Data | Finished | RestRejected

  /** `check_arg`: arguments that could carry a second command are refused. */
  predicate CleanArg(s: string) { '\r' !in s && '\n' !in s && '\0' !in s }

  function ArgOf(c: Command): string {
    match c
    case Retr(p) => p
    case Stor(p) => p
    case Appe(p) => p
    case Listing(p) => p
    case Size(p) => p
    case Other(line) => line
    case _ => ""
  }

  /** Refused are exactly the arguments that would make more than one line. */
  lemma CleanMeaning(s: string)
    ensures CleanArg(s) <==> IsOneLine(s)
  {
    if CleanArg(s) {
      forall i | 0 <= i < |s| ensures s[i] as int != 0 && s[i] as int != 10 && s[i] as int != 13 {
        assert s[i] in s;
        assert s[i] != '\0' && s[i] != '\n' && s[i] != '\r';
      }
    }
  }

  lemma CleanCommand(c: Command)
    ensures CleanArg(ArgOf(c)) <==> OneLine(c)
  {
    hide CleanArg, IsOneLine;
    CleanMeaning(ArgOf(c));
    assert IsOneLine("") by { NoLine(); }
  }

  lemma NoLine()
    ensures IsOneLine("")
  {
  }

  class Conn {
    const server: Server
    const ipv6: bool
    var broken: bool
    var epsv: bool
    var appe: bool
    var retr: Option<ActiveRetr>
    ghost var shift: nat   // how far the open download is ahead of `nextOffset`
    ghost var record: seq<(nat, Reply)>  // each reply read, with the number of the last command sent

    /** Client and server agree on what is owed: one final reply if a sequential download
        is open, nothing otherwise; and the open data stream stands where it should. */
    ghost predicate InSync()
      reads this, server
    {
      && server.Valid() && !server.closed && server.owed == []
      && (retr.None? ==> server.transfer.None?)
      && (retr.Some? ==> server.transfer.Some? && Streaming(retr.value))
    }

    /** The server's open transfer is this download, standing at `nextOffset + shift`. */
    ghost predicate Streaming(a: ActiveRetr)
      reads this`shift, server
    {
      && server.Valid() && server.transfer.Some?
      && server.log[server.transfer.value.command] == Retr(a.path) && CleanArg(a.path)
      && Remains(a.path, a.nextOffset + shift)
    }

    /** What is left of the open transfer is the file from `position` on, less only if the
        server cut it short. */
    ghost predicate Remains(path: Path, position: nat)
      reads server
    {
      server.transfer.Some? && RestOf(server.transfer.value, FileAt(server.files, path), position)
    }

    /** Every reply read so far belongs to the command sent last. */
    ghost predicate Matched()
      reads this`record
    {
      forall i :: 0 <= i < |record| ==> record[i].0 == record[i].1.command
    }

    ghost predicate Valid()
      reads this, server
    {
      server.Valid() && Matched() && (!broken ==> InSync())
    }

    /** A command may be written: in sync, or to a server that has already hung up. */
    ghost predicate MayTalk()
      reads this, server
    {
      Valid() && (broken ==> server.closed && server.owed == [] && retr.None?)
    }

    /** The restart marker that the next transfer would find, not counting its own REST: the
        data connection is asked for first, and only a sticky server remembers over that. */
    ghost function Left(): nat
      reads server
    {
      if server.sticky then server.marker else 0
    }

    /** No marker is left over, and none has moved the open download. */
    ghost predicate Straight()
      reads this, server
    {
      Left() == 0 && (retr.Some? ==> shift == 0)
    }

    constructor (server: Server, ipv6: bool)
      requires server.Valid() && server.InSync() && !server.closed && server.marker == 0
      ensures Valid() && !broken && this.server == server && Straight() && record == []
    {
      this.server, this.ipv6 := server, ipv6;
      broken, epsv, appe, retr, shift, record := false, true, true, None, 0, [];
    }

    /** A transfer of command `c` is under way and its final reply is still owed. */
    ghost predicate Mid(c: Command)
      reads this, server
    {
      && server.Valid() && !server.closed && server.owed == [] && retr.None? && !broken && Matched()
      && server.transfer.Some? && server.log[server.transfer.value.command] == c && c.IsTransfer()
    }

    /** Nothing stands in the way: a server that does everything asked of it, over a network that
        never fails, and a way to ask for data connections. */
    ghost predicate Working()
      reads this`broken, this`epsv
    {
      !broken && server.obliging && (epsv || !ipv6)
    }

    /** Read one reply. Whatever goes wrong, and a 421, retires the connection. */
    method ReadReply(dataEnded: bool) returns (r: Result<Reply, Error>)
      requires server.Valid() && Matched() && (server.closed && server.owed != [] ==> server.owed[0].code == 421)
      modifies this`broken, this`record, server
      ensures server.Valid() && server.log == old(server.log) && server.marker == old(server.marker)
      ensures server.seen == old(server.seen)
      ensures server.obliging && old(server.owed) != [] ==> r.Ok?
      ensures server.obliging && dataEnded && old(server.transfer).Some? && !old(server.closed) ==> r.Ok?
      ensures server.obliging && r.Ok? && old(server.owed) == [] ==> Class(r.value.code) == 2
      ensures r.Err? ==> broken && r.error == Io && record == old(record)
      ensures r.Ok? ==> broken == (old(broken) || r.value.code == 421)
      // The reply read is the reply to the last command sent.
      ensures r.Ok? ==> r.value.command == |server.log| - 1 >= 0
      ensures r.Ok? ==> record == old(record) + [(r.value.command, r.value)]
      ensures Matched()
      ensures r.Ok? && old(server.owed) != [] ==>
        && r.value == old(server.owed)[0] && server.owed == old(server.owed)[1..]
        && server.transfer == old(server.transfer)
      ensures old(server.owed) != [] ==> server.files == old(server.files) && server.closed == old(server.closed)
      ensures r.Ok? && old(server.owed) == [] ==>
        && dataEnded && old(server.transfer).Some? && server.transfer.None? && server.owed == []
        && Concluded(old(server.files), server.files, server.log, old(server.transfer).value, r.value)
        && (server.closed <==> r.value.code == 421)
      ensures r.Ok? && old(server.owed) == [] ==> !old(server.closed)
      ensures server.files == old(server.files) || (dataEnded && old(server.transfer).Some? && exists reply ::
        Concluded(old(server.files), server.files, server.log, old(server.transfer).value, reply))
    {
      var reply := server.Next(dataEnded);
      var fails := server.Fails();
      if fails {
        broken := true;
        return Err(Io);
      }
      if reply.None? {
        broken := true;
        return Err(Io);
      }
      if reply.value.code == 421 { broken := true; }
      record := record + [(|server.log| - 1, reply.value)];
      r := Ok(reply.value);
    }

    /** End an open sequential download: close its data connection and read the one
        reply it still owes. */
    method CloseRetr() returns (r: Result<(), Error>)
      requires MayTalk()
      modifies this, server
      ensures retr.None? && Valid() && server.Now() == old(server.Now()) && server.marker == old(server.marker)
      ensures r.Ok? ==> MayTalk()
      ensures old(Working()) ==> r.Ok? && Working()
      ensures r.Err? ==> broken && r.error == Io
      ensures old(retr).None? ==> r.Ok? && broken == old(broken)
      ensures epsv == old(epsv) && appe == old(appe) && shift == old(shift)
    {
      r := Ok(());
      if retr.Some? {
        retr := None;
        var reply := ReadReply(true);
        if reply.Err? { return Err(reply.error); }
      }
    }

    /** Send one command and read its reply. */
    method Send(c: Command) returns (r: Result<Reply, Error>)
      requires MayTalk()
      modifies this, server
      ensures server.Valid() && retr.None? && Matched() && Later(old(server.Now()), server.Now())
      ensures server.log == old(server.log) || server.log == old(server.log) + [c]
      ensures server.files ==
        if server.log == old(server.log) + [c] && c.Other?
        then server.effect(|old(server.log)|, old(server.files), c.line)
        else old(server.files)
      ensures old(Working()) ==> Working() && (r.Ok? <==> CleanArg(ArgOf(c)))
      ensures old(Working()) && r.Ok? ==> r.value.code == ObligingCode(c) && r.value.value.Some?
      ensures epsv == old(epsv) && appe == old(appe) && shift == old(shift)
      // The reply read is the reply to this very command.
      ensures r.Ok? ==> server.log == old(server.log) + [c] && r.value.command == |server.log| - 1
      ensures r.Ok? ==> record != [] && record[|record| - 1] == (r.value.command, r.value)
      ensures r.Ok? ==> (Class(r.value.code) == 1 && Mid(c)) || (Class(r.value.code) != 1 && MayTalk())
      ensures r.Ok? && !c.IsTransfer() ==> MayTalk()
      ensures r.Ok? ==> server.marker == MarkerAfter(server.sticky, old(server.marker), c, r.value.code)
      ensures r.Ok? && Class(r.value.code) == 1 ==> Begun(c, old(server.marker))
      ensures r.Ok? && Class(r.value.code) == 2 ==> NothingToSend(c, old(server.marker))
      ensures r.Ok? && c.Size? && r.value.code == 213 && r.value.value.Some? ==>
        r.value.value.value == |FileAt(server.files, c.path)|
      ensures r.Ok? ==> broken == (r.value.code == 421) && CleanArg(ArgOf(c))
      // Refused arguments are never sent; any other failure retires the connection.
      ensures r.Err? ==> (broken && r.error == Io) || (r.error == BadArgument && !CleanArg(ArgOf(c)) && MayTalk())
      ensures r == Err(BadArgument) ==> server.Now() == old(server.Now()) && server.marker == old(server.marker)
      ensures r == Err(BadArgument) && old(retr).None? ==> broken == old(broken)
      ensures !CleanArg(ArgOf(c)) && old(retr).None? ==> r == Err(BadArgument)
      ensures (r == Err(BadArgument) ==> !OneLine(c)) && (!OneLine(c) && old(retr).None? ==> r == Err(BadArgument))
      ensures old(broken) ==> broken && r.Err?
    {
      hide From, FileAt, Concluded, Streaming, CleanArg, Matched, Begun, NothingToSend, MarkerAfter, ArgOf, OneLine;
      CleanCommand(c);
      NotYet(server.Now());
      var closed := CloseRetr();
      if closed.Err? { return Err(closed.error); }
      if !CleanArg(ArgOf(c)) { return Err(BadArgument); }
      r := Transmit(c);
    }

    /** The part of `Send` that writes the command line. */
    method Transmit(c: Command) returns (r: Result<Reply, Error>)
      requires MayTalk() && retr.None? && CleanArg(ArgOf(c))
      modifies this`broken, this`record, server
      ensures server.Valid() && Matched() && Later(old(server.Now()), server.Now())
      ensures server.log == old(server.log) || server.log == old(server.log) + [c]
      ensures server.files ==
        if server.log == old(server.log) + [c] && c.Other?
        then server.effect(|old(server.log)|, old(server.files), c.line)
        else old(server.files)
      ensures old(Working()) ==> Working() && r.Ok? && r.value.code == ObligingCode(c) && r.value.value.Some?
      ensures r.Ok? ==> server.log == old(server.log) + [c] && r.value.command == |server.log| - 1
      ensures r.Ok? ==> record != [] && record[|record| - 1] == (r.value.command, r.value)
      ensures r.Ok? ==> (Class(r.value.code) == 1 && Mid(c)) || (Class(r.value.code) != 1 && MayTalk())
      ensures r.Ok? && !c.IsTransfer() ==> MayTalk()
      ensures r.Ok? ==> server.marker == MarkerAfter(server.sticky, old(server.marker), c, r.value.code)
      ensures r.Ok? && Class(r.value.code) == 1 ==> Begun(c, old(server.marker))
      ensures r.Ok? && Class(r.value.code) == 2 ==> NothingToSend(c, old(server.marker))
      ensures r.Ok? && c.Size? && r.value.code == 213 && r.value.value.Some? ==>
        r.value.value.value == |FileAt(server.files, c.path)|
      ensures r.Ok? ==> broken == (r.value.code == 421)
      ensures r.Err? ==> broken && r.error == Io
      ensures old(broken) ==> broken && r.Err?
    {
      hide From, FileAt, Concluded, Streaming, CleanArg, Matched, MarkerAfter, OneLine;
      var fails := server.Fails();
      if fails {
        broken := true;
        return Err(Io);
      }
      CleanCommand(c);
      server.Receive(c);
      r := ReadReply(false);
    }

    /** What an announced transfer of `c` starts from, with the marker that was set. */
    ghost predicate Begun(c: Command, marker: nat)
      reads server
    {
      && server.transfer.Some?
      && var t := server.transfer.value;
        && (c.Retr? ==> !t.aborted && t.stream == From(FileAt(server.files, c.path), marker))
        && (c.Listing? ==> !t.aborted && t.stream == server.listing(server.files, c.path))
        && (c.IsUpload() ==> t.stream == [] && t.start == marker)
    }

    /** A download that ends at once has nothing to send. */
    ghost predicate NothingToSend(c: Command, marker: nat)
      reads server
    {
      && (c.Retr? ==> From(FileAt(server.files, c.path), marker) == [])
      && (c.Listing? ==> server.listing(server.files, c.path) == [])
    }

    /** Asking for a data port concludes an open download and leaves everything else alone. */
    method AskPort(c: Command) returns (r: Result<Reply, Error>)
      requires MayTalk() && (c.Epsv? || c.Pasv?)
      modifies this, server
      ensures Valid() && retr.None? && server.files == old(server.files)
      ensures epsv == old(epsv) && appe == old(appe) && shift == old(shift)
      ensures Later(old(server.Now()), server.Now()) && (!broken ==> Left() == old(Left()))
      ensures old(Working()) ==> Working() && r.Ok? && r.value.code == ObligingCode(c) && r.value.value.Some?
      ensures r.Ok? ==> MayTalk() && broken == (r.value.code == 421) && server.log == old(server.log) + [c]
      ensures r.Ok? && !broken ==> server.marker == Left()
      ensures r.Err? ==> broken && r.error == Io
      ensures old(broken) ==> broken && r.Err?
    {
      hide Begun, NothingToSend, Streaming, Matched, Later, Mid, OneLine;
      r := Send(c);
    }

    /** A passive data connection: EPSV, falling back to PASV. */
    method OpenData() returns (r: Result<(), Error>)
      requires MayTalk()
      modifies this, server
      ensures Valid() && server.files == old(server.files) && appe == old(appe) && shift == old(shift)
      ensures Later(old(server.Now()), server.Now())
      ensures old(Working()) ==> r.Ok? && Working()
      ensures (retr.None? || retr == old(retr)) && (!broken ==> Left() == old(Left()))
      ensures old(broken) ==> broken && r.Err?
      ensures r.Ok? ==> !broken && retr.None? && server.marker == Left()
      ensures r.Ok? ==> |server.log| > |old(server.log)| && !EndsWithRest(server.log)
      ensures r.Err? ==> r.error.Refused? || r.error in {Malformed, Io}
      ensures r.Err? && r.error.Refused? ==> MayTalk()
    {
      hide Matched, Later, Streaming;
      var found := false;
      ghost var start := server.Now();
      NotYet(start);
      if epsv {
        var reply := AskPort(Epsv);
        if reply.Err? { return Err(reply.error); }
        if reply.value.code == 229 {
          if reply.value.value.None? { return Err(Malformed); }
          found := true;
        } else {
          epsv := false;
        }
      }
      if !found {
        if ipv6 { return Err(Malformed); }
        ghost var middle := server.Now();
        var reply := AskPort(Pasv);
        LaterStep(start, middle, server.Now());
        if reply.Err? { return Err(reply.error); }
        if reply.value.code != 227 { return Err(Refused(reply.value)); }
        if reply.value.value.None? { return Err(Malformed); }
      }
      var fails := server.Fails();
      if fails { return Err(Io); }  // the data port does not answer
      r := Ok(());
    }

    /** Open the data connection, set the restart marker if asked, and send the transfer
        command. Without a REST of its own the transfer starts from whatever marker was left. */
    method StartTransfer(c: Command, rest: Option<nat>) returns (r: Result<TransferStart, Error>)
      requires MayTalk() && c.IsTransfer()
      modifies this, server
      ensures server.Valid() && Matched() && appe == old(appe) && shift == old(shift)
      ensures Later(old(server.Now()), server.Now())
      ensures old(Working()) ==> Working() && r == if CleanArg(ArgOf(c)) then Ok(Data) else Err(BadArgument)
      ensures server.files == old(server.files)
        || (r == Err(Io) && broken && c.IsUpload()
            && PartlyStored(old(server.files), server.files, c, Or(rest, old(Left())), []))
      ensures r.Ok? && r.value != RestRejected ==> |server.log| > |old(server.log)| && LastOf(server.log) == Some(c)
      ensures r.Ok? ==> retr.None? && (r.value != RestRejected ==> !broken && server.marker == 0 && CleanArg(ArgOf(c)))
      ensures r == Ok(Data) ==> Mid(c) && Begun(c, Or(rest, old(Left())))
      ensures r == Ok(Finished) ==> MayTalk() && NothingToSend(c, Or(rest, old(Left())))
      ensures r == Ok(RestRejected) ==> MayTalk() && rest.Some? && (!broken ==> Left() == old(Left()))
      ensures r.Err? ==> Valid() && (r.error.Refused? || r.error in {BadArgument, Malformed, Io})
      ensures old(broken) ==> broken && r.Err?
      ensures r.Err? ==> retr.None? || retr == old(retr)
      ensures r.Err? && r.error.Refused? ==> MayTalk() && (!broken ==> Left() in {0, old(Left())})
      ensures r.Err? && r.error in {Malformed, Io} && !broken ==> Left() == old(Left())
      // A transfer command that is never sent, because its argument is refused after REST
      // has been accepted, leaves its marker behind.
      ensures r == Err(BadArgument) ==> !CleanArg(ArgOf(c)) && !broken && retr.None?
      ensures r == Err(BadArgument) ==> server.marker == Or(rest, old(Left()))
      ensures r == Err(BadArgument) ==>
        if rest.Some? then LastOf(server.log) == Some(Rest(rest.value)) else !EndsWithRest(server.log)
    {
      hide Later, Begun, NothingToSend, PartlyStored, CleanArg, Streaming, Matched;
      ghost var start := server.Now();
      var data := OpenData();
      if data.Err? { return Err(data.error); }
      ghost var ported := server.Now();
      var marked := SetMarker(rest);
      ghost var ready := server.Now();
      LaterStep(start, ported, ready);
      if marked.Err? { return Err(marked.error); }
      if !marked.value { return Ok(RestRejected); }
      r := Announce(c);
      LaterStep(start, ready, server.Now());
    }

    /** Set the restart marker, if asked; false when the server refuses it. */
    method SetMarker(rest: Option<nat>) returns (r: Result<bool, Error>)
      requires MayTalk() && !broken && retr.None?
      modifies this, server
      ensures Valid() && server.files == old(server.files) && Later(old(server.Now()), server.Now()) && retr.None?
      ensures appe == old(appe) && shift == old(shift) && epsv == old(epsv)
      ensures old(Working()) ==> Working() && r == Ok(true)
      ensures r == Ok(true) ==> MayTalk() && !broken && server.marker == Or(rest, old(server.marker))
      ensures r == Ok(true) ==>
        server.log == if rest.Some? then old(server.log) + [Rest(rest.value)] else old(server.log)
      ensures r == Ok(false) ==> MayTalk() && rest.Some? && (!broken ==> Left() == old(Left()))
      ensures r.Err? ==> broken && r.error == Io
    {
      hide Later, Begun, NothingToSend, Streaming, Matched, OneLine;
      NotYet(server.Now());
      if rest.Some? {
        var reply := Send(Rest(rest.value));
        if reply.Err? { return Err(reply.error); }
        if reply.value.code != 350 { return Ok(false); }
      }
      r := Ok(true);
    }

    /** Send the transfer command itself. */
    method Announce(c: Command) returns (r: Result<TransferStart, Error>)
      requires MayTalk() && c.IsTransfer() && !broken && retr.None?
      modifies this, server
      ensures server.Valid() && Matched() && appe == old(appe) && shift == old(shift) && retr.None?
      ensures Later(old(server.Now()), server.Now())
      ensures old(Working()) ==> Working() && r == if CleanArg(ArgOf(c)) then Ok(Data) else Err(BadArgument)
      ensures server.files == old(server.files)
        || (r == Err(Io) && broken && c.IsUpload()
            && PartlyStored(old(server.files), server.files, c, old(server.marker), []))
      ensures r.Ok? ==> server.log == old(server.log) + [c]
      ensures r == Err(BadArgument) ==> server.log == old(server.log)
      ensures r.Ok? ==> !broken && server.marker == 0 && r.value != RestRejected && CleanArg(ArgOf(c))
      ensures r == Ok(Data) ==> Mid(c) && Begun(c, old(server.marker))
      ensures r == Ok(Finished) ==> MayTalk() && NothingToSend(c, old(server.marker))
      ensures r.Err? ==> Valid() && (r.error.Refused? || r.error == BadArgument || (r.error == Io && broken))
      ensures r.Err? && r.error.Refused? ==> MayTalk() && server.marker == 0
      ensures r == Err(BadArgument) ==> !CleanArg(ArgOf(c)) && !broken && server.marker == old(server.marker)
    {
      hide Later, Concluded, PartlyStored, OneLine;
      ghost var start := server.Now();
      var reply := Send(c);
      if reply.Err? { return Err(reply.error); }
      if Class(reply.value.code) == 1 {
        var fails := server.Fails();
        if fails {  // TLS on the data connection failed: the transfer is in an unknown state
          broken := true;
          ghost var sent, t := server.Now(), server.transfer.value;
          var explained := ReadReply(true);
          LaterWrite(start, sent, server.Now());
          MaybeConcluded(start.files, server.files, server.log, t, t.stream);
          return Err(Io);
        }
        return Ok(Data);
      } else if Class(reply.value.code) == 2 {
        return Ok(Finished);
      }
      r := Err(Refused(reply.value));
    }

    /** Read the final reply of a transfer and require success. */
    method FinishTransfer(ghost c: Command) returns (r: Result<(), Error>)
      requires Mid(c)
      modifies this`broken, this`record, server
      ensures Valid() && server.log == old(server.log) && server.marker == old(server.marker)
      ensures server.seen == old(server.seen)
      ensures server.obliging ==> r.Ok?
      ensures r.Ok? ==> MayTalk() && !broken
      ensures r.Err? ==> (r.error.Refused? && MayTalk()) || (r.error == Io && broken)
      ensures r.Ok? || r.error.Refused? ==> exists reply ::
        Concluded(old(server.files), server.files, server.log, old(server.transfer).value, reply)
        && (r.Ok? <==> Class(reply.code) == 2) && (r.Err? ==> r.error == Refused(reply))
      ensures !c.IsUpload() ==> server.files == old(server.files)
      ensures server.files == old(server.files) || exists reply ::
        Concluded(old(server.files), server.files, server.log, old(server.transfer).value, reply)
    {
      var reply := ReadReply(true);
      if reply.Err? { return Err(reply.error); }
      if Class(reply.value.code) == 2 {
        r := Ok(());
      } else {
        r := Err(Refused(reply.value));
      }
    }

    /** Read a download to its end. */
    method ReadToEnd(ghost c: Command) returns (buf: bytes)
      requires Mid(c)
      modifies server
      ensures Mid(c) && server.Now() == old(server.Now()) && server.marker == old(server.marker)
      ensures buf <= old(server.transfer.value.stream)
      ensures server.transfer.value ==
        old(server.transfer.value).(stream := [], aborted := server.transfer.value.aborted)
      ensures !server.transfer.value.aborted ==>
        !old(server.transfer.value.aborted) && buf == old(server.transfer.value.stream)
    {
      buf := [];
      while true
        invariant Mid(c) && server.Now() == old(server.Now()) && server.marker == old(server.marker)
        invariant server.transfer.value == old(server.transfer.value).(
          stream := server.transfer.value.stream, aborted := server.transfer.value.aborted)
        invariant buf + server.transfer.value.stream <= old(server.transfer.value.stream)
        invariant !server.transfer.value.aborted ==>
          !old(server.transfer.value.aborted) && buf + server.transfer.value.stream == old(server.transfer.value.stream)
        decreases |server.transfer.value.stream|
      {
        ghost var rest := server.transfer.value.stream;
        var got := server.DataRead(CHUNK);
        PrefixStep(old(server.transfer.value.stream), buf, rest, got, server.transfer.value.stream);
        buf := buf + got;
        if |got| < CHUNK { break; }
      }
    }

    /** `retrieve_all`: on success the file from the marker that was left over on; so the whole
        file exactly when none was, or there is nothing to miss. */
    method RetrieveAll(path: Path) returns (r: Result<bytes, Error>)
      requires MayTalk() && !broken
      modifies this, server
      ensures Valid() && server.files == old(server.files)
      ensures Later(old(server.Now()), server.Now()) && (r.Ok? ==> LastOf(server.log) == Some(Retr(path)))
      ensures r.Ok? ==> |server.log| > |old(server.log)|
      ensures old(Working()) ==> Working() && (r.Ok? <==> CleanArg(path))
      ensures r.Ok? ==> r.value == From(FileAt(server.files, path), old(Left()))
      ensures r.Ok? ==>
        (r.value == FileAt(server.files, path) <==> old(Left()) == 0 || FileAt(server.files, path) == [])
      ensures !broken ==> Left() in {0, old(Left())}
      ensures !broken && old(Straight()) ==> Straight()
    {
      hide Later, CleanArg;
      var c := Retr(path);
      WholeFile(FileAt(server.files, path), Left());
      var start := StartTransfer(c, None);
      if start.Err? { return Err(start.error); }
      if start.value != Data { return Ok([]); }
      var buf := ReadToEnd(c);
      var fails := server.Fails();
      if fails {
        broken := true;
        return Err(Io);
      }
      var end := FinishTransfer(c);
      if end.Err? { return Err(end.error); }
      r := Ok(buf);
    }

    /** `read_listing`: the folder's listing, cut off where it is longer than the limit (the
        transfer then ends early). A marker left over does not matter to it. */
    method ReadListing(path: Path) returns (r: Result<bytes, Error>)
      requires MayTalk() && !broken
      modifies this, server
      ensures Valid() && server.files == old(server.files)
      ensures Later(old(server.Now()), server.Now()) && (r.Ok? ==> LastOf(server.log) == Some(Listing(path)))
      ensures r.Ok? ==> |server.log| > |old(server.log)|
      ensures old(Working()) ==> Working() && (r.Ok? <==> CleanArg(path))
      ensures r.Ok? ==> r.value == Listed(server.listing(server.files, path))
      ensures !broken ==> Left() in {0, old(Left())}
      ensures !broken && old(Straight()) ==> Straight()
    {
      hide Later, CleanArg;
      var c := Listing(path);
      var start := StartTransfer(c, None);
      if start.Err? { return Err(start.error); }
      if start.value != Data { return Ok([]); }
      ghost var sent := server.transfer.value.stream;
      var buf := server.DataRead(MAX_LISTING_BYTES);
      var fails := server.Fails();
      if fails {
        broken := true;
        return Err(Io);
      }
      ghost var left := server.transfer.value;
      var end := FinishTransfer(c);
      if end.Err? { return Err(end.error); }
      assert !left.aborted && buf + left.stream == sent;
      r := Ok(buf);
    }

    /** Close what is open and start a download at `offset`: with REST, or where the server
        refuses REST from the beginning, skipping what comes before. False means the file ends
        before `offset`. */
    method OpenAt(path: Path, offset: nat) returns (r: Result<bool, Error>, ghost s: nat)
      requires MayTalk()
      modifies this, server
      ensures Valid() && server.files == old(server.files)
      ensures r == Ok(true) ==> !broken && retr == Some(ActiveRetr(path, offset)) && Left() == 0
      ensures r.Ok? ==> Shifted(s, offset, old(Left())) && (r.value ==> shift == s)
      ensures r == Ok(false) ==> retr.None? && From(FileAt(server.files, path), offset + s) == []
      ensures r != Ok(true) ==> retr.None? || (retr == old(retr) && shift == old(shift))
      ensures !broken && r != Err(BadArgument) ==> Left() in {0, old(Left())}
      ensures r == Err(BadArgument) ==>
        !CleanArg(path) && !broken && Left() == LeftAfterRefusal(server.sticky, server.log, offset, old(Left()))
      ensures r.Ok? ==> CleanArg(path) && LastOf(server.log) == Some(Retr(path)) && |server.log| > |old(server.log)|
      ensures Later(old(server.Now()), server.Now())
      ensures old(Working()) ==> Working() && (r.Ok? <==> CleanArg(path))
      ensures old(Working()) && !CleanArg(path) ==>
        r == Err(BadArgument) && (offset > 0 ==> EndsWithRest(server.log))
    {
      hide From, FileAt, Remains, Begun, RestOf, Later, CleanArg;
      s := 0;
      NotYet(server.Now());
      var closed := CloseRetr();
      if closed.Err? { return Err(closed.error), s; }
      var start, skip;
      start, skip, s := StartAt(path, offset);
      if start.Err? { return Err(start.error), s; }
      if start.value != Data {
        NothingThere(FileAt(server.files, path), offset + s - skip, skip);
        return Ok(false), s;
      }
      if skip > 0 {
        r := Skip(path, s, skip);
        if r != Ok(true) { return; }
      } else {
        AtStart(path, offset + s);
      }
      retr, shift := Some(ActiveRetr(path, offset)), s;
      r := Ok(true);
    }

    lemma AtStart(path: Path, position: nat)
      requires Begun(Retr(path), position)
      ensures Remains(path, position)
    {
    }

    /** Announce a download from `offset`, or where REST is refused from the beginning; then
        `skip` bytes are to be discarded. */
    method StartAt(path: Path, offset: nat) returns (r: Result<TransferStart, Error>, skip: nat, ghost s: nat)
      requires MayTalk() && retr.None?
      modifies this, server
      ensures server.Valid() && Matched() && server.files == old(server.files) && retr.None?
      ensures skip in {0, offset} && Shifted(s, offset, old(Left()))
      ensures r.Ok? ==> r.value != RestRejected && CleanArg(path) && !broken && server.marker == 0
      ensures r == Ok(Data) ==> Mid(Retr(path)) && Begun(Retr(path), offset + s - skip)
      ensures r == Ok(Finished) ==> MayTalk() && From(FileAt(server.files, path), offset + s - skip) == []
      ensures r.Err? ==> Valid()
      ensures r.Err? && !broken && r.error != BadArgument ==> Left() in {0, old(Left())}
      ensures r == Err(BadArgument) ==>
        !CleanArg(path) && !broken && Left() == LeftAfterRefusal(server.sticky, server.log, offset, old(Left()))
      ensures Later(old(server.Now()), server.Now())
      ensures r.Ok? ==> |server.log| > |old(server.log)| && LastOf(server.log) == Some(Retr(path))
      ensures old(Working()) ==> Working() && r == if CleanArg(path) then Ok(Data) else Err(BadArgument)
      ensures old(Working()) && !CleanArg(path) && offset > 0 ==> EndsWithRest(server.log)
    {
      hide From, FileAt, Later, CleanArg;
      ghost var before := server.Now();
      var rest := if offset > 0 then Some(offset) else None;
      skip, s := 0, if rest.Some? then 0 else Left();
      ghost var left := Left();
      r := StartTransfer(Retr(path), rest);
      if r == Ok(RestRejected) {
        skip, s := offset, left;
        ghost var middle := server.Now();
        r := StartTransfer(Retr(path), None);
        LaterStep(before, middle, server.Now());
        Advance(before, middle);
      }
    }

    /** Discard the first `skip` bytes of a download that began at `left`. */
    method Skip(path: Path, ghost left: nat, skip: nat) returns (r: Result<bool, Error>)
      requires Mid(Retr(path)) && Begun(Retr(path), left) && skip > 0
      modifies this`broken, this`record, server
      ensures r != Ok(true) ==> Valid()
      ensures server.Now() == old(server.Now()) && server.marker == old(server.marker)
      ensures server.obliging ==> r.Ok? && !broken
      ensures r == Ok(true) ==> Mid(Retr(path)) && Remains(path, left + skip)
      ensures r == Ok(false) ==> From(FileAt(server.files, path), left + skip) == []
      ensures r.Err? ==> r.error != BadArgument
    {
      hide From, Slice, RestOf;
      AtStart(path, left);
      ghost var t := server.transfer.value;
      var skipped := server.DataRead(skip);
      ReadOn(FileAt(server.files, path), left, t, skipped, server.transfer.value, skip);
      var fails := server.Fails();
      if fails {
        broken := true;
        return Err(Io);
      }
      if |skipped| < skip {
        var end := FinishTransfer(Retr(path));
        if end.Err? { return Err(end.error); }
        return Ok(false);
      }
      r := Ok(true);
    }

    /** The next read may go on with the open download. */
    predicate Continuing(path: Path, offset: nat, recent: bool)
      reads this
    {
      retr.Some? && retr.value.path == path && retr.value.nextOffset == offset && recent
    }

    /** `read_range`: whichever path serves it, the bytes of the file from `offset` (or as far
        behind it as a left-over marker has moved the download), as many as asked or as there
        are. `recent` tells whether the last use was recent. */
    method ReadRange(path: Path, offset: nat, length: nat, recent: bool) returns (r: Result<bytes, Error>)
      requires MayTalk() && !broken
      modifies this, server
      ensures Valid() && server.files == old(server.files)
      ensures r.Ok? && length > 0 && old(Continuing(path, offset, recent)) ==>
        r.value == Slice(FileAt(server.files, path), offset + old(shift), length)
      ensures r.Ok? && length > 0 && !old(Continuing(path, offset, recent)) ==> exists s: nat ::
        Shifted(s, offset, old(Left())) && r.value == Slice(FileAt(server.files, path), offset + s, length)
      ensures r.Ok? && length > 0 && old(Straight()) ==> r.value == Slice(FileAt(server.files, path), offset, length)
      ensures length == 0 ==> r == Ok([])
      ensures r.Ok? && length > 0 && retr.Some? ==>
        retr.value == ActiveRetr(path, offset + length) && |r.value| == length
      ensures r.Ok? && length > 0 ==> CleanArg(path)
      ensures Later(old(server.Now()), server.Now())
      ensures r.Ok? && |server.log| > |old(server.log)| ==> LastOf(server.log) == Some(Retr(path))
      ensures old(Working()) ==> Working() && (r.Ok? <==> length == 0 || CleanArg(path))
      // Only a refused path behind an offset can leave a marker that was not there before: it
      // does when the server took the REST, the last command it then got.
      ensures !broken && r != Err(BadArgument) ==> Left() in {0, old(Left())}
      ensures r == Err(BadArgument) ==> length > 0 && !CleanArg(path) && !broken
      ensures r == Err(BadArgument) ==> Left() == LeftAfterRefusal(server.sticky, server.log, offset, old(Left()))
      ensures old(Working()) && length > 0 && !CleanArg(path) ==>
        r == Err(BadArgument) && (offset > 0 ==> EndsWithRest(server.log))
      ensures !broken && old(Straight()) ==>
        Straight() || (r == Err(BadArgument) && server.sticky && offset > 0 && length > 0 && !CleanArg(path))
    {
      hide From, Slice, Remains, Later, CleanArg;
      NotYet(server.Now());
      if length == 0 { return Ok([]); }
      if !Continuing(path, offset, recent) {
        var open, s := OpenAt(path, offset);
        if open.Err? { return Err(open.error); }
        if !open.value {
          NothingBehind(FileAt(server.files, path), offset, s, length);
          return Ok([]);
        }
      }
      ghost var s := shift;
      r := Continue(path, offset, length);
      assert r.Ok? && !old(Continuing(path, offset, recent)) ==>
        Shifted(s, offset, old(Left())) && r.value == Slice(FileAt(server.files, path), offset + s, length);
    }

    /** The part of `read_range` that reads from the open download. */
    method Continue(path: Path, offset: nat, length: nat) returns (r: Result<bytes, Error>)
      requires Valid() && !broken && retr == Some(ActiveRetr(path, offset)) && length > 0
      modifies this, server
      ensures Valid() && server.Now() == old(server.Now())
      ensures old(Working()) ==> r.Ok? && Working()
      ensures shift == old(shift) && Left() == old(Left()) && CleanArg(path)
      ensures r.Ok? ==> r.value == Slice(FileAt(server.files, path), offset + shift, length)
      ensures r.Ok? && retr.Some? ==> retr.value == ActiveRetr(path, offset + length) && |r.value| == length
      ensures r.Err? ==> r.error != BadArgument
    {
      hide From, Slice, RestOf;
      ghost var t := server.transfer.value;
      var buf := server.DataRead(length);
      ReadOn(FileAt(server.files, path), offset + shift, t, buf, server.transfer.value, length);
      var fails := server.Fails();
      if fails {
        retr := None;
        broken := true;
        return Err(Io);
      }
      if |buf| < length {
        retr := None;
        var end := FinishTransfer(Retr(path));
        if end.Err? { return Err(end.error); }
      } else {
        retr := Some(ActiveRetr(path, offset + |buf|));
      }
      r := Ok(buf);
    }

    /** `store_from`: STOR or APPE, behind a restart marker if one is given, or behind the one
        left over. Success means the data is in place; a refusal leaves at most a first part. */
    method StoreFrom(c: Command, data: bytes, rest: Option<nat>) returns (r: Result<(), Error>)
      requires MayTalk() && c.IsUpload()
      modifies this, server
      ensures Valid() && appe == old(appe)
      ensures r.Ok? ==> !broken
      ensures r.Ok? ==>
        || Stored(old(server.files), server.files, c, Or(rest, old(Left())), data)
        || (data == [] && server.files == old(server.files))
      ensures r.Err? ==> PartlyStored(old(server.files), server.files, c, Or(rest, old(Left())), data)
      ensures r.Err? && r.error.Refused? ==> MayTalk()
      ensures Later(old(server.Now()), server.Now())
      ensures r.Ok? ==> |server.log| > |old(server.log)| && LastOf(server.log) == Some(c)
      ensures old(Working()) ==> Working() && (r.Ok? <==> CleanArg(ArgOf(c)))
      ensures old(broken) ==> broken
      ensures r.Err? ==> r.error != BadOffset
      ensures r == Err(RestRefused) ==> rest.Some? && server.files == old(server.files)
      ensures OnlyAt(old(server.files), server.files, c.path)
      ensures !broken ==>
        || Left() in {0, old(Left())}
        || (r == Err(BadArgument) && rest.Some? && Left() == rest.value && !CleanArg(ArgOf(c)))
      ensures !broken && old(Straight()) && (rest.None? || CleanArg(ArgOf(c))) ==> Straight()
    {
      hide Later, Stored, PartlyStored, OnlyAt, CleanArg;
      ghost var before, from := server.Now(), Or(rest, Left());
      NotStored(before.files, c, from, data);
      OnlyAtStep(before.files, before.files, before.files, c.path);
      var start := StartTransfer(c, rest);
      if start.Err? {
        MoreStored(before.files, server.files, c, from, data);
        return Err(start.error);
      }
      match start.value {
        case Data =>
        case Finished => return if data == [] then Ok(()) else Err(EndedEarly);
        case RestRejected => return Err(RestRefused);
      }
      ghost var begun := server.Now();
      r := Upload(c, data);
      LaterWrite(before, begun, server.Now());
    }

    /** The part of `store_from` behind the announcement. */
    method Upload(c: Command, data: bytes) returns (r: Result<(), Error>)
      requires Mid(c) && c.IsUpload() && server.transfer.value.stream == []
      modifies this, server
      ensures Valid() && appe == old(appe) && shift == old(shift) && server.marker == old(server.marker)
      ensures r.Ok? ==>
        !broken && Stored(old(server.files), server.files, c, old(server.transfer.value.start), data)
      ensures server.log == old(server.log) && server.seen == old(server.seen)
      ensures r.Err? ==> PartlyStored(old(server.files), server.files, c, old(server.transfer.value.start), data)
      ensures r.Err? ==> (r.error.Refused? && MayTalk()) || (r.error == Io && broken)
      ensures old(Working()) ==> r.Ok? && Working()
      ensures OnlyAt(old(server.files), server.files, c.path) && retr.None?
    {
      hide Placed;
      var written := server.DataWrite(data);
      ghost var t := server.transfer.value;
      var end := FinishTransfer(c);
      MaybeConcluded(old(server.files), server.files, server.log, t, data);
      if end.Err? { return Err(end.error); }
      if !written {
        broken := true;
        return Err(Io);
      }
      r := Ok(());
    }

    /** `remote_size`: what SIZE says, when the server has it. */
    method RemoteSize(path: Path) returns (r: Result<Option<nat>, Error>)
      requires MayTalk()
      modifies this, server
      ensures Valid() && server.files == old(server.files) && appe == old(appe) && shift == old(shift)
      ensures Later(old(server.Now()), server.Now()) && (r.Ok? ==> server.log == old(server.log) + [Size(path)])
      ensures old(Working()) ==> Working() && (r.Ok? <==> CleanArg(path))
      ensures old(Working()) && r.Ok? ==> r.value.Some?
      ensures r.Ok? ==> MayTalk() && CleanArg(path)
      ensures r.Err? ==> r.error in {BadArgument, Io}
      ensures r.Ok? && r.value.Some? ==> r.value.value == |FileAt(server.files, path)|
      ensures r.Ok? ==> record != [] && r.value == SizeTold(record[|record| - 1].1)
      ensures !broken || r.Ok? ==> retr.None? && Left() == old(Left())
      ensures old(broken) ==> broken
    {
      var reply := Send(Size(path));
      if reply.Err? { return Err(reply.error); }
      r := Ok(SizeTold(reply.value));
    }

    /** `append_at`: on success a file that ended at `offset` goes on with exactly `data`,
        whether APPE worked, was refused, or broke off part-way and REST + STOR took over. */
    method AppendAt(path: Path, offset: nat, data: bytes) returns (r: Result<(), Error>)
      requires MayTalk() && !broken
      modifies this, server
      ensures Valid() && (!broken ==> Left() in {0, old(Left())}) && (!broken && old(Straight()) ==> Straight())
      ensures Later(old(server.Now()), server.Now())
      ensures r.Ok? ==> LastOf(server.log) in {Some(Appe(path)), Some(Stor(path))}
      ensures r.Ok? ==> |server.log| > |old(server.log)|
      ensures old(Working()) ==>
        Working() && (r.Ok? <==> CleanArg(path) && offset == |FileAt(old(server.files), path)|)
      ensures r.Err? ==> BrokenOff(old(server.files), server.files, path, offset, data)
      ensures r.Ok? && offset == |FileAt(old(server.files), path)| ==>
        FileAt(server.files, path) == FileAt(old(server.files), path) + data
      ensures OnlyAt(old(server.files), server.files, path)
      ensures r == Err(BadOffset) ==> server.files == old(server.files) && offset != |FileAt(server.files, path)|
    {
      hide Placed, Stored, OnlyAt, PartlyStored, BrokenOff, Later, CleanArg;
      ghost var before, start := server.files, server.Now();
      OnlyAtStep(before, before, before, path);
      NotStored(before, Appe(path), 0, data);
      NotStored(before, Stor(path), offset, data);
      BreakOff(before, before, before, path, offset, data);
      var current := RemoteSize(path);
      if current.Err? { return Err(current.error); }
      if current.value.Some? && current.value.value != offset { return Err(BadOffset); }
      ghost var asked := server.Now();
      if appe {
        r := FirstAppend(before, path, offset, data);
      } else {
        r := Resume(before, path, offset, data);
      }
      LaterStep(start, asked, server.Now());
    }

    /** The part of `append_at` that tries APPE first. */
    method FirstAppend(ghost before: map<Path, bytes>, path: Path, offset: nat, data: bytes)
        returns (r: Result<(), Error>)
      requires MayTalk() && CleanArg(path) && server.files == before
      modifies this, server
      ensures Valid() && OnlyAt(before, server.files, path)
      ensures (!broken ==> Left() in {0, old(Left())}) && (!broken && old(Straight()) ==> Straight())
      ensures Later(old(server.Now()), server.Now())
      ensures r.Ok? ==> LastOf(server.log) in {Some(Appe(path)), Some(Stor(path))}
      ensures r.Ok? ==> |server.log| > |old(server.log)|
      ensures old(Working()) ==> Working() && r.Ok?
      ensures r.Err? ==> BrokenOff(before, server.files, path, offset, data)
      ensures r.Ok? && offset == |FileAt(before, path)| ==> FileAt(server.files, path) == FileAt(before, path) + data
      ensures r.Err? ==> r.error != BadOffset
    {
      hide Placed, Stored, OnlyAt, PartlyStored, BrokenOff, Later, CleanArg;
      ghost var start, left := server.Now(), Left();
      r := StoreFrom(Appe(path), data, None);
      if r.Ok? {
        Appended(before, server.files, path, left, data);
        return;
      }
      var err := r.error;
      ghost var tried, partly := server.Now(), server.files;
      PartlyAppended(before, partly, path, left, data);
      NotStored(partly, Stor(path), offset, data);
      BreakOff(before, partly, partly, path, offset, data);
      var retry := MayRetry(err, path, offset);
      ghost var asked := server.Now();
      LaterStep(start, tried, asked);
      if retry.Err? { return Err(retry.error); }
      if !retry.value { return Err(err); }
      r := Resume(before, path, offset, data);
      LaterStep(start, asked, server.Now());
      if r.Err? { r := Err(err); }
    }

    /** May a refused APPE be tried again as REST + STOR? Always when the server does not have
        the command, which is remembered; when it forbids it, only while SIZE tells that nothing
        has been stored. */
    method MayRetry(err: Error, path: Path, offset: nat) returns (retry: Result<bool, Error>)
      requires Valid() && (err.Refused? ==> MayTalk())
      modifies this, server
      ensures Valid() && server.files == old(server.files) && Later(old(server.Now()), server.Now())
      ensures !broken ==> Left() == old(Left()) && shift == old(shift) && (retr.None? || retr == old(retr))
      ensures old(broken) ==> broken
      ensures ReplyCode(err) in {Some(500), Some(502), Some(504)} ==>
        retry == Ok(true) && !appe && server.log == old(server.log)
      ensures ReplyCode(err) !in {Some(500), Some(502), Some(504)} ==> appe == old(appe)
      ensures ReplyCode(err) in {Some(501), Some(550), Some(553)} && retry.Ok? ==>
        && record != [] && (retry.value <==> SizeTold(record[|record| - 1].1) == Some(offset))
        && (retry.value ==> offset == |FileAt(server.files, path)|)
      ensures ReplyCode(err) !in {Some(500), Some(502), Some(504), Some(501), Some(550), Some(553)} ==>
        retry == Ok(false) && server.log == old(server.log)
      ensures retry == Ok(true) ==> err.Refused? && MayTalk()
      ensures retry.Err? ==> retry.error in {BadArgument, Io}
    {
      hide CleanArg;
      var code := ReplyCode(err);
      if code in {Some(500), Some(502), Some(504)} {
        appe := false;
        return Ok(true);
      }
      if code !in {Some(501), Some(550), Some(553)} { return Ok(false); }
      var size := RemoteSize(path);
      if size.Err? { return Err(size.error); }
      retry := Ok(size.value == Some(offset));
    }

    /** REST + STOR from `offset` on, after nothing or part of an APPE was stored. */
    method Resume(ghost before: map<Path, bytes>, path: Path, offset: nat, data: bytes)
        returns (r: Result<(), Error>)
      requires MayTalk() && CleanArg(path)
      requires PartlyStored(before, server.files, Appe(path), 0, data) && OnlyAt(before, server.files, path)
      modifies this, server
      ensures Valid() && OnlyAt(before, server.files, path)
      ensures (!broken ==> Left() in {0, old(Left())}) && (!broken && old(Straight()) ==> Straight())
      ensures Later(old(server.Now()), server.Now())
      ensures r.Ok? ==> |server.log| > |old(server.log)| && LastOf(server.log) == Some(Stor(path))
      ensures old(Working()) ==> Working() && r.Ok?
      ensures r.Err? ==> BrokenOff(before, server.files, path, offset, data)
      ensures r.Ok? && offset == |FileAt(before, path)| ==> FileAt(server.files, path) == FileAt(before, path) + data
      ensures r.Err? ==> r.error != BadOffset
      ensures old(broken) ==> broken
    {
      hide Placed, Stored, OnlyAt, PartlyStored, BrokenOff, Later, CleanArg;
      ghost var partly := server.files;
      r := StoreFrom(Stor(path), data, Some(offset));
      OnlyAtStep(before, partly, server.files, path);
      if r.Err? { BreakOff(before, partly, server.files, path, offset, data); }
      if r.Ok? && offset == |FileAt(before, path)| {
        ResumedAppend(before, partly, server.files, path, data);
      }
    }
  }

  function LastOf(log: seq<Command>): Option<Command> { if log == [] then None else Some(log[|log| - 1]) }

  predicate EndsWithRest(log: seq<Command>) { LastOf(log).Some? && LastOf(log).value.Rest? }

  /** The marker left after a download from `offset` was refused for its path: that offset when
      the server took the REST and keeps it, else what was there before. */
  function LeftAfterRefusal(sticky: bool, log: seq<Command>, offset: nat, before: nat): nat {
    if sticky && EndsWithRest(log) then offset else before
  }

  lemma NotYet(p: Past)
    requires |p.seen| == |p.log|
    ensures Later(p, p)
  {
  }

  function SizeTold(reply: Reply): Option<nat> { if reply.code == 213 then reply.value else None }

  function Listed(listing: bytes): bytes { listing[..Min(67_108_864, |listing|)] }

  /** How far a download opened at `offset` may have been moved by a marker left over: not at
      all behind an accepted REST, by the whole marker otherwise. */
  predicate Shifted(s: nat, offset: nat, left: nat) { s == left || (s == 0 && offset > 0) }

  lemma WholeFile(file: bytes, marker: nat)
    ensures From(file, marker) == file <==> marker == 0 || file == []
  {
    assert marker < |file| ==> |From(file, marker)| == |file| - marker;
  }

  lemma NothingThere(file: bytes, offset: nat, skip: nat)
    requires From(file, offset) == []
    ensures From(file, offset + skip) == []
  {
  }

  lemma NothingBehind(file: bytes, offset: nat, s: nat, n: nat)
    requires From(file, offset + s) == []
    ensures Slice(file, offset + s, n) == []
  {
  }

  /** However an upload ends, a first part of what was sent is stored, or nothing happened. */
  lemma MaybeConcluded(before: map<Path, bytes>, after: map<Path, bytes>, log: seq<Command>, t: Transfer, data: bytes)
    requires t.command < |log| && t.stream <= data
    requires after == before || exists reply :: Concluded(before, after, log, t, reply)
    ensures var c := log[t.command];
      if c.IsUpload() then PartlyStored(before, after, c, t.start, data) && OnlyAt(before, after, c.path)
      else after == before
  {
    var c := log[t.command];
    if after != before && c.IsUpload() {
      var reply :| Concluded(before, after, log, t, reply);
      var kept :| kept <= t.stream && Placed(FileAt(before, c.path), after[c.path], c, t.start, kept);
      assert Stored(before, after, c, t.start, kept);
    }
  }

  lemma MoreStored(before: map<Path, bytes>, after: map<Path, bytes>, c: Command, start: nat, data: bytes)
    requires c.IsUpload()
    ensures PartlyStored(before, after, c, start, []) ==>
      PartlyStored(before, after, c, start, data) && OnlyAt(before, after, c.path)
  {
  }

  /** What a failed append may leave: part of an APPE, and on top part of a REST + STOR. */
  ghost predicate BrokenOff(before: map<Path, bytes>, after: map<Path, bytes>, path: Path, offset: nat, data: bytes) {
    exists partly ::
      PartlyStored(before, partly, Appe(path), 0, data) && PartlyStored(partly, after, Stor(path), offset, data)
  }

  lemma BreakOff(before: map<Path, bytes>, partly: map<Path, bytes>, after: map<Path, bytes>, path: Path, offset: nat,
      data: bytes)
    requires PartlyStored(before, partly, Appe(path), 0, data) && PartlyStored(partly, after, Stor(path), offset, data)
    ensures BrokenOff(before, after, path, offset, data)
  {
  }

  lemma OnlyAtStep(a: map<Path, bytes>, b: map<Path, bytes>, c: map<Path, bytes>, path: Path)
    ensures OnlyAt(a, b, path) && OnlyAt(b, c, path) ==> OnlyAt(a, c, path)
    ensures OnlyAt(a, a, path)
  {
  }

  lemma NotStored(files: map<Path, bytes>, c: Command, start: nat, data: bytes)
    requires c.IsUpload()
    ensures PartlyStored(files, files, c, start, data)
  {
  }

  /** APPE does not look at the marker. */
  lemma PartlyAppended(before: map<Path, bytes>, after: map<Path, bytes>, path: Path, start: nat, data: bytes)
    ensures PartlyStored(before, after, Appe(path), start, data) ==> PartlyStored(before, after, Appe(path), 0, data)
  {
    if PartlyStored(before, after, Appe(path), start, data) && after != before {
      var kept :| kept <= data && Stored(before, after, Appe(path), start, kept);
      assert Stored(before, after, Appe(path), 0, kept);
    }
  }

  lemma Appended(before: map<Path, bytes>, after: map<Path, bytes>, path: Path, start: nat, data: bytes)
    requires Stored(before, after, Appe(path), start, data) || (data == [] && after == before)
    ensures FileAt(after, path) == FileAt(before, path) + data
  {
  }

  /** An append that broke off part-way and was then stored again from the old end. */
  lemma ResumedAppend(before: map<Path, bytes>, partly: map<Path, bytes>, after: map<Path, bytes>, path: Path,
      data: bytes)
    requires PartlyStored(before, partly, Appe(path), 0, data)
    requires var offset := |FileAt(before, path)|;
      Stored(partly, after, Stor(path), offset, data) || (data == [] && after == partly)
    ensures FileAt(after, path) == FileAt(before, path) + data
  {
  }

  /** Only the file of `c` changed, and it holds `data` from the marker on. */
  ghost predicate Stored(before: map<Path, bytes>, after: map<Path, bytes>, c: Command, start: nat, data: bytes)
    requires c.IsUpload()
  {
    && c.path in after && after == before[c.path := after[c.path]]
    && Placed(FileAt(before, c.path), after[c.path], c, start, data)
  }

  /** No other file changed. */
  ghost predicate OnlyAt(before: map<Path, bytes>, after: map<Path, bytes>, path: Path) {
    after == before || (path in after && after == before[path := after[path]])
  }

  ghost predicate PartlyStored(before: map<Path, bytes>, after: map<Path, bytes>, c: Command, start: nat, data: bytes)
    requires c.IsUpload()
  {
    after == before || exists kept :: kept <= data && Stored(before, after, c, start, kept)
  }

  lemma PrefixStep(all: bytes, buf: bytes, rest: bytes, got: bytes, left: bytes)
    requires buf + rest <= all && got + left <= rest
    ensures (buf + got) + left <= all
    ensures buf + rest == all && got + left == rest ==> (buf + got) + left == all
  {
  }

  /** What an open download has left: the file from `position` on, or less of it where the
      server has cut it short. */
  ghost predicate RestOf(t: Transfer, file: bytes, position: nat) {
    t.stream <= From(file, position) && (!t.aborted ==> t.stream == From(file, position))
  }

  /** Reading up to `n` bytes of a download. */
  lemma ReadOn(file: bytes, position: nat, before: Transfer, buf: bytes, after: Transfer, n: nat)
    requires RestOf(before, file, position) && |buf| <= n && buf + after.stream <= before.stream
    requires |buf| < n ==> after.stream == []
    requires !after.aborted ==> !before.aborted && buf + after.stream == before.stream
    ensures RestOf(after, file, position + |buf|)
    ensures |buf| == n || !after.aborted ==> buf == Slice(file, position, n)
    ensures |buf| < n && !after.aborted ==> From(file, position + n) == []
  {
    FromPrefix(file, position, buf, after.stream, n);
  }

  /** Reading on from `offset` leaves the stream at the position behind what was read. */
  lemma FromPrefix(file: bytes, offset: nat, buf: bytes, rest: bytes, n: nat)
    requires buf + rest <= From(file, offset)
    ensures rest <= From(file, offset + |buf|)
    ensures buf + rest == From(file, offset) ==> rest == From(file, offset + |buf|)
    ensures |buf| == n || (|buf| < n && rest == [] && buf + rest == From(file, offset)) ==>
      buf == Slice(file, offset, n)
  {
  }

  // ---- whole runs ----

  datatype Op =
    | Range(path: Path, offset: nat, length: nat, recent: bool)
    | Whole(path: Path)
    | List(path: Path)
    | Store(path: Path, data: bytes)
    | Append(path: Path, offset: nat, data: bytes)
    | Ask(path: Path)
    | Plain(line: string)

  datatype Answer =
    | Bytes(bytes: bytes)
    | Done
    | Told(size: Option<nat>)
    | Replied(reply: Reply)

  /** The right answer to an operation that found the files `before` and left them `after`, its
      commands being `sent` from number `at` on. A success is that of the operation's own
      command; reads change nothing, and uploads nothing else and, failing, no more than a part. */
  ghost predicate RightAnswer(listing: Listings, effect: Effects, at: nat, sent: seq<Command>, before: map<Path, bytes>,
      after: map<Path, bytes>, op: Op, r: Result<Answer, Error>)
  {
    match op
    case Range(path, offset, length, _) =>
      && after == before
      && (r.Ok? ==> r.value == Bytes(Slice(FileAt(before, path), offset, length)))
      && (r.Ok? && sent != [] ==> LastOf(sent) == Some(Retr(path)))
    case Whole(path) =>
      && after == before
      && (r.Ok? ==> r.value == Bytes(FileAt(before, path)) && LastOf(sent) == Some(Retr(path)))
    case List(path) =>
      && after == before
      && (r.Ok? ==> r.value == Bytes(Listed(listing(before, path))) && LastOf(sent) == Some(Listing(path)))
    case Store(path, data) =>
      && OnlyAt(before, after, path)
      && (r.Ok? ==> FileAt(after, path) == data || (data == [] && after == before))
      && (r.Ok? ==> LastOf(sent) == Some(Stor(path)))
      && (r.Err? ==> PartlyStored(before, after, Stor(path), 0, data))
    case Append(path, offset, data) =>
      && OnlyAt(before, after, path)
      && (r.Ok? && offset == |FileAt(before, path)| ==> FileAt(after, path) == FileAt(before, path) + data)
      && (r.Ok? ==> LastOf(sent) in {Some(Appe(path)), Some(Stor(path))})
      && (r.Err? ==> BrokenOff(before, after, path, offset, data))
      && (r == Err(BadOffset) ==> after == before && offset != |FileAt(before, path)|)
    case Ask(path) =>
      && after == before
      && (r.Ok? ==> r.value.Told? && r.value.size in {None, Some(|FileAt(before, path)|)} && sent == [Size(path)])
    case Plain(line) =>
      && (sent == [] || sent == [Other(line)])
      && after == (if sent == [] then before else effect(at, before, line))
      && (r.Ok? ==> sent != [] && r.value.Replied? && r.value.reply.command == at)
  }

  /** What an obliging server makes succeed. */
  predicate Fulfillable(op: Op, files: map<Path, bytes>) {
    match op
    case Range(path, _, length, _) => length == 0 || IsOneLine(path)
    case Whole(path) => IsOneLine(path)
    case List(path) => IsOneLine(path)
    case Store(path, _) => IsOneLine(path)
    case Append(path, offset, _) => IsOneLine(path) && offset == |FileAt(files, path)|
    case Ask(path) => IsOneLine(path)
    case Plain(line) => IsOneLine(line)
  }

  /** An operation whose commands were those from number `from` up to `to`, judged by what the
      server itself has been through. */
  ghost predicate RightAt(listing: Listings, effect: Effects, p: Past, from: nat, to: nat, op: Op,
      r: Result<Answer, Error>)
  {
    && from <= to <= |p.log|
    && RightAnswer(listing, effect, from, p.log[from..to], FilesAt(p, from), FilesAt(p, to), op, r)
  }

  /** The one kind of operation that can leave a marker behind. */
  predicate Trips(op: Op) {
    op.Range? && op.offset > 0 && op.length > 0 && !IsOneLine(op.path)
  }

  predicate TripsBefore(ops: seq<Op>, n: nat)
    requires n <= |ops|
  {
    exists i :: 0 <= i < n && Trips(ops[i])
  }

  /** One operation of the driver. */
  method Perform(conn: Conn, op: Op) returns (r: Result<Answer, Error>)
    requires conn.Valid() && !conn.broken
    modifies conn, conn.server
    ensures conn.Valid() && Later(old(conn.server.Now()), conn.server.Now())
    ensures old(conn.Straight()) ==>
      var server := conn.server;
      RightAt(server.listing, server.effect, server.Now(), |old(server.log)|, |server.log|, op, r)
    ensures old(conn.Straight()) && !conn.broken ==> conn.Straight() || (conn.server.sticky && Trips(op))
    ensures old(conn.Working()) ==> conn.Working() && (r.Ok? <==> Fulfillable(op, old(conn.server.files)))
  {
    hide RightAnswer, CleanArg, IsOneLine, Later;
    ghost var p := conn.server.Now();
    if op.Store? || op.Append? {
      r := PerformWrite(conn, op);
    } else if op.Plain? {
      r := PerformPlain(conn, op);
    } else if op.Range? {
      r := PerformRange(conn, op);
    } else {
      r := PerformRead(conn, op);
    }
    SentSince(p, conn.server.Now());
  }

  method PerformRange(conn: Conn, op: Op) returns (r: Result<Answer, Error>)
    requires conn.Valid() && !conn.broken && op.Range?
    modifies conn, conn.server
    ensures conn.Valid() && Later(old(conn.server.Now()), conn.server.Now())
    ensures old(conn.Straight()) ==>
      var server := conn.server;
      var at := |old(server.log)|;
      && at <= |server.log|
      && RightAnswer(server.listing, server.effect, at, server.log[at..], old(server.files), server.files, op, r)
    ensures old(conn.Straight()) && !conn.broken ==> conn.Straight() || (conn.server.sticky && Trips(op))
    ensures old(conn.Working()) ==> conn.Working() && (r.Ok? <==> Fulfillable(op, old(conn.server.files)))
  {
    hide Slice, From, FileAt, CleanArg, IsOneLine, Later, RightAnswer;
    CleanMeaning(op.path);
    ghost var p := conn.server.Now();
    var got := conn.ReadRange(op.path, op.offset, op.length, op.recent);
    r := Returned(got);
    ghost var q := conn.server.Now();
    SentSince(p, q);
    if op.length == 0 { NoneOfNothing(FileAt(p.files, op.path), op.offset); }
    RangeIsRight(conn.server.listing, conn.server.effect, |p.log|, q.log[|p.log|..], p.files, op, got);
  }

  lemma RangeIsRight(listing: Listings, effect: Effects, at: nat, sent: seq<Command>, files: map<Path, bytes>, op: Op,
      got: Result<bytes, Error>)
    requires op.Range? && (got.Ok? && sent != [] ==> LastOf(sent) == Some(Retr(op.path)))
    ensures (got.Ok? ==> got.value == Slice(FileAt(files, op.path), op.offset, op.length)) ==>
      RightAnswer(listing, effect, at, sent, files, files, op, Returned(got))
  {
  }

  method PerformRead(conn: Conn, op: Op) returns (r: Result<Answer, Error>)
    requires conn.Valid() && !conn.broken && (op.Whole? || op.List? || op.Ask?)
    modifies conn, conn.server
    ensures conn.Valid() && Later(old(conn.server.Now()), conn.server.Now())
    ensures old(conn.Straight()) ==>
      var server := conn.server;
      var at := |old(server.log)|;
      && at <= |server.log|
      && RightAnswer(server.listing, server.effect, at, server.log[at..], old(server.files), server.files, op, r)
    ensures old(conn.Straight()) && !conn.broken ==> conn.Straight() || (conn.server.sticky && Trips(op))
    ensures old(conn.Working()) ==> conn.Working() && (r.Ok? <==> Fulfillable(op, old(conn.server.files)))
  {
    hide Slice, From, FileAt, CleanArg, IsOneLine, Later;
    CleanMeaning(op.path);
    ghost var p := conn.server.Now();
    match op {
      case Whole(path) =>
        WholeFile(FileAt(p.files, path), 0);
        var got := conn.RetrieveAll(path);
        r := Returned(got);
      case List(path) =>
        var got := conn.ReadListing(path);
        r := Returned(got);
      case Ask(path) =>
        var told := conn.RemoteSize(path);
        r := if told.Ok? then Ok(Told(told.value)) else Err(told.error);
    }
    SentSince(p, conn.server.Now());
  }

  method PerformWrite(conn: Conn, op: Op) returns (r: Result<Answer, Error>)
    requires conn.Valid() && !conn.broken && (op.Store? || op.Append?)
    modifies conn, conn.server
    ensures conn.Valid() && Later(old(conn.server.Now()), conn.server.Now())
    ensures old(conn.Straight()) ==>
      var server := conn.server;
      var at := |old(server.log)|;
      && at <= |server.log|
      && RightAnswer(server.listing, server.effect, at, server.log[at..], old(server.files), server.files, op, r)
    ensures old(conn.Straight()) && !conn.broken ==> conn.Straight()
    ensures old(conn.Working()) ==> conn.Working() && (r.Ok? <==> Fulfillable(op, old(conn.server.files)))
  {
    hide Stored, PartlyStored, BrokenOff, OnlyAt, CleanArg, IsOneLine, FileAt, Later;
    CleanMeaning(op.path);
    ghost var p := conn.server.Now();
    match op {
      case Store(path, data) =>
        var done := conn.StoreFrom(Stor(path), data, None);
        StoredWhole(p.files, conn.server.files, path, data);
        r := if done.Ok? then Ok(Done) else Err(done.error);
      case Append(path, offset, data) =>
        var done := conn.AppendAt(path, offset, data);
        r := if done.Ok? then Ok(Done) else Err(done.error);
    }
    SentSince(p, conn.server.Now());
  }

  method PerformPlain(conn: Conn, op: Op) returns (r: Result<Answer, Error>)
    requires conn.Valid() && !conn.broken && op.Plain?
    modifies conn, conn.server
    ensures conn.Valid() && Later(old(conn.server.Now()), conn.server.Now())
    ensures
      var server := conn.server;
      var at := |old(server.log)|;
      && at <= |server.log|
      && RightAnswer(server.listing, server.effect, at, server.log[at..], old(server.files), server.files, op, r)
    ensures old(conn.Straight()) && !conn.broken ==> conn.Straight()
    ensures old(conn.Working()) ==> conn.Working() && (r.Ok? <==> Fulfillable(op, old(conn.server.files)))
  {
    hide CleanArg, IsOneLine, FileAt, Later, OneLine;
    CleanMeaning(op.line);
    ghost var p := conn.server.Now();
    var reply := conn.Send(Other(op.line));
    r := if reply.Ok? then Ok(Replied(reply.value)) else Err(reply.error);
    SentSince(p, conn.server.Now());
  }

  lemma StoredWhole(before: map<Path, bytes>, after: map<Path, bytes>, path: Path, data: bytes)
    ensures Stored(before, after, Stor(path), 0, data) ==> FileAt(after, path) == data
  {
  }

  lemma NoneOfNothing(file: bytes, offset: nat)
    ensures Slice(file, offset, 0) == []
  {
  }

  function Returned(got: Result<bytes, Error>): Result<Answer, Error> {
    if got.Ok? then Ok(Bytes(got.value)) else Err(got.error)
  }

  /** The commands sent since a moment. */
  lemma SentSince(p: Past, q: Past)
    requires Later(p, q)
    ensures |p.log| <= |q.log| && FilesAt(q, |p.log|) == p.files && FilesAt(q, |q.log|) == q.files
    ensures |p.log| < |q.log| ==> LastOf(q.log[|p.log|..]) == LastOf(q.log)
    ensures q.log[|p.log|..|q.log|] == q.log[|p.log|..]
    ensures q.log == p.log ==> q.log[|p.log|..] == []
    ensures forall c :: q.log == p.log + [c] ==> q.log[|p.log|..] == [c]
  {
  }

  lemma RightStays(listing: Listings, effect: Effects, p: Past, q: Past, from: nat, to: nat, op: Op,
      r: Result<Answer, Error>)
    requires Later(p, q) && RightAt(listing, effect, p, from, to, op, r)
    ensures RightAt(listing, effect, q, from, to, op, r)
  {
    hide RightAnswer;
    FilesStay(p, q, from);
    FilesStay(p, q, to);
    assert q.log[from..to] == p.log[from..to];
  }

  /** The marks of a run: where in the server's log each operation began, and where the last ended. */
  ghost predicate Marked(p: Past, start: nat, marks: seq<nat>, n: nat) {
    && |marks| == n + 1 && marks[0] == start && marks[n] == |p.log|
    && forall i :: 0 <= i <= n ==> marks[i] <= |p.log|
  }

  /** Every answer is right, except behind an operation that tripped a server that keeps its
      marker. */
  ghost predicate AllRight(listing: Listings, effect: Effects, sticky: bool, p: Past, marks: seq<nat>, ops: seq<Op>,
      answers: seq<Result<Answer, Error>>)
  {
    && |answers| <= |ops| && |marks| == |answers| + 1
    && forall i :: 0 <= i < |answers| && (sticky ==> !TripsBefore(ops, i)) ==>
      RightAt(listing, effect, p, marks[i], marks[i + 1], ops[i], answers[i])
  }

  /** Exactly the operations that can succeed did. */
  ghost predicate AllDone(p: Past, marks: seq<nat>, ops: seq<Op>, answers: seq<Result<Answer, Error>>) {
    && |answers| <= |ops| && |marks| == |answers| + 1
    && forall i :: 0 <= i < |answers| ==> (answers[i].Ok? <==> Fulfillable(ops[i], FilesAt(p, marks[i])))
  }

  lemma AllRightStep(listing: Listings, effect: Effects, sticky: bool, p: Past, q: Past, marks: seq<nat>, ops: seq<Op>,
      answers: seq<Result<Answer, Error>>, r: Result<Answer, Error>)
    requires AllRight(listing, effect, sticky, p, marks, ops, answers) && Later(p, q) && |answers| < |ops|
    requires marks[|answers|] == |p.log|
    requires (sticky ==> !TripsBefore(ops, |answers|)) ==>
      RightAt(listing, effect, q, |p.log|, |q.log|, ops[|answers|], r)
    ensures AllRight(listing, effect, sticky, q, marks + [|q.log|], ops, answers + [r])
  {
    hide RightAt, Later, TripsBefore;
    var all, more := answers + [r], marks + [|q.log|];
    forall i | 0 <= i < |all| && (sticky ==> !TripsBefore(ops, i))
      ensures RightAt(listing, effect, q, more[i], more[i + 1], ops[i], all[i])
    {
      if i < |answers| { RightStays(listing, effect, p, q, marks[i], marks[i + 1], ops[i], answers[i]); }
    }
  }

  lemma AllDoneStep(p: Past, q: Past, marks: seq<nat>, ops: seq<Op>, answers: seq<Result<Answer, Error>>,
      r: Result<Answer, Error>)
    requires AllDone(p, marks, ops, answers) && Later(p, q) && |answers| < |ops|
    requires Marked(p, marks[0], marks, |answers|) && (r.Ok? <==> Fulfillable(ops[|answers|], p.files))
    ensures AllDone(q, marks + [|q.log|], ops, answers + [r])
  {
    hide Fulfillable, Later, FilesAt;
    Advance(p, q);
    var all, more := answers + [r], marks + [|q.log|];
    forall i | 0 <= i < |all| ensures all[i].Ok? <==> Fulfillable(ops[i], FilesAt(q, more[i])) {
      FilesStay(p, q, marks[i]);
    }
  }

  /** Any run of reads, listings, uploads, appends, size questions and plain commands on one
      connection: every reply read belongs to the command sent last; as long as the connection
      is not retired, client and server stay in step; and every answer is right, however
      downloads stay open in between, are continued, closed or restarted — unless the server
      keeps an unused marker and an earlier range read was refused for its path. Right means by
      the server's own log, and the files it held, between the `marks`. With an obliging server
      every operation that can succeed does. */
  method Run(conn: Conn, ops: seq<Op>) returns (answers: seq<Result<Answer, Error>>, ghost marks: seq<nat>)
    requires conn.Valid() && !conn.broken && conn.Straight()
    modifies conn, conn.server
    ensures conn.Valid() && |answers| <= |ops| && Later(old(conn.server.Now()), conn.server.Now())
    ensures Marked(conn.server.Now(), |old(conn.server.log)|, marks, |answers|)
    ensures forall i :: 0 <= i < |conn.record| ==> conn.record[i].0 == conn.record[i].1.command
    ensures !conn.broken ==> |answers| == |ops| && conn.InSync()
    ensures var server := conn.server;
      AllRight(server.listing, server.effect, server.sticky, server.Now(), marks, ops, answers)
    ensures !conn.broken && (conn.server.sticky ==> !TripsBefore(ops, |ops|)) ==> conn.Straight()
    ensures old(conn.Working()) ==> conn.Working() && AllDone(conn.server.Now(), marks, ops, answers)
  {
    hide AllRight, AllDone, Later, FilesAt, Trips, Fulfillable;
    answers, marks := [], [|conn.server.log|];
    ghost var start := conn.server.Now();
    NothingDone(conn.server.listing, conn.server.effect, conn.server.sticky, start, marks, ops);
    while |answers| < |ops| && !conn.broken
      invariant conn.Valid() && |answers| <= |ops| && Later(start, conn.server.Now())
      invariant Marked(conn.server.Now(), |start.log|, marks, |answers|)
      invariant !conn.broken && (conn.server.sticky ==> !TripsBefore(ops, |answers|)) ==> conn.Straight()
      invariant
        var server := conn.server;
        AllRight(server.listing, server.effect, server.sticky, server.Now(), marks, ops, answers)
      invariant old(conn.Working()) ==> conn.Working() && AllDone(conn.server.Now(), marks, ops, answers)
      decreases |ops| - |answers|
    {
      hide RightAt;
      var k := |answers|;
      ghost var p := conn.server.Now();
      var r := Perform(conn, ops[k]);
      ghost var q := conn.server.Now();
      Advance(p, q);
      LaterStep(start, p, q);
      AllRightStep(conn.server.listing, conn.server.effect, conn.server.sticky, p, q, marks, ops, answers, r);
      if old(conn.Working()) { AllDoneStep(p, q, marks, ops, answers, r); }
      assert TripsBefore(ops, k + 1) <== TripsBefore(ops, k) || Trips(ops[k]);
      answers, marks := answers + [r], marks + [|conn.server.log|];
    }
  }

  lemma NothingDone(listing: Listings, effect: Effects, sticky: bool, p: Past, marks: seq<nat>, ops: seq<Op>)
    requires |p.seen| == |p.log| && marks == [|p.log|]
    ensures Later(p, p) && AllRight(listing, effect, sticky, p, marks, ops, []) && AllDone(p, marks, ops, [])
  {
  }

  // ---- where a run goes wrong ----

  /** The failing run: a range read refused for its path, then a whole-file read. `between` is
      what the server got up to then. The second answer is the file from the first one's offset
      on exactly when the server keeps its marker and the last command it got was REST; that is
      wrong unless the file is empty. With an obliging server it happens. */
  method StaleRun(conn: Conn, bad: Path, offset: nat, length: nat, recent: bool, good: Path)
      returns (first: Result<bytes, Error>, second: Result<bytes, Error>, ghost between: seq<Command>)
    requires conn.Valid() && !conn.broken && conn.Straight() && offset > 0 && length > 0 && !IsOneLine(bad)
    modifies conn, conn.server
    ensures conn.Valid() && conn.server.files == old(conn.server.files)
    ensures old(conn.server.log) <= between <= conn.server.log
    ensures first.Err? && (second.Ok? ==> LastOf(conn.server.log) == Some(Retr(good)))
    ensures var stale := first == Err(BadArgument) && conn.server.sticky && EndsWithRest(between);
      var file := FileAt(conn.server.files, good);
      second.Ok? ==>
        && second.value == From(file, if stale then offset else 0)
        && (second.value == file <==> !stale || file == [])
    ensures old(conn.Working()) ==>
      first == Err(BadArgument) && EndsWithRest(between) && (second.Ok? <==> IsOneLine(good))
  {
    hide CleanArg, IsOneLine;
    CleanMeaning(bad);
    CleanMeaning(good);
    ghost var start := conn.server.Now();
    first := conn.ReadRange(bad, offset, length, recent);
    between := conn.server.log;
    ghost var middle := conn.server.Now();
    if conn.broken { return first, Err(Io), between; }
    second := conn.RetrieveAll(good);
  }
}
