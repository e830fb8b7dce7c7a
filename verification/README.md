# A verified model of RustSCP's state machines

This Dafny project models the hand-written logic underneath RustSCP's protocols and proves what
it is for. The network, the disk, the clock and the other end of each connection are ghost
environments: every choice they can make is left open, and where a proof needs an honest server
the model says what honest means. The SFTP channel, its transport, the FTP server and the host
key file may also be obliging, refusing nothing they can do and never failing; against those the
model shows that operations succeed.

| part of the source | modules |
|---|---|
| SFTP over an exec channel: request table, reader role, framing, open files | `ReplyTable`, `Ledger`, `Multiplexer`, `Wire`, `Framing`, `ByteChannel`, `ExecFile` |
| FTP control connection with a download that may stay open | `FtpServer`, `FtpConn` |
| directory synchronizer | `SyncPlan`, `SyncEngine` |
| host keys: matcher, file format, trust on first use | `Glob`, `KnownHosts`, `TrustStore` |
| caches: LRU index, disk cache, path encoder, chunk cache | `ContentIndex`, `DiskCache`, `PathEncoder`, `ChunkCache` |
| change debouncer | `Debounce` |
| template renderer | `Template` |
| shell-event parser | `ShellEvents` |
| multipart uploads and copies | `Multipart` |
| shared vocabulary | `Common`, `Text`, `Ordering` |

The wire format is SFTP version 3 (sections 3, 6.4 and 7 of draft-ietf-secsh-filexfer-02); the
control connection follows section 5.4 of RFC 959 and section 5 of RFC 3659.

Classes follow the source's mutable structures; each method is proved against a function of the
old state, and the promises are proved about those functions. A step of the multiplexer is one
lock-held section, so a run is any interleaving of such sections.

`dafny verify dfyconfig.toml` checks the whole project.

## Where the code does less than one might expect

- `glob_match` tests literal equality before `*`, so a literal `*` in the text can be consumed
  without being remembered. `Glob.RightTexts` and `Glob.RightPatterns` give the exact conditions.
- `ExecFile` asks for whole chunks from its position on, as long as their end fits the offset
  type, so a read stops at the last chunk end below 2^64 even if the file goes on.
  `ExecFile.ExecFile.Read` gives the exact count, `ExecFile.ReadsAsArray` says exactly when that is
  what a plain array would give, and `ExecFile.SmallFilesAreArrays` that it always is for files
  that leave the last 32 KiB of the offset space free.
- After a read error `ExecFile` promises a clean read-ahead state; bytes already copied in that
  call may have moved the position.
- `start_transfer` sends REST before `check_arg` refuses a path with CR, LF or NUL. A server that
  keeps the marker until the next transfer is then left with a stale one exactly when REST was the
  last command it got (`FtpConn.Conn.ReadRange`), and the next whole-file read returns the file
  from there on, which is wrong unless the file is empty (`FtpConn.StaleRun`). `FtpConn.Run` shows
  that every other run answers rightly.
- `evict_locked` can end over the limit by the sizes of files it could not delete.
- After the SFTP stream broke, `in_flight` is only an upper bound on the reserved bytes.
- An item whose content check exceeds the limits keeps its provisional action, so convergence
  asks for trees small enough to be checked, or that the checks of both comparisons are within
  the limits.
- A same-size pair whose remote copy is newer is listed as a conflict while its contents have not
  been compared (`SyncPlan.Respects`).

## Model

| member | source | states |
|---|---|---|
| Multiplexer.OwnReply | crates/rustscp-core/src/exec_sftp.rs:565-657 | under every interleaving of senders, waiters and the reader, with ids wrapping at 2^32 and an honest server answering in any order, a thread that returns from `wait` with a reply has the very reply framed for the request that thread wrote, and each request is answered at most once |
| Multiplexer.EveryRunIsSafe | crates/rustscp-core/src/exec_sftp.rs:672-791 | in every state of every run, whatever the server sends: reserved bytes are exact while the stream is usable and bounded after it broke, within the budget; at most one thread holds the reader role; no thread sleeps unless one holds it; every request a thread waits for is its own |
| Multiplexer.EveryHonestRun | crates/rustscp-core/src/exec_sftp.rs:672-791 | the invariant of runs with an honest server: live ids stand for exactly one unanswered request each, the wire holds only owed replies, and a reader of a usable stream is owed one |
| Multiplexer.NeverSaturatesNorMisses | crates/rustscp-core/src/exec_sftp.rs:565-575 | the saturating subtraction of reserved bytes never saturates, and `wait` never finds its own request missing |
| Multiplexer.IdsAreFresh | crates/rustscp-core/src/exec_sftp.rs:723-727 | an id handed out by `send` is not the id of any request whose reply is still to be read |
| Multiplexer.HonestServerNeverBreaks | crates/rustscp-core/src/exec_sftp.rs:576-586 | only a failed network read or write breaks the stream; an honest server is never taken for a protocol error |
| Multiplexer.QuiescentTableIsEmpty | crates/rustscp-core/src/exec_sftp.rs:779-791 | once every request is answered or given up and all replies are read, the table is empty, the whole budget is free, and every request written was delivered or discarded |
| Multiplexer.ReaderIsOwedAReply | crates/rustscp-core/src/exec_sftp.rs:681-708 | whoever holds the reader role of a usable stream is owed a reply: one is on the wire or the server still has a request to answer |
| Multiplexer.NoLostWakeUp | crates/rustscp-core/src/exec_sftp.rs:681-708 | no wake-up is lost: in every state of every run, whatever the server sends, a sleeping thread still waits for something that has not happened: the stream is usable, a sender is over the budget, a waiter's reply has not been read |
| Multiplexer.RoleStep | crates/rustscp-core/src/exec_sftp.rs:681-708 | every action keeps a single reader and wakes every sleeper when the role is given up |
| Multiplexer.AccountedStep | crates/rustscp-core/src/exec_sftp.rs:710-791 | every action keeps the byte accounting |
| Multiplexer.OwnerStep | crates/rustscp-core/src/exec_sftp.rs:710-766 | every action keeps ids in the hands of the thread that wrote them |
| Multiplexer.ReaderStep | crates/rustscp-core/src/exec_sftp.rs:719-722 | a thread starts reading only when a reply is owed to it or reserved bytes are in flight |
| Multiplexer.SleepStep | crates/rustscp-core/src/exec_sftp.rs:681-708 | every action that ends what a sleeper waits for wakes it |
| Multiplexer.SendChoices | crates/rustscp-core/src/exec_sftp.rs:710-722 | on a usable stream a request whose whole packet exceeds 261,120 bytes is refused, one whose reply might overfill 12 MiB of expected ones waits, and any other is written when an id is free; never two of these |
| Multiplexer.HonestStep | crates/rustscp-core/src/exec_sftp.rs:565-588 | every action with an honest server keeps the link between ids, requests, wire and answers |
| ByteChannel.OwnBytes | crates/rustscp-core/src/exec_sftp.rs:565-657 | the main theorem down to the bytes: what a thread returns from `wait` with is a frame cut off the byte stream, the one framed for the request that thread wrote |
| ByteChannel.ReadRun | crates/rustscp-core/src/exec_sftp.rs:628-708 | reading a run's bytes packet by packet, whatever the transport's read script: the frames cut off are one for one those the reads of the run route; only the transport can fail, and all frames are read while its reads succeed and deliver enough |
| ByteChannel.InOrder | crates/rustscp-core/src/exec_sftp.rs:565-657 | in every state of every run, the frames sent are those read followed by those on the wire |
| ByteChannel.StoredWasRead | crates/rustscp-core/src/exec_sftp.rs:565-587 | a reply waiting in the table was read off the stream as the packet of its own request |
| ByteChannel.ReadSoFar | crates/rustscp-core/src/exec_sftp.rs:681-708 | the frame a read routes stands where as many frames precede it as reads were done |
| ReplyTable.State.Route | crates/rustscp-core/src/exec_sftp.rs:565-587 | a reply turns `Waiting` into `Done` and frees its bytes, empties a `Discard` slot, and breaks the stream for unknown or repeated ids |
| ReplyTable.State.Register | crates/rustscp-core/src/exec_sftp.rs:723-747 | `send` takes the first free id from `next_id` on, wrapping around, reserves its bytes when the write succeeded and breaks the stream when it failed |
| ReplyTable.State.TryTake | crates/rustscp-core/src/exec_sftp.rs:750-766 | one pass of `wait`: the reply exactly when it is there, giving up only on a broken stream or an unknown id |
| ReplyTable.State.DiscardAll | crates/rustscp-core/src/exec_sftp.rs:779-791 | discarding marks pending requests, drops read replies and touches no other id |
| ReplyTable.RoutedAccounted | crates/rustscp-core/src/exec_sftp.rs:565-587 | routing any reply, honest or not, keeps the accounting, and what it subtracts was reserved |
| ReplyTable.RegisteredAccounted | crates/rustscp-core/src/exec_sftp.rs:719-747 | a request that passed the budget check keeps the reserved bytes within the budget |
| ReplyTable.DiscardedSlots | crates/rustscp-core/src/exec_sftp.rs:779-791 | exactly what a discard leaves in every slot |
| ReplyTable.StepsNext | crates/rustscp-core/src/exec_sftp.rs:723-727 | the wrapping search for a free id gets one step closer to every free id |
| Ledger.ReceivedKeeps | crates/rustscp-core/src/exec_sftp.rs:565-587 | a reply read off the wire reaches the slot of the request it answers |
| Ledger.WrittenKeeps | crates/rustscp-core/src/exec_sftp.rs:723-747 | a newly written request gets an id nothing outstanding uses |
| Ledger.HandedKeeps | crates/rustscp-core/src/exec_sftp.rs:750-757 | handing a reply over delivers it once and frees its id |
| Ledger.DroppedKeeps | crates/rustscp-core/src/exec_sftp.rs:779-791 | discarded requests stay accounted until their late reply arrives |
| Ledger.AnsweredKeeps | crates/rustscp-core/src/exec_sftp.rs:565-587 | the server answering in any order keeps every owed reply matched to its request |
| Framing.Reader.NextPacket | crates/rustscp-core/src/exec_sftp.rs:628-657 | however the transport splits, delays or interrupts, the reply returned is the first frame of the stream and exactly its bytes are consumed; a protocol error only for a length out of bounds, and success where reads succeed and a frame is there |
| Framing.Reader.ParsePacket | crates/rustscp-core/src/exec_sftp.rs:603-626 | cuts off the first frame exactly when it is complete |
| Framing.Reader.Drain | crates/rustscp-core/src/exec_sftp.rs:628-657 | reading n replies of a stream of legal frames gives those frames in order, never a protocol error, and all of them where reads succeed |
| Framing.SplitEncode | crates/rustscp-core/src/exec_sftp.rs:729-735 | frames are self-delimiting: the encoder is undone whatever follows |
| Framing.SplitInverse | crates/rustscp-core/src/exec_sftp.rs:603-626 | what is cut off is the encoding of the frame returned |
| Framing.SplitExtends | crates/rustscp-core/src/exec_sftp.rs:603-626 | bytes that arrive later do not change a verdict |
| Wire.Cursor.Attrs | crates/rustscp-core/src/exec_sftp.rs:323-364 | the bounds-checked cursor reads attributes as the value parser does, with the same errors |
| Wire.Cursor.String | crates/rustscp-core/src/exec_sftp.rs:315-321 | a string field, or the error for a length past the end |
| Wire.Cursor.Pairs | crates/rustscp-core/src/exec_sftp.rs:351-354 | extended pairs are skipped one by one |
| Wire.AttrsRoundTrip | crates/rustscp-core/src/exec_sftp.rs:382-412 | attributes sent are read back: absent partners become 0, times keep 32 bits |
| Wire.ExtendedAttrsRoundTrip | crates/rustscp-core/src/exec_sftp.rs:323-364 | any extended pairs a server appends are skipped exactly |
| Wire.U64RoundTrip | crates/rustscp-core/src/exec_sftp.rs:307-313 | 64-bit numbers round-trip in network order |
| Wire.U32Bytes | crates/rustscp-core/src/exec_sftp.rs:299-305 | 32-bit numbers read are the bytes they came from |
| Wire.NetworkOrder | crates/rustscp-core/src/exec_sftp.rs:299-313 | numbers are read most significant byte first |
| Wire.ParseStringPut | crates/rustscp-core/src/exec_sftp.rs:375-379 | strings round-trip whatever follows |
| ExecFile.Run | crates/rustscp-core/src/exec_sftp.rs:1209-1422 | every run of reads, writes and seeks on an open file answers like a file with a cursor, up to the first error, however short the server cuts its replies, each answer by what the bytes and the position were before; like a plain byte array when the file leaves the last chunk of the offset space free; and never fails against a server that refuses nothing it has room for |
| ExecFile.FileDid | crates/rustscp-core/src/exec_sftp.rs:1230-1422 | what one operation of that file means, byte by byte: what is read, which bytes a write changes, where a seek goes |
| ExecFile.OverwriteBytes | crates/rustscp-core/src/exec_sftp.rs:1337-1381 | every byte of a file after a write |
| ExecFile.ReadBack | crates/rustscp-core/src/exec_sftp.rs:1209-1422 | after a write, seeking back and reading as many bytes gives the data written, exactly when those bytes end within reach |
| ExecFile.ReadsAsArray | crates/rustscp-core/src/exec_sftp.rs:1274-1285 | a read is that of a plain array exactly when what it asks for, or the file, ends within reach, or nothing is left |
| ExecFile.ReachOfMove | crates/rustscp-core/src/exec_sftp.rs:1274-1285 | after a seek or a write all but the last chunk of the offset space is within reach |
| ExecFile.SmallFilesAreArrays | crates/rustscp-core/src/exec_sftp.rs:1230-1335 | no read of a run on a file below the last chunk differs from that of a plain array |
| ExecFile.ExecFile.Read | crates/rustscp-core/src/exec_sftp.rs:1230-1335 | a read fills exactly min(buffer, what the file and the requests' reach have left) bytes with the file's own; after an error nothing stays read ahead |
| ExecFile.ExecFile.ReadStep | crates/rustscp-core/src/exec_sftp.rs:1239-1335 | the read loop keeps the stash and the queued requests tiling the file from the position on, and returns the exact count |
| ExecFile.ExecFile.RequestAhead | crates/rustscp-core/src/exec_sftp.rs:1274-1285 | requests are queued back to back until the queue is full, the limit is reached or the offset type ends |
| ExecFile.ExecFile.Refill | crates/rustscp-core/src/exec_sftp.rs:1274-1331 | one more reply, or the proof that nothing more can be asked for |
| ExecFile.ExecFile.NextReply | crates/rustscp-core/src/exec_sftp.rs:1286-1331 | each reply becomes the stash, the end of file, or an error |
| ExecFile.ExecFile.TakeData | crates/rustscp-core/src/exec_sftp.rs:1291-1316 | a short reply is repaired by asking for exactly what it left out |
| ExecFile.ExecFile.CopyOut | crates/rustscp-core/src/exec_sftp.rs:1253-1270 | bytes are handed out in order from the stash |
| ExecFile.ExecFile.Write | crates/rustscp-core/src/exec_sftp.rs:1337-1381 | a write changes exactly its range and moves the cursor behind it; a failed one changes nothing outside the range and leaves the cursor |
| ExecFile.ExecFile.SendAll | crates/rustscp-core/src/exec_sftp.rs:1342-1368 | chunks are sent in order with at most 64 unacknowledged, and the bytes land in exactly their range |
| ExecFile.ExecFile.SendChunk | crates/rustscp-core/src/exec_sftp.rs:1345-1368 | one chunk is written where asked, or fails within its range |
| ExecFile.ExecFile.MakeRoom | crates/rustscp-core/src/exec_sftp.rs:1348-1356 | the oldest write is waited for once 64 are unacknowledged |
| ExecFile.ExecFile.Seek | crates/rustscp-core/src/exec_sftp.rs:1400-1422 | a seek from the start goes to the offset, from the current position that far on, from the end that far from the size told (from 0 when none is); it fails exactly for targets below 0 or not below 2^64, and stays; moving drops the read-ahead |
| ExecFile.ExecFile.ResetReadAhead | crates/rustscp-core/src/exec_sftp.rs:1209-1216 | nothing stays queued, stashed or outstanding |
| ExecFile.TilesAppend | crates/rustscp-core/src/exec_sftp.rs:1274-1285 | queued requests cover the file without gap or overlap |
| ExecFile.QueuedFront | crates/rustscp-core/src/exec_sftp.rs:1299-1312 | a repair request in front keeps every queued request matched to its reply |
| ExecFile.QueuedPop | crates/rustscp-core/src/exec_sftp.rs:1286-1289 | taking the first request keeps the others matched |
| ExecFile.OverwriteAppend | crates/rustscp-core/src/exec_sftp.rs:1345-1368 | writing two adjacent chunks is writing them joined |
| ExecFile.NextChunk | crates/rustscp-core/src/exec_sftp.rs:1345-1368 | the next chunk of a buffer lands behind the ones before it |
| FtpConn.Run | crates/rustscp-core/src/ftp.rs:1440-1950 | in every run of range reads, whole reads, listings, uploads, appends, size questions and plain commands on one connection every reply read belongs to the command sent last, client and server stay in step, and every answer is right by the server's own log and the files it held, whichever downloads stay open in between; only a server that keeps an unused marker, after a range read was refused for its path, is excepted; with an obliging server exactly the operations that can succeed do |
| FtpConn.Perform | crates/rustscp-core/src/ftp.rs:1652-1950 | one operation answers rightly from a straight connection, by the commands it sent and the files before and after, and keeps the connection straight, except the one kind that can leave a marker behind |
| FtpConn.RightStays | crates/rustscp-core/src/ftp.rs:1440-1950 | what was right stays right as the server's log grows |
| FtpConn.StaleRun | crates/rustscp-core/src/ftp.rs:1619-1641 | the failing run: after a range read is refused for its path, a whole-file read returns the file from that offset on exactly when the server keeps its marker and the last command it had got was REST, else the whole file; with an obliging server it happens |
| FtpConn.Conn.ReadRange | crates/rustscp-core/src/ftp.rs:1788-1852 | a range read returns F[off..min(off+len,|F|)] by continuing the open download, by REST and RETR, or by skipping, and exactly how a marker left over shifts it; exactly which marker a refused path leaves; the open stream stands at `next_offset` |
| FtpConn.Conn.Continue | crates/rustscp-core/src/ftp.rs:1833-1851 | reading on from the open download |
| FtpConn.Conn.OpenAt | crates/rustscp-core/src/ftp.rs:1798-1831 | a download opened at an offset, shifted by nothing or by the marker left over; none exactly when the file ends before it |
| FtpConn.Conn.StartAt | crates/rustscp-core/src/ftp.rs:1798-1812 | REST and RETR, or where REST is refused RETR from the beginning with the prefix to skip |
| FtpConn.Conn.Skip | crates/rustscp-core/src/ftp.rs:1810-1824 | the prefix is discarded, or the file ends within it |
| FtpConn.Conn.Send | crates/rustscp-core/src/ftp.rs:1450-1477 | the reply read is the reply to this very command, and is recorded as such; one open download is closed first; exactly arguments with CR, LF or NUL are refused, and never sent |
| FtpConn.CleanCommand | crates/rustscp-core/src/ftp.rs:304-312 | the commands accepted are exactly those of one line |
| FtpConn.Conn.CloseRetr | crates/rustscp-core/src/ftp.rs:1440-1448 | closing an open download reads the one reply it owes |
| FtpConn.Conn.ReadReply | crates/rustscp-core/src/ftp.rs:1413-1438 | a reply, recorded with the number of the last command sent, whose reply it is; or a retired connection |
| FtpConn.Conn.OpenData | crates/rustscp-core/src/ftp.rs:1574-1617 | a data port by EPSV, else PASV, leaving the connection in step |
| FtpConn.Conn.AskPort | crates/rustscp-core/src/ftp.rs:1574-1617 | asking for a data port concludes an open download and leaves everything else alone |
| FtpConn.Conn.StartTransfer | crates/rustscp-core/src/ftp.rs:1619-1641 | a transfer starts from the restart marker asked for, else from the one left over; a transfer argument refused after REST was accepted leaves that marker behind, REST being the last command sent |
| FtpConn.Conn.SetMarker | crates/rustscp-core/src/ftp.rs:1627-1632 | REST is accepted and sets the marker, or refused and leaves it |
| FtpConn.Conn.Announce | crates/rustscp-core/src/ftp.rs:1633-1640 | the transfer command is the last one sent, or refused for its argument and never sent |
| FtpConn.Conn.FinishTransfer | crates/rustscp-core/src/ftp.rs:1643-1650 | the final reply is read and success is required |
| FtpConn.Conn.RetrieveAll | crates/rustscp-core/src/ftp.rs:1771-1786 | success returns the file from the marker left over on: the whole file exactly when there was none or the file is empty |
| FtpConn.Conn.ReadListing | crates/rustscp-core/src/ftp.rs:1652-1667 | the first bytes, up to the limit, of the folder's listing; the connection stays in step |
| FtpConn.Conn.StoreFrom | crates/rustscp-core/src/ftp.rs:1860-1907 | success means the data is in place from the marker asked for, or the one left over, on; a failure of any kind leaves at most a first part; no other file changes |
| FtpConn.Conn.Upload | crates/rustscp-core/src/ftp.rs:1886-1906 | what an announced upload leaves, by its final reply |
| FtpConn.Conn.AppendAt | crates/rustscp-core/src/ftp.rs:1921-1950 | on success a file that ended at the offset goes on with exactly the data, whether APPE worked, was refused, or broke off and REST + STOR took over; a failure leaves at most a part of each |
| FtpConn.Conn.FirstAppend | crates/rustscp-core/src/ftp.rs:1934-1949 | APPE, and where it is refused the second try |
| FtpConn.Conn.Resume | crates/rustscp-core/src/ftp.rs:1948-1949 | storing again from the old end completes a broken append |
| FtpConn.Conn.MayRetry | crates/rustscp-core/src/ftp.rs:1937-1947 | a refused append is tried again after codes 500, 502 and 504, remembered as not implemented, and after 501, 550 and 553 exactly when SIZE tells the old size |
| FtpConn.Conn.RemoteSize | crates/rustscp-core/src/ftp.rs:1909-1915 | the size the server tells is true, else unknown |
| FtpConn.ReadOn | crates/rustscp-core/src/ftp.rs:1810-1850 | reading part of an open download leaves the rest of the file from the position behind it, and what was read is the file's slice |
| FtpConn.FromPrefix | crates/rustscp-core/src/ftp.rs:1844-1850 | what is left of the stream stands behind what was read |
| SyncPlan.SecondSyncIsQuiet | crates/rustscp-core/src/sync.rs:361-550 | convergence: after every upload and download of a `Both` plan is done, with any resulting times, a second comparison lists the same paths with the same conflicts and otherwise only identical files |
| SyncPlan.Converges | crates/rustscp-core/src/sync.rs:361-550 | the same from what the two trees hold at every path, however the transfers were done |
| SyncPlan.CarryingOut | crates/rustscp-core/src/sync.rs:470-550 | carrying a plan out on the trees changes exactly the planned paths and keeps every folder readable |
| SyncPlan.ReceivedFiles | crates/rustscp-core/src/sync.rs:470-550 | transfers write exactly the paths planned with their direction |
| SyncPlan.PutOnly | crates/rustscp-core/src/sync.rs:296-318 | storing one file, creating its folders, changes no other path |
| SyncPlan.CarriedSettles | crates/rustscp-core/src/sync.rs:141-204 | after its transfer a pair is identical, or the same conflict as before |
| SyncPlan.JoinedInjective | crates/rustscp-core/src/sync.rs:312-318 | relative paths of proper names are told apart by their text |
| SyncEngine.Compare | crates/rustscp-core/src/sync.rs:361-462 | fails exactly when a folder to be compared cannot be read; else lists exactly the paths not to be left alone, once, sorted, each item with its own facts and the action that its sizes, times and contents call for, reading at most the budget from each side; with true sizes every check the limits allow tells identical copies from different ones |
| SyncEngine.CompareDirectories | crates/rustscp-core/src/sync.rs:343-360 | the comparison of a normal run: at most 256 MiB read from each side, and every item settled by its contents where the files are small |
| SyncEngine.AllRespect | crates/rustscp-core/src/sync.rs:141-204 | every listed item tells what its path calls for, and exactly the paths to leave alone are not listed |
| SyncEngine.ItemRespects | crates/rustscp-core/src/sync.rs:470-550 | when an item has which action, in sizes and raw times: in both directions a copy is overwritten only by one later by more than two whole seconds, outside size-only comparison never one later than that; identical only if the bytes compared are |
| SyncEngine.ExactSettles | crates/rustscp-core/src/sync.rs:250-294 | every pair whose contents decide and are affordable is identical exactly if both files hold the same bytes, and never a conflict |
| SyncPlan.NewerMeaning | crates/rustscp-core/src/sync.rs:97-111 | one side is newer exactly if its time is three seconds or more ahead of the other, both being known |
| SyncPlan.FolderExists | crates/rustscp-core/src/sync.rs:385-446 | which folders there are to compare |
| SyncEngine.Walk | crates/rustscp-core/src/sync.rs:376-446 | the stack visits every folder once, terminates, and plans each file of each folder |
| SyncEngine.PlanFiles | crates/rustscp-core/src/sync.rs:465-550 | one folder: its files that call for an action, each once, with a pending check exactly for the undecided ones |
| SyncEngine.Settle | crates/rustscp-core/src/sync.rs:448-457 | checks run smallest first within the budget, and each verdict reaches its own item |
| SyncEngine.CompareContents | crates/rustscp-core/src/sync.rs:250-294 | equal, different or unverified, reading no more than the file from each side and stopping at the first difference |
| SyncEngine.SyncTwice | crates/rustscp-core/src/sync.rs:343-462 | comparing two trees, carrying the plan out and comparing what results: both plans are those of the two comparisons, and for trees whose files are small enough to check the second one succeeds and asks for no transfer; for others when both plans' checks are within the limits |
| SyncEngine.SmallAgain | crates/rustscp-core/src/sync.rs:448-457 | after the transfers of a small plan the second one is within the limits too |
| SyncEngine.SmallFits | crates/rustscp-core/src/sync.rs:448-457 | every content check of a small plan is within the limits |
| SyncEngine.Enough | crates/rustscp-core/src/sync.rs:448-457 | the budget left covers the next check whenever all files no larger fit the budget together |
| SyncEngine.FramesStep | crates/rustscp-core/src/sync.rs:426-445 | the work list never holds a folder below another |
| SyncEngine.CoveredStep | crates/rustscp-core/src/sync.rs:385-446 | no folder is forgotten |
| SyncEngine.PlannedStep | crates/rustscp-core/src/sync.rs:415-424 | no path is planned twice |
| SyncEngine.CountStep | crates/rustscp-core/src/sync.rs:385-446 | each turn leaves fewer folders to visit |
| SyncEngine.SamePaths | crates/rustscp-core/src/sync.rs:459-460 | sorting keeps the listed paths |
| Glob.GlobMatch | crates/rustscp-core/src/known_hosts.rs:163-187 | the greedy matcher decides the declarative relation whenever the text or the pattern has no `*` |
| Glob.ScanDecides | crates/rustscp-core/src/known_hosts.rs:163-187 | remembering only the last `*` is enough, from any point of the loop |
| Glob.RightTexts | crates/rustscp-core/src/known_hosts.rs:163-187 | a text is matched rightly by all patterns exactly when it has no `*` |
| Glob.RightPatterns | crates/rustscp-core/src/known_hosts.rs:163-187 | a pattern matches all texts rightly exactly when it has no `*` |
| Glob.StarAbsorbs | crates/rustscp-core/src/known_hosts.rs:163-187 | a `*` stands for any text |
| Glob.MissedMatch | crates/rustscp-core/src/known_hosts.rs:169-171 | the texts with `*` that the loop gets wrong |
| KnownHosts.HostFieldMatches | crates/rustscp-core/src/known_hosts.rs:131-160 | some positive pattern fits and no negated one does |
| KnownHosts.HostFieldMeaning | crates/rustscp-core/src/known_hosts.rs:131-160 | the same in terms of what patterns mean, for names without `*` |
| KnownHosts.PatternsJoin | crates/rustscp-core/src/known_hosts.rs:147-148 | a comma joins two lists of patterns |
| KnownHosts.TwoNames | crates/rustscp-core/src/known_hosts.rs:147-160 | a list of two names speaks for both, and only for the first when the second is negated |
| KnownHosts.ParseKnownHosts | crates/rustscp-core/src/known_hosts.rs:80-126 | the entries are exactly those of the lines that are a marker or none, a host field, a key type and a key, in order and with their line numbers |
| KnownHosts.LineMeaning | crates/rustscp-core/src/known_hosts.rs:81-126 | what makes a line an entry, and which |
| KnownHosts.SkippedLine | crates/rustscp-core/src/known_hosts.rs:81-118 | blank lines, comments, other `@` words and lines of too few fields give no entry |
| KnownHosts.MarkedLine | crates/rustscp-core/src/known_hosts.rs:89-101 | the line written for a key, behind `@revoked` or `@cert-authority`, is one entry with that marker, name and key |
| KnownHosts.WordAt | crates/rustscp-core/src/known_hosts.rs:88-105 | fields are separated by any white space and by nothing else |
| KnownHosts.KeyTypeAt | crates/rustscp-core/src/known_hosts.rs:35-42 | the key type stands behind a length of four bytes, most significant first |
| KnownHosts.LineRoundTrip | crates/rustscp-core/src/known_hosts.rs:261-269 | the line written for a key parses back to that name, type and key |
| KnownHosts.AppendedParses | crates/rustscp-core/src/known_hosts.rs:583-606 | an appended line adds exactly its own entry and changes no earlier one, whether or not the file ended in a newline |
| KnownHosts.LinesAppended | crates/rustscp-core/src/known_hosts.rs:586-601 | appending adds one line |
| KnownHosts.OwnName | crates/rustscp-core/src/known_hosts.rs:131-160 | an entry written here speaks for its own name and no other |
| KnownHosts.CheckKnownHosts | crates/rustscp-core/src/known_hosts.rs:203-229 | a revocation first, then an exact key, then the first other key of the host |
| KnownHosts.StatusLines | crates/rustscp-core/src/known_hosts.rs:203-229 | the line and the key type a refusal names |
| KnownHosts.HostsAreApart | crates/rustscp-core/src/known_hosts.rs:46-57 | two hosts share a name exactly if they are one bare host and the ports are the same, 0 standing for 22 |
| KnownHosts.BareHostOf | crates/rustscp-core/src/known_hosts.rs:47-51 | the bare host is the text without white space around it, brackets around that, and case |
| KnownHosts.DecimalValue | crates/rustscp-core/src/known_hosts.rs:52-56 | ports are written in decimal |
| KnownHosts.OnePortEach | crates/rustscp-core/src/known_hosts.rs:46-57 | an entry written for one port of a host speaks for that port alone, 0 standing for 22 |
| KnownHosts.NamesArePlain | crates/rustscp-core/src/known_hosts.rs:46-57 | the names looked up are written to the file as they are |
| TrustStore.TrustOnFirstUse | crates/rustscp-core/src/known_hosts.rs:495-580 | over whole runs of visits to any hosts and from any initial file, a key is accepted exactly when it is not revoked and is one recorded at the start or, if none was, the key of the first such visit |
| TrustStore.AfterRun | crates/rustscp-core/src/known_hosts.rs:495-580 | what a run leaves in the file: earlier entries unchanged, one recorded key for a host first seen in it |
| TrustStore.ConnectAll | crates/rustscp-core/src/known_hosts.rs:495-580 | the store itself follows that run, connection by connection, as long as appends succeed; it stops only at a first use whose line got into the file in part, and never when the file can be written |
| TrustStore.VisitStep | crates/rustscp-core/src/known_hosts.rs:495-580 | one visit seen from any name |
| TrustStore.StatusMeaning | crates/rustscp-core/src/known_hosts.rs:203-229 | revoked, known, unknown and mismatching in terms of the sets of keys a file holds |
| TrustStore.JudgementMeaning | crates/rustscp-core/src/known_hosts.rs:500-550 | the judgement over any number of files, by the keys each holds and revokes for the name |
| TrustStore.MarkedLineAdded | crates/rustscp-core/src/known_hosts.rs:89-101 | a revoked line added to any file bars that key for that name and does nothing else; a line of a certificate authority does nothing |
| TrustStore.RevokedIsRefused | crates/rustscp-core/src/known_hosts.rs:500-516 | a key on a revoked line of any file is refused unless an earlier file knows it |
| TrustStore.HostKeyStore.Verify | crates/rustscp-core/src/known_hosts.rs:495-580 | refused exactly when the first file that says anything about the key revokes it, or no file does and one lists the name with another key; known exactly when that first file knows it; else the key is recorded in the own file; a failed write leaves at most a part of the new line |
| TrustStore.HostKeyStore.TrustSharedKeys | crates/rustscp-core/src/known_hosts.rs:397-443 | refused and unchanged exactly when a key is revoked or the host is known by none of them; else the missing keys are added |
| TrustStore.SharedKeysAreKnown | crates/rustscp-core/src/known_hosts.rs:397-443 | shared keys are known afterwards and nothing earlier changes |
| TrustStore.HostKeyStore.AppendLine | crates/rustscp-core/src/known_hosts.rs:583-606 | the line appended, or a part of it when writing fails |
| ContentIndex.Index.Insert | crates/rustscp-core/src/disk_cache.rs:87-93 | inserting makes a file the newest and keeps both maps and the total in step with one recency list |
| ContentIndex.Index.Touch | crates/rustscp-core/src/disk_cache.rs:95-102 | touching a listed file makes it the newest |
| ContentIndex.Index.Remove | crates/rustscp-core/src/disk_cache.rs:104-109 | removing forgets exactly one path |
| ContentIndex.Index.RemovePrefix | crates/rustscp-core/src/disk_cache.rs:111-121 | forgets exactly a path and everything below it |
| ContentIndex.Index.PopOldest | crates/rustscp-core/src/disk_cache.rs:123-129 | pops the least recently used file |
| ContentIndex.TakenOut | crates/rustscp-core/src/disk_cache.rs:104-109 | both maps lose exactly one file and the subtraction of its size never saturates |
| ContentIndex.PutLast | crates/rustscp-core/src/disk_cache.rs:87-93 | both maps gain exactly one newest file |
| ContentIndex.KeepKeep | crates/rustscp-core/src/disk_cache.rs:111-121 | removing paths one by one in any order is removing them together |
| DiskCache.ManagedDiskCache.Evict | crates/rustscp-core/src/disk_cache.rs:670-686 | pops the shortest least-recently-used part of the list that brings the rest within the limit; what could not be deleted comes back as newest |
| DiskCache.EvictedFits | crates/rustscp-core/src/disk_cache.rs:670-686 | the total ends within the limit plus the sizes of undeletable files |
| DiskCache.NewestStays | crates/rustscp-core/src/disk_cache.rs:600-642 | a newest file that fits alone is never evicted |
| DiskCache.ManagedDiskCache.PutFileContent | crates/rustscp-core/src/disk_cache.rs:600-642 | a file up to a quarter of the limit is stored after exactly what stood in its way is cleared, becomes the newest of the files listed before (or found by the first scan), and survives the eviction; every other file stays on the disk; a larger one is not stored and its old copy alone is forgotten |
| DiskCache.ManagedDiskCache.Prepare | crates/rustscp-core/src/disk_cache.rs:616-630 | room for a file: exactly what is above or below its path goes, or the write fails |
| DiskCache.ManagedDiskCache.GetFileContent | crates/rustscp-core/src/disk_cache.rs:579-594 | the stored bytes, and the file becomes the newest |
| DiskCache.ManagedDiskCache.Invalidate | crates/rustscp-core/src/disk_cache.rs:646-653 | what is at or below the path is forgotten and deleted as far as possible; nothing else changes |
| DiskCache.ManagedDiskCache.ClearParents | crates/rustscp-core/src/disk_cache.rs:557-576 | files standing where folders are needed are removed and forgotten, and nothing else |
| DiskCache.ManagedDiskCache.LoadIndex | crates/rustscp-core/src/disk_cache.rs:655-668 | the first use lists every file the scan sees, each once with its size, least recently accessed first; later uses change nothing |
| DiskCache.ManagedDiskCache.ScanCachedFiles | crates/rustscp-core/src/disk_cache.rs:313-341 | every readable cached file once, sorted by access time |
| DiskCache.ManagedDiskCache.EnforceLru | crates/rustscp-core/src/disk_cache.rs:690-695 | the limit enforced on request: eviction from the list as it was, or as the first scan finds it |
| PathEncoder.NamesDiffer | crates/rustscp-core/src/disk_cache.rs:200-221 | every name is portable also after case folding, and different components get names that differ by more than case |
| PathEncoder.PathsDiffer | crates/rustscp-core/src/disk_cache.rs:225-231 | the same local path, case aside, means the same components |
| PathEncoder.Pieces | crates/rustscp-core/src/disk_cache.rs:225-233 | a path is made of what stands between its slashes, but for nothing and a single dot |
| PathEncoder.PlainNames | crates/rustscp-core/src/disk_cache.rs:195-223 | lower-case letters, digits, `_`, `-` and inner dots stay, up to 200 of them, unless they name a device |
| PathEncoder.ShortRoundTrip | crates/rustscp-core/src/disk_cache.rs:200-221 | the short form is undone after case folding, device names included |
| PathEncoder.ShortLooks | crates/rustscp-core/src/disk_cache.rs:186-221 | no separator, no leading or trailing dot, no device name, never the mark of the long form |
| PathEncoder.NotReserved | crates/rustscp-core/src/disk_cache.rs:186-191 | case folding makes no new device name |
| PathEncoder.DecodeEscapes | crates/rustscp-core/src/disk_cache.rs:200-216 | escapes are undone from any point |
| PathEncoder.EncodeComponent | crates/rustscp-core/src/disk_cache.rs:200-221 | the loop escapes, tweaks device names and replaces long results |
| PathEncoder.EncodedComponents | crates/rustscp-core/src/disk_cache.rs:225-231 | empty and `.` components are dropped, the others encoded in order |
| ChunkCache.ChunkCacheManager.PutChunkChecked | crates/rustscp-cache/src/lib.rs:135-185 | stores the chunk, evicts by the rules, drops a clean chunk that still does not fit, keeps the total exact; a false result means every chunk still held is dirty |
| ChunkCache.ChunkCacheManager.EvictClean | crates/rustscp-cache/src/lib.rs:158-174 | only clean chunks under other keys, least recently used first, only while over a limit |
| ChunkCache.EvictionIsDetermined | crates/rustscp-cache/src/lib.rs:158-174 | those rules leave no choice |
| ChunkCache.PutPromises | crates/rustscp-cache/src/lib.rs:135-185 | dirty chunks stay, other bytes do not change, a put within the limits evicts nothing, an over-full cache holds only dirty chunks |
| ChunkCache.ChunkCacheManager.GetChunk | crates/rustscp-cache/src/lib.rs:121-126 | the last bytes put under the key, marked as just used |
| ChunkCache.ChunkCacheManager.MarkClean | crates/rustscp-cache/src/lib.rs:208-213 | changes one flag |
| ChunkCache.ChunkCacheManager.InvalidateFile | crates/rustscp-cache/src/lib.rs:215-226 | drops exactly one file and keeps the total exact |
| ChunkCache.SumWithin | crates/rustscp-cache/src/lib.rs:158-174 | fewer chunks weigh less |
| Debounce.Debouncer.Poll | crates/rustscp-core/src/continuous_sync.rs:304-415 | folders parents first, then files, then removals; a due folder with everything below it, or as many entries as allowed, exactly when an event since it began to wait created, renamed or removed it; a due file exactly when it is as last looked at or waited ten seconds; a due missing path is covered unless it was created, never renamed and not known; nothing else is reported, and everything else still waits |
| Debounce.ReportTells | crates/rustscp-core/src/continuous_sync.rs:304-415 | the same of any report, by the events since each path began to wait, the disk and the known paths |
| Debounce.CutIsFull | crates/rustscp-core/src/continuous_sync.rs:263-300 | nothing below a new folder goes unreported unless as many paths below it as the limit allows are reported |
| Debounce.ReportedOnce | crates/rustscp-core/src/continuous_sync.rs:390-414 | over one picture of the disk no path is reported twice |
| Debounce.OverdueIsReported | crates/rustscp-core/src/continuous_sync.rs:361-372 | a path past its longest wait no longer waits after any poll, and a file among them is reported |
| Debounce.WaitingIsBounded | crates/rustscp-core/src/continuous_sync.rs:225-244 | events and rechecks never move the deadline past first_seen + MAX_PENDING + STABILITY_RECHECK |
| Debounce.Debouncer.Record | crates/rustscp-core/src/continuous_sync.rs:225-244 | a raw event for a path in scope and not ignored starts or prolongs its waiting, ten seconds at most from the first; no other path changes |
| Debounce.RelativeMeaning | crates/rustscp-core/src/continuous_sync.rs:209-223 | which paths are in scope, and what they are called below the first root above them |
| Debounce.Debouncer.CheckDue | crates/rustscp-core/src/continuous_sync.rs:305-388 | every due path is looked at once and settles, keeps waiting or goes away |
| Debounce.Debouncer.CheckPath | crates/rustscp-core/src/continuous_sync.rs:319-388 | one due path: its events, whether it keeps waiting, and a walk cut off only at the limit |
| Debounce.WalkNewDir | crates/rustscp-core/src/continuous_sync.rs:263-300 | a new folder is reported with exactly what can be reached below it, or with as many entries as allowed; no path twice when no folder lists a name twice |
| Debounce.StillOnce | crates/rustscp-core/src/continuous_sync.rs:263-300 | handling an entry keeps every folder read once and every path reported once |
| Debounce.TopsApart | crates/rustscp-core/src/continuous_sync.rs:396-408 | the removals form an antichain covering every vanished path |
| Debounce.TopAbove | crates/rustscp-core/src/continuous_sync.rs:397-404 | every removed path has a reported one at or above it |
| Debounce.FreshPaths | crates/rustscp-core/src/continuous_sync.rs:392-394 | dropping repeats keeps each path once |
| Debounce.FreshOrder | crates/rustscp-core/src/continuous_sync.rs:390-394 | and keeps parents before children |
| Debounce.Debouncer.Remember | crates/rustscp-core/src/continuous_sync.rs:196-207 | the known paths stay within their limit |
| Debounce.KnownAfter | crates/rustscp-core/src/continuous_sync.rs:196-207 | below the limit, known is what was last reported as there |
| Debounce.Debouncer.NextDeadline | crates/rustscp-core/src/continuous_sync.rs:417-419 | the earliest deadline |
| Template.Render | crates/rustscp-actions/src/executor.rs:336-438 | the one pass gives the meaning of the nested blocks, trimmed; it fails exactly when tags do not nest, given supported tags and available variables |
| Template.NestedMeaning | crates/rustscp-actions/src/executor.rs:354-438 | the (active, taken) stack computes nested if/else/endif blocks, errors included |
| Template.RunBlock | crates/rustscp-actions/src/executor.rs:359-432 | from any state of the machine a block is rendered where the open conditionals allow it |
| Template.FailsIffNotNested | crates/rustscp-actions/src/executor.rs:387-435 | a nesting error exactly when no block has these tags |
| Template.NestsIsParsed | crates/rustscp-actions/src/executor.rs:387-435 | nesting is decided by reading the blocks back |
| Template.ParseFlatten | crates/rustscp-actions/src/executor.rs:387-435 | blocks are read back from their own tokens |
| Template.ParseSound | crates/rustscp-actions/src/executor.rs:387-435 | what is read back has these tokens |
| Template.ThirdBranchIsDead | crates/rustscp-actions/src/executor.rs:391-397 | branches after a second else show nothing, whatever follows |
| Template.BranchShown | crates/rustscp-actions/src/executor.rs:399-428 | which branch shows: `==` and `!=` compare the value, empty if absent, a bare name asks for more than "", "false" and "0", and `not` exchanges the branches |
| Template.HoldsMeaning | crates/rustscp-actions/src/executor.rs:399-428 | when a condition holds |
| Template.Scan | crates/rustscp-actions/src/executor.rs:354-436 | the loop over tokens |
| Template.RenderCommand | crates/rustscp-actions/src/executor.rs:336-438 | success exactly when no file is missing, every field has an effective value and the template renders; otherwise the error of the first of these to fail; the text is the template with the effective values of its fields |
| Template.CheckboxBranch | crates/rustscp-actions/src/executor.rs:300-428 | a checkbox given "true" or "1" shows the first branch of a test of its name, any other accepted value the second |
| Template.Substituted | crates/rustscp-actions/src/executor.rs:371-386 | a placeholder is read by the shell as one word, the value of the last field of that name; unknown ones and plain text stay |
| Template.EffectiveValues | crates/rustscp-actions/src/executor.rs:271-313 | every field gets its parameter, or else its default, trimmed; a checkbox true exactly for "true" and "1"; the error is that of the first field missing though required, or failing its checks |
| Template.EffectiveMeaning | crates/rustscp-actions/src/executor.rs:271-313 | one field's value, and which error it gives |
| Template.FieldIsOneWord | crates/rustscp-actions/src/executor.rs:315-326 | whatever a value holds, a POSIX shell reads it as part of one word with that very text |
| Template.BareWords | crates/rustscp-actions/src/executor.rs:141-151 | exactly the plain words stay bare |
| Template.NumericPlain | crates/rustscp-actions/src/executor.rs:318-322 | of a number its digits, points and signs stay |
| Text.TrimOf | crates/rustscp-actions/src/executor.rs:277-294 | trimming takes off the white space at both ends and nothing else |
| Template.ReadEscaped | crates/rustscp-actions/src/executor.rs:132-136 | single-quoted values are read back |
| ShellEvents.PromptReported | crates/rustscp-core/src/terminal.rs:407-425 | from any parser state the hook's report of a prompt, its sequences ended by BEL or by ESC and a backslash, gives exactly its command line, folder and status in order, each exactly when it fits the payload limit |
| ShellEvents.SequenceReported | crates/rustscp-core/src/terminal.rs:490-560 | from any parser state a sequence reports its text exactly when it fits |
| ShellEvents.KindReported | crates/rustscp-core/src/terminal.rs:541-561 | what a sequence of any kind reports |
| ShellEvents.EscapeRoundTrip | crates/rustscp-core/src/terminal.rs:564-579 | a command line escaped as the hook does comes back, without BEL and ESC |
| ShellEvents.Chunks | crates/rustscp-core/src/terminal.rs:489-527 | where output is split into chunks does not matter |
| ShellEvents.ShellEventParser.Feed | crates/rustscp-core/src/terminal.rs:489-527 | the skip to the next escape changes nothing against the byte-by-byte automaton |
| ShellEvents.ShellEventParser.Finish | crates/rustscp-core/src/terminal.rs:541-561 | what a finished sequence reports |
| ShellEvents.Collect | crates/rustscp-core/src/terminal.rs:506-514 | the payload is collected up to its limit |
| ShellEvents.SkipText | crates/rustscp-core/src/terminal.rs:496-504 | text without an escape changes nothing |
| ShellEvents.CutAt | crates/rustscp-core/src/terminal.rs:552-553 | the kind is cut at the first semicolon |
| Multipart.MultipartUpload | crates/rustscp-core/src/s3.rs:748-764 | success leaves exactly the data in at most 10,000 parts; failure leaves the object as it was unless only the final answer was lost |
| Multipart.UploadParts | crates/rustscp-core/src/s3.rs:767-820 | at most four transfers at a time, any completion order; the list is 1..k and every part holds its own bytes; it returns only when none is running |
| Multipart.FewParts | crates/rustscp-core/src/s3.rs:1866-1870 | no upload or copy needs more than 10,000 parts |
| Multipart.PartSizes | crates/rustscp-core/src/s3.rs:1866-1870 | parts are of at least 16 MiB in whole MiB, copied ranges of at least 512 MiB, and no larger than the part limit makes necessary |
| Multipart.Tiles | crates/rustscp-core/src/s3.rs:767-820 | the parts tile the data, each byte once |
| Multipart.InOrder | crates/rustscp-core/src/s3.rs:818-819 | sorted distinct numbers 1..n are the sequence |
| Multipart.ListIsAcceptable | crates/rustscp-core/src/s3.rs:748-764 | the service accepts the list of any upload that is not empty |
| Multipart.CopyObject | crates/rustscp-core/src/s3.rs:823-884 | a copy is whole up to 5 GiB, else its inclusive ranges tile the source in at most 10,000 parts |
| Multipart.CopyParts | crates/rustscp-core/src/s3.rs:848-876 | each range is copied once, in order |
| Multipart.StartParts | crates/rustscp-core/src/s3.rs:781-800 | parts are started in order while fewer than four run |
| Multipart.AssembledData | crates/rustscp-core/src/s3.rs:748-764 | the parts joined by number are the data |
| Ordering.SortByIsSorted | crates/rustscp-core/src/sync.rs:443-460 | the sorts of the plan and the checks |
| Ordering.SortByIsStable | crates/rustscp-core/src/sync.rs:443-460 | what compares as equal keeps its order |
## Left out

- Sockets, SSH and TLS set-up, certificates, HTTP, tokio scheduling, real file-system calls and notify back ends: replaced by servers, snapshots and nondeterministic choice.
- Cryptography and encodings of other libraries (SHA-256, HMAC, base64, UTF-8): functions with the inverse or injectivity a theorem needs as its hypothesis; the match of a hashed `|1|salt|hash` host field is one such function.
- Lock poisoning, timeouts as durations and log output; times are numbers that never run backwards.
- The SFTP start-up handshake and its login-noise heuristics, directory handles and path encoding of `exec_sftp.rs`.
- FTP and DOS/Unix listing parsers, reply-line parsing, login and TLS negotiation; a reply is its code and the number it carries.
- Multiplexer.EveryRunIsSafe: a thread that has read a packet goes back to the start of its locked section instead of continuing under the lock, which allows more interleavings than the source, not fewer.
- FtpConn.Conn.ReadListing: the listing stays bytes; it is not parsed into entries.
- FtpServer.MarkerAfter: a server is taken to use its restart marker up with any transfer command, also one it refuses; one that kept the marker over a refusal is not modelled.
- FtpConn.Run: commands outside transfers (DELE, RNFR and RNTO, MKD, …) change the files by an arbitrary function of their number, the files and the line; the pool of connections is not modelled, one connection at a time is.
- SyncEngine.Compare: folders are named by component lists, so `join_dir`'s choice of separator is not modelled; a listing has one file and one folder per name.
- SyncPlan.SecondSyncIsQuiet: transfers of a plan are taken as done; a path that is a file on one side and a folder on the other can be written in the model, where a real file system would refuse.
- Known-key-type and host-key listings (`known_key_types`, `host_keys`) and the order of `@revoked` lines across several files in whole runs; `TrustStore.HostKeyStore.Verify` itself takes any number of files.
- DiskCache.ManagedDiskCache.PutFileContent: one operation at a time; interleavings of tasks between the write and the index lock are not modelled, nor the in-memory catalogs and statistics.
- DiskCache.ManagedDiskCache.LoadIndex: access times and unreadable folders are a parameter; sidecar and temporary files, which the scan passes over, are not in the modelled directory.
- PathEncoder.PathsDiffer: the session folder in front of the components is a digest of its own and is left out.
- ChunkCache.ChunkCacheManager.PutChunkChecked: one operation at a time; ticks are drawn in the order of the operations.
- Debounce.Debouncer.Record: which names are ignored (`is_ignored_path`) is a parameter, and so is the classification of raw events.
- Debounce.Debouncer.Poll: the bounded outbox towards the consumer is not modelled.
- Template.Render: the template is a token sequence; the regular expressions that find tokens and conditions are not modelled, and context variables are a parameter.
- Template.EffectiveValues: the checks of a value against its field type are one parameter.
- ShellEvents.PromptReported: the bash code of the hook is represented by the escaping and the sequences it writes.
- Multipart.UploadParts: sizes are unbounded integers, so additions that overflow the machine word are not modelled.
- Code generation, catalogs, schemas, protocol plumbing, sharing files, scripting, key files and the user interface: tables, library calls or easier round trips.
