/** The host-key store: what is accepted, what is recorded, and trust on first use over
    whole runs. */
module TrustStore {
  import opened Common
  import opened KnownHosts
  import opened Ordering

  // ---- what a file says, by sets of keys ----

  /** The keys recorded for a name. */
  ghost function Known(lib: Library, entries: seq<Entry>, name: string): set<bytes> {
    set e | e in entries && Names(lib, e, name) :: e.key
  }

  /** The keys revoked for a name. */
  ghost function Barred(lib: Library, entries: seq<Entry>, name: string): set<bytes> {
    set e | e in entries && Revokes(lib, e, name, e.key) :: e.key
  }

  /** A revoked key is refused whatever else is listed, a listed key is known, any other key
      is a mismatch when the name is listed at all. */
  lemma StatusMeaning(lib: Library, entries: seq<Entry>, name: string, key: bytes)
    ensures var s := StatusIn(lib, entries, name, key);
      && (s.RevokedAt? <==> key in Barred(lib, entries, name))
      && (s.Match? <==> key in Known(lib, entries, name) - Barred(lib, entries, name))
      && (s.NotFound? <==> Known(lib, entries, name) == {} && key !in Barred(lib, entries, name))
  {
    hide HostMatches, KeyTypeOf;
    var revoked := First(entries, (e: Entry) => Revokes(lib, e, name, key));
    var named := First(entries, (e: Entry) => Names(lib, e, name));
    if key in Barred(lib, entries, name) {
      var e :| e in entries && Revokes(lib, e, name, e.key) && e.key == key;
      var i :| 0 <= i < |entries| && entries[i] == e;
      assert (e => Revokes(lib, e, name, key))(entries[i]);
    }
    if k :| k in Known(lib, entries, name) {
      var e :| e in entries && Names(lib, e, name) && e.key == k;
      var i :| 0 <= i < |entries| && entries[i] == e;
      assert (e => Names(lib, e, name))(entries[i]);
    }
    if named < |entries| {
      assert entries[named].key in Known(lib, entries, name);
    }
  }

  // ---- the store ----

  /** What all files together say about a key. */
  datatype Judgement = KnownIn(file: nat) | Refused(file: nat, why: Status) | FirstUse

  /** The first file that knows or revokes the key decides; else the first that lists the
      name with another key; else it is the first use. */
  function Judge(all: seq<Status>): Judgement {
    var decisive := First(all, (s: Status) => s.Match? || s.RevokedAt?);
    var other := First(all, (s: Status) => s.Mismatch?);
    if decisive < |all| then
      if all[decisive].Match? then KnownIn(decisive) else Refused(decisive, all[decisive])
    else if other < |all| then Refused(other, all[other])
    else FirstUse
  }

  function Statuses(lib: Library, files: seq<string>, name: string, key: bytes): seq<Status> {
    seq(|files|, i requires 0 <= i < |files| => StatusIn(lib, Parsed(lib, files[i]), name, key))
  }

  /** A file says something about the very key, as no earlier file does. */
  ghost predicate Decides(lib: Library, files: seq<string>, name: string, key: bytes, i: nat) {
    && i < |files|
    && key in Known(lib, Parsed(lib, files[i]), name) + Barred(lib, Parsed(lib, files[i]), name)
    && forall j :: 0 <= j < i ==>
      key !in Known(lib, Parsed(lib, files[j]), name) + Barred(lib, Parsed(lib, files[j]), name)
  }

  /** No file says anything about the key, but one lists the name with another. */
  ghost predicate KnownOtherwise(lib: Library, files: seq<string>, name: string, key: bytes) {
    && (forall i :: 0 <= i < |files| ==>
      key !in Known(lib, Parsed(lib, files[i]), name) + Barred(lib, Parsed(lib, files[i]), name))
    && exists i :: 0 <= i < |files| && Known(lib, Parsed(lib, files[i]), name) != {}
  }

  /** The first file that says anything about the key revokes it. */
  ghost predicate RevokedFirst(lib: Library, files: seq<string>, name: string, key: bytes) {
    exists i: nat :: Decides(lib, files, name, key, i) && key in Barred(lib, Parsed(lib, files[i]), name)
  }

  /** What the judgement is, by the keys each file holds for the name. */
  lemma JudgementMeaning(lib: Library, files: seq<string>, name: string, key: bytes)
    ensures var j := Judge(Statuses(lib, files, name, key));
      && (forall i: nat :: j == KnownIn(i) <==>
           Decides(lib, files, name, key, i) && key !in Barred(lib, Parsed(lib, files[i]), name))
      && (j.Refused? <==> KnownOtherwise(lib, files, name, key) || RevokedFirst(lib, files, name, key))
  {
    hide Known, Barred, StatusIn, Parsed;
    forall i | 0 <= i < |files|
      ensures var s, entries := Statuses(lib, files, name, key)[i], Parsed(lib, files[i]);
        && (s.RevokedAt? <==> key in Barred(lib, entries, name))
        && (s.Match? <==> key in Known(lib, entries, name) - Barred(lib, entries, name))
        && (s.NotFound? <==> Known(lib, entries, name) == {} && key !in Barred(lib, entries, name))
    {
      StatusMeaning(lib, Parsed(lib, files[i]), name, key);
    }
    var all := Statuses(lib, files, name, key);
    var decisive := First(all, (s: Status) => s.Match? || s.RevokedAt?);
    var other := First(all, (s: Status) => s.Mismatch?);
    if decisive < |all| { assert Decides(lib, files, name, key, decisive); }
  }

  datatype Verdict = Already(file: nat) | NewlyTrusted | TrustedNotSaved

  datatype Refusal = HostKeyMismatch | NotSaved

  /** The keys recorded for a name in any file, in order. */
  function Recorded(lib: Library, entries: seq<Entry>, name: string): seq<bytes> {
    if entries == [] then []
    else
      var n := |entries| - 1;
      Recorded(lib, entries[..n], name) + (if Names(lib, entries[n], name) then [entries[n].key] else [])
  }

  /** Every entry of every file. */
  function AllEntries(lib: Library, files: seq<string>): seq<Entry> {
    if files == [] then [] else AllEntries(lib, files[..|files| - 1]) + Parsed(lib, files[|files| - 1])
  }

  function Fresh(keys: seq<bytes>, known: set<bytes>): seq<bytes> {
    if keys == [] then []
    else
      var n := |keys| - 1;
      Fresh(keys[..n], known) + (if keys[n] in known then [] else [keys[n]])
  }

  /** A file after recording keys one by one. */
  function AppendedAll(lib: Library, contents: string, name: string, keys: seq<bytes>): string {
    if keys == [] then contents
    else
      var n := |keys| - 1;
      Appended(AppendedAll(lib, contents, name, keys[..n]), LineOf(lib, name, keys[n]))
  }

  class HostKeyStore {
    const lib: Library
    const writable: bool  // appends never fail
    /** The contents of the program's own file and of the files only read. */
    var appFile: string
    var readOnly: seq<string>

    constructor (lib: Library, writable: bool, appFile: string, readOnly: seq<string>)
      ensures this.lib == lib && this.writable == writable && this.appFile == appFile && this.readOnly == readOnly
    {
      this.lib, this.writable, this.appFile, this.readOnly := lib, writable, appFile, readOnly;
    }

    function Files(): seq<string> reads this { [appFile] + readOnly }

    /** A failing write may leave any part of the addition behind. */
    method AppendLine(line: string) returns (saved: bool)
      modifies this`appFile
      ensures saved ==> appFile == Appended(old(appFile), line)
      ensures old(appFile) <= appFile <= Appended(old(appFile), line)
      ensures writable ==> saved
    {
      var target := Appended(appFile, line);
      saved := *;
      if saved || writable {
        appFile := target;
        return true;
      }
      var n: nat := *;
      appFile := target[..if |appFile| <= n <= |target| then n else |appFile|];
      saved := false;
    }

    method Verify(host: string, port: nat, key: bytes) returns (v: Result<Verdict, Refusal>)
      modifies this`appFile
      ensures var name := HostName(host, port);
        match Judge(Statuses(lib, old(Files()), name, key))
        case KnownIn(file) => v == Ok(Already(file)) && appFile == old(appFile)
        case Refused(_, _) => v == Err(HostKeyMismatch) && appFile == old(appFile)
        case FirstUse =>
          && v.Ok? && !v.value.Already?
          && (v == Ok(NewlyTrusted) ==> appFile == Appended(old(appFile), LineOf(lib, name, key)))
          && old(appFile) <= appFile <= Appended(old(appFile), LineOf(lib, name, key))
          && (writable ==> v == Ok(NewlyTrusted))
      ensures var name, files := HostName(host, port), old(Files());
        && (v.Err? <==> KnownOtherwise(lib, files, name, key) || RevokedFirst(lib, files, name, key))
        && (forall i: nat :: v == Ok(Already(i)) <==>
             Decides(lib, files, name, key, i) && key !in Barred(lib, Parsed(lib, files[i]), name))
    {
      hide LineOf, Appended, HostName, StatusIn, Parsed, Known, Barred, KnownOtherwise, RevokedFirst, Decides;
      var name := HostName(host, port);
      var files := Files();
      ghost var all := Statuses(lib, files, name, key);
      ghost var decisive := First(all, (s: Status) => s.Match? || s.RevokedAt?);
      ghost var other := First(all, (s: Status) => s.Mismatch?);
      JudgementMeaning(lib, files, name, key);
      var mismatch: Option<nat> := None;
      for i := 0 to |files|
        invariant i <= decisive
        invariant mismatch == if other < i then Some(other) else None
        invariant appFile == old(appFile)
      {
        var s := CheckKnownHosts(lib, files[i], name, key);
        assert s == all[i];
        if s.RevokedAt? { return Err(HostKeyMismatch); }
        if s.Match? { return Ok(Already(i)); }
        if s.Mismatch? && mismatch.None? { mismatch := Some(i); }
      }
      if mismatch.Some? { return Err(HostKeyMismatch); }
      var saved := AppendLine(LineOf(lib, name, key));
      v := Ok(if saved then NewlyTrusted else TrustedNotSaved);
    }

    /** Keys vouched for by a shared connection: nothing is written when one of them is
        revoked or when the name is known by none of them; else the missing ones are added. */
    method TrustSharedKeys(host: string, port: nat, keys: seq<bytes>) returns (r: Result<nat, Refusal>)
      modifies this`appFile
      ensures var name, entries := HostName(host, port), AllEntries(lib, old(Files()));
        var known := Known(lib, entries, name);
        if keys == [] then r == Ok(0) && appFile == old(appFile)
        else if
          || (exists k :: k in keys && k in Barred(lib, entries, name))
          || (known != {} && known !! (set k | k in keys))
        then
          r == Err(HostKeyMismatch) && appFile == old(appFile)
        else
          && old(appFile) <= appFile <= AppendedAll(lib, old(appFile), name, Fresh(keys, known))
          && (r == Ok(|Fresh(keys, known)|) || r == Err(NotSaved))
          && (r.Ok? ==> appFile == AppendedAll(lib, old(appFile), name, Fresh(keys, known)))
    {
      hide Known, Barred, Recorded, Parsed, LineOf, Appended, HostName, AppendedAll;
      if keys == [] { return Ok(0); }
      var name := HostName(host, port);
      var files := Files();
      ghost var entries := AllEntries(lib, files);
      var known, revoked := GatherAll(files, name, keys);
      if revoked {
        return Err(HostKeyMismatch);
      }
      RecordedIsKnown(lib, entries, name);
      var missing := Missing(keys, known, Known(lib, entries, name));
      FreshLength(keys, Known(lib, entries, name));
      assert known != [] ==> known[0] in Known(lib, entries, name);
      if known != [] && |missing| == |keys| {
        return Err(HostKeyMismatch);
      }
      var saved := AppendKeys(name, missing);
      r := if saved then Ok(|missing|) else Err(NotSaved);
    }

    method AppendKeys(name: string, keys: seq<bytes>) returns (saved: bool)
      modifies this`appFile
      ensures old(appFile) <= appFile <= AppendedAll(lib, old(appFile), name, keys)
      ensures saved ==> appFile == AppendedAll(lib, old(appFile), name, keys)
    {
      hide LineOf;
      for i := 0 to |keys|
        invariant appFile == AppendedAll(lib, old(appFile), name, keys[..i])
        invariant old(appFile) <= appFile
      {
        assert keys[..i + 1][..i] == keys[..i];
        saved := AppendLine(LineOf(lib, name, keys[i]));
        if !saved {
          GrowsTo(lib, old(appFile), name, keys, i + 1);
          return false;
        }
      }
      assert keys[..|keys|] == keys;
      saved := true;
    }

    /** The keys not among the known ones, in order. */
    method Missing(keys: seq<bytes>, known: seq<bytes>, ghost all: set<bytes>) returns (missing: seq<bytes>)
      requires forall k :: k in known <==> k in all
      ensures missing == Fresh(keys, all)
    {
      missing := [];
      for i := 0 to |keys|
        invariant missing == Fresh(keys[..i], all)
      {
        assert keys[..i + 1][..i] == keys[..i];
        if keys[i] !in known { missing := missing + [keys[i]]; }
      }
      assert keys[..|keys|] == keys;
    }

    /** The recorded keys of all files, unless one of them revokes a given key. */
    method GatherAll(files: seq<string>, name: string, keys: seq<bytes>) returns (known: seq<bytes>, revoked: bool)
      ensures revoked <==> exists k :: k in keys && k in Barred(lib, AllEntries(lib, files), name)
      ensures !revoked ==> known == Recorded(lib, AllEntries(lib, files), name)
    {
      hide Known, Barred, Recorded, Parsed;
      assert files[..|files|] == files;
      known := [];
      NothingRecorded(lib, name);
      for i := 0 to |files|
        invariant known == Recorded(lib, AllEntries(lib, files[..i]), name)
        invariant forall k :: k in keys ==> k !in Barred(lib, AllEntries(lib, files[..i]), name)
      {
        var more, bad := Gather(files[i], name, keys);
        assert files[..i + 1][..i] == files[..i];
        RecordedAppend(lib, AllEntries(lib, files[..i]), Parsed(lib, files[i]), name);
        if bad {
          BarredInAll(lib, files, i, name);
          return known, true;
        }
        known := known + more;
      }
      revoked := false;
    }

    /** One file's part in `trust_shared_keys`: its recorded keys, unless it revokes one of
        the given ones. */
    method Gather(contents: string, name: string, keys: seq<bytes>) returns (known: seq<bytes>, revoked: bool)
      ensures revoked <==> exists k :: k in keys && k in Barred(lib, Parsed(lib, contents), name)
      ensures !revoked ==> known == Recorded(lib, Parsed(lib, contents), name)
    {
      hide HostMatches, Parsed, EntriesFit, Lines;
      known := [];
      var entries := ParseKnownHosts(lib, contents);
      for i := 0 to |entries|
        invariant known == Recorded(lib, entries[..i], name)
        invariant forall j :: 0 <= j < i && Revokes(lib, entries[j], name, entries[j].key) ==> entries[j].key !in keys
      {
        assert entries[..i + 1][..i] == entries[..i];
        var e := entries[i];
        var fits := HostFieldMatches(lib, e.hosts, name);
        if fits {
          if e.marker == Revoked && e.key in keys {
            assert Revokes(lib, e, name, e.key);
            assert e.key in Barred(lib, entries, name);
            return known, true;
          }
          if e.marker == Plain { known := known + [e.key]; }
        }
      }
      assert entries[..|entries|] == entries;
      revoked := false;
    }
  }

  lemma {:induction false} RecordedIsKnown(lib: Library, entries: seq<Entry>, name: string)
    ensures forall k :: k in Recorded(lib, entries, name) <==> k in Known(lib, entries, name)
  {
    if entries != [] {
      var n := |entries| - 1;
      RecordedIsKnown(lib, entries[..n], name);
      assert forall e :: e in entries <==> e in entries[..n] || e == entries[n];
    }
  }

  lemma RecordedAppend(lib: Library, a: seq<Entry>, b: seq<Entry>, name: string)
    ensures Recorded(lib, a + b, name) == Recorded(lib, a, name) + Recorded(lib, b, name)
    ensures Known(lib, a + b, name) == Known(lib, a, name) + Known(lib, b, name)
    ensures Barred(lib, a + b, name) == Barred(lib, a, name) + Barred(lib, b, name)
  {
    RecordedJoin(lib, a, b, name);
    KnownJoin(lib, a, b, name);
    BarredJoin(lib, a, b, name);
  }

  lemma {:induction false} RecordedJoin(lib: Library, a: seq<Entry>, b: seq<Entry>, name: string)
    ensures Recorded(lib, a + b, name) == Recorded(lib, a, name) + Recorded(lib, b, name)
  {
    if b == [] {
      assert a + b == a;
    } else {
      var n := |b| - 1;
      assert (a + b)[..|a| + n] == a + b[..n];
      RecordedJoin(lib, a, b[..n], name);
    }
  }

  lemma {:induction false} KnownJoin(lib: Library, a: seq<Entry>, b: seq<Entry>, name: string)
    ensures Known(lib, a + b, name) == Known(lib, a, name) + Known(lib, b, name)
  {
    if b == [] {
      assert a + b == a;
    } else {
      var n := |b| - 1;
      assert (a + b)[..|a| + n] == a + b[..n];
      KnownJoin(lib, a, b[..n], name);
    }
  }

  lemma {:induction false} BarredJoin(lib: Library, a: seq<Entry>, b: seq<Entry>, name: string)
    ensures Barred(lib, a + b, name) == Barred(lib, a, name) + Barred(lib, b, name)
  {
    if b == [] {
      assert a + b == a;
    } else {
      var n := |b| - 1;
      assert (a + b)[..|a| + n] == a + b[..n];
      BarredJoin(lib, a, b[..n], name);
    }
  }

  lemma NothingRecorded(lib: Library, name: string)
    ensures Recorded(lib, [], name) == [] && Known(lib, [], name) == {} && Barred(lib, [], name) == {}
  {
  }

  lemma {:induction false} BarredInAll(lib: Library, files: seq<string>, i: nat, name: string)
    requires i < |files|
    ensures Barred(lib, Parsed(lib, files[i]), name) <= Barred(lib, AllEntries(lib, files), name)
  {
    hide Known, Barred, Recorded, Parsed;
    var n := |files| - 1;
    RecordedAppend(lib, AllEntries(lib, files[..n]), Parsed(lib, files[n]), name);
    if i < n {
      BarredInAll(lib, files[..n], i, name);
    }
  }

  lemma {:induction false} FreshLength(keys: seq<bytes>, known: set<bytes>)
    ensures |Fresh(keys, known)| <= |keys|
    ensures |Fresh(keys, known)| == |keys| <==> known !! (set k | k in keys)
    ensures forall k :: k in keys <==> k in Fresh(keys, known) || (k in known && k in keys)
  {
    if keys != [] {
      var n := |keys| - 1;
      FreshLength(keys[..n], known);
      assert forall k :: k in keys <==> k in keys[..n] || k == keys[n];
    }
  }

  lemma {:induction false} GrowsTo(lib: Library, contents: string, name: string, keys: seq<bytes>, i: nat)
    requires i <= |keys|
    ensures AppendedAll(lib, contents, name, keys[..i]) <= AppendedAll(lib, contents, name, keys)
    decreases |keys|
  {
    if i == |keys| {
      assert keys[..i] == keys;
    } else {
      var n := |keys| - 1;
      assert keys[..n][..i] == keys[..i];
      GrowsTo(lib, contents, name, keys[..n], i);
    }
  }

  // ---- marked lines ----

  /** A revoked line added to any file bars the key for that name, and a line of a certificate
      authority says nothing about it; neither makes a key known, nor touches another name. */
  lemma MarkedLineAdded(lib: Library, contents: string, name: string, key: bytes, lookup: string)
    requires RoundTrips(lib) && IsPlainName(name) && IsPlainName(lookup) && IsWellFormed(lib, key)
    ensures var entries, line := Parsed(lib, contents), LineOf(lib, name, key);
      var revoked := Parsed(lib, Appended(contents, "@revoked " + line));
      var authority := Parsed(lib, Appended(contents, "@cert-authority " + line));
      && Known(lib, revoked, lookup) == Known(lib, authority, lookup) == Known(lib, entries, lookup)
      && Barred(lib, authority, lookup) == Barred(lib, entries, lookup)
      && Barred(lib, revoked, lookup) == Barred(lib, entries, lookup) + (if lookup == name then {key} else {})
  {
    hide Parsed, Known, Barred, Recorded, LineOf, Appended, IsPlainName, IsWellFormed, Lines, EntryOf, KeyTypeOf;
    var entries, line, number := Parsed(lib, contents), LineOf(lib, name, key), |Lines(contents)| + 1;
    var kind := Or(KeyTypeOf(lib, key), "ssh-unknown");
    MarkedLine(lib, number, name, key);
    OneMoreEntry(lib, contents, "@revoked " + line, Entry(number, Revoked, name, kind, key));
    OneMoreEntry(lib, contents, "@cert-authority " + line, Entry(number, CertAuthority, name, kind, key));
    MarkedSets(lib, Entry(number, Revoked, name, kind, key), lookup);
    MarkedSets(lib, Entry(number, CertAuthority, name, kind, key), lookup);
    RecordedAppend(lib, entries, [Entry(number, Revoked, name, kind, key)], lookup);
    RecordedAppend(lib, entries, [Entry(number, CertAuthority, name, kind, key)], lookup);
  }

  lemma OneMoreEntry(lib: Library, contents: string, line: string, e: Entry)
    requires '\n' !in line && EntryOf(lib, |Lines(contents)| + 1, line) == Some(e)
    ensures Parsed(lib, Appended(contents, line)) == Parsed(lib, contents) + [e]
  {
    hide EntryOf, Lines, Appended;
    LinesAppended(contents, line);
    EntriesAppend(lib, Lines(contents), line);
  }

  lemma MarkedSets(lib: Library, e: Entry, lookup: string)
    requires !e.marker.Plain? && IsPlainName(e.hosts) && IsPlainName(lookup)
    ensures Known(lib, [e], lookup) == {}
    ensures Barred(lib, [e], lookup) == if e.marker.Revoked? && e.hosts == lookup then {e.key} else {}
  {
    hide HostMatches, IsPlainName;
    OwnName(lib, e.hosts, lookup);
  }

  /** A key on a revoked line of any file is refused, unless an earlier file knows it. */
  lemma RevokedIsRefused(lib: Library, files: seq<string>, i: nat, contents: string, name: string, key: bytes)
    requires RoundTrips(lib) && IsPlainName(name) && IsWellFormed(lib, key)
    requires i < |files| && files[i] == Appended(contents, "@revoked " + LineOf(lib, name, key))
    requires forall j :: 0 <= j < i ==> key !in Known(lib, Parsed(lib, files[j]), name)
    ensures RevokedFirst(lib, files, name, key) && Judge(Statuses(lib, files, name, key)).Refused?
  {
    hide Parsed, Known, Barred, LineOf, Appended, IsPlainName, IsWellFormed, Judge;
    MarkedLineAdded(lib, contents, name, key, name);
    var n := Earliest(lib, files, i, name, key);
    JudgementMeaning(lib, files, name, key);
  }

  lemma Earliest(lib: Library, files: seq<string>, i: nat, name: string, key: bytes) returns (n: nat)
    requires i < |files| && key in Barred(lib, Parsed(lib, files[i]), name)
    requires forall j :: 0 <= j < i ==> key !in Known(lib, Parsed(lib, files[j]), name)
    ensures n <= i && Decides(lib, files, name, key, n) && key in Barred(lib, Parsed(lib, files[n]), name)
  {
    hide Parsed, Known, Barred;
    n := 0;
    while key !in Barred(lib, Parsed(lib, files[n]), name)
      invariant n <= i
      invariant forall j :: 0 <= j < n ==>
        key !in Known(lib, Parsed(lib, files[j]), name) + Barred(lib, Parsed(lib, files[j]), name)
      decreases i - n
    {
      n := n + 1;
    }
  }

  // ---- whole runs on one file ----

  /** One connection: the name looked up and the key presented. */
  datatype Visit = Visit(name: string, key: bytes)

  ghost predicate Proper(lib: Library, v: Visit) { IsPlainName(v.name) && IsWellFormed(lib, v.key) }

  function Says(lib: Library, contents: string, v: Visit): Status {
    StatusIn(lib, Parsed(lib, contents), v.name, v.key)
  }

  predicate Accepts(lib: Library, contents: string, v: Visit) {
    !Judge([Says(lib, contents, v)]).Refused?
  }

  /** The file after a visit whose append, if any, succeeds. */
  function Visited(lib: Library, contents: string, v: Visit): string {
    if Judge([Says(lib, contents, v)]) == FirstUse then Appended(contents, LineOf(lib, v.name, v.key)) else contents
  }

  function Run(lib: Library, start: string, visits: seq<Visit>): string {
    if visits == [] then start
    else Visited(lib, Run(lib, start, visits[..|visits| - 1]), visits[|visits| - 1])
  }

  /** The first visit to a name with a key that is not barred, or the number of visits. */
  function FirstVisit(visits: seq<Visit>, name: string, barred: set<bytes>): (n: nat)
    ensures n <= |visits|
    ensures forall i :: 0 <= i < n ==> visits[i].name != name || visits[i].key in barred
    ensures n < |visits| ==> visits[n].name == name && visits[n].key !in barred
  {
    if visits == [] || (visits[0].name == name && visits[0].key !in barred) then 0
    else 1 + FirstVisit(visits[1..], name, barred)
  }

  lemma OwnSets(lib: Library, own: Entry, name: string)
    requires own.marker == Plain && IsPlainName(own.hosts) && IsPlainName(name)
    ensures Barred(lib, [own], name) == {}
    ensures Known(lib, [own], name) == if own.hosts == name then {own.key} else {}
    ensures Recorded(lib, [own], name) == if own.hosts == name then [own.key] else []
  {
    hide HostMatches, IsPlainName;
    OwnName(lib, own.hosts, name);
  }

  /** The judgement of a single file. */
  lemma OneFile(s: Status)
    ensures Judge([s]) == if s.Match? then KnownIn(0) else if s.NotFound? then FirstUse else Refused(0, s)
  {
  }

  /** One visit, seen from any one name. */
  lemma VisitStep(lib: Library, contents: string, v: Visit, name: string)
    requires RoundTrips(lib) && Proper(lib, v) && IsPlainName(name)
    ensures var entries, after := Parsed(lib, contents), Parsed(lib, Visited(lib, contents, v));
      var known, barred := Known(lib, entries, name), Barred(lib, entries, name);
      && (v.name == name ==> (Accepts(lib, contents, v) <==> v.key !in barred && (known == {} || v.key in known)))
      && Barred(lib, after, name) == barred
      && (if v.name == name && known == {} && v.key !in barred then
            after == entries + [OwnEntry(lib, |Lines(contents)| + 1, name, v.key)] && Known(lib, after, name) == {v.key}
          else Recorded(lib, after, name) == Recorded(lib, entries, name) && Known(lib, after, name) == known)
      && entries <= after <= entries + [OwnEntry(lib, |Lines(contents)| + 1, v.name, v.key)]
  {
    hide Parsed, Known, Barred, Recorded, StatusIn, Judge, LineOf, Appended, IsPlainName, IsWellFormed, Lines;
    var entries := Parsed(lib, contents);
    StatusMeaning(lib, entries, v.name, v.key);
    OneFile(Says(lib, contents, v));
    AppendedParses(lib, contents, v.name, v.key);
    var own := OwnEntry(lib, |Lines(contents)| + 1, v.name, v.key);
    OwnSets(lib, own, name);
    RecordedAppend(lib, entries, [own], name);
  }

  /** What a run leaves in the file about one name. */
  lemma {:induction false} AfterRun(lib: Library, start: string, visits: seq<Visit>, name: string)
    requires RoundTrips(lib) && IsPlainName(name) && forall v :: v in visits ==> Proper(lib, v)
    ensures var before, after := Parsed(lib, start), Parsed(lib, Run(lib, start, visits));
      var known, barred := Known(lib, before, name), Barred(lib, before, name);
      var first := FirstVisit(visits, name, barred);
      && before <= after
      && Barred(lib, after, name) == barred
      && (if known != {} || first == |visits| then
            Known(lib, after, name) == known && Recorded(lib, after, name) == Recorded(lib, before, name)
          else
            Known(lib, after, name) == {visits[first].key}
            && Recorded(lib, after, name) == Recorded(lib, before, name) + [visits[first].key])
  {
    hide StatusIn, Known, Barred, Visited, Proper, IsPlainName, RoundTrips;
    if visits != [] {
      var n := |visits| - 1;
      var rest, v := visits[..n], visits[n];
      var middle := Run(lib, start, rest);
      AfterRun(lib, start, rest, name);
      VisitStep(lib, middle, v, name);
      var before := Parsed(lib, start);
      var barred := Barred(lib, before, name);
      SameFirst(visits, name, barred);
      OneMoreRecorded(lib, Parsed(lib, middle), OwnEntry(lib, |Lines(middle)| + 1, name, v.key), name);
    }
  }

  lemma OneMoreRecorded(lib: Library, entries: seq<Entry>, own: Entry, name: string)
    requires own.marker == Plain && own.hosts == name && IsPlainName(name)
    ensures Recorded(lib, entries + [own], name) == Recorded(lib, entries, name) + [own.key]
  {
    OwnName(lib, name, name);
    assert (entries + [own])[..|entries|] == entries;
  }

  lemma SameFirst(visits: seq<Visit>, name: string, barred: set<bytes>)
    requires visits != []
    ensures var n := |visits| - 1; var first := FirstVisit(visits[..n], name, barred);
      FirstVisit(visits, name, barred)
        == if first < n then first else if visits[n].name == name && visits[n].key !in barred then n else n + 1
  {
    var n := |visits| - 1;
    var first, all := FirstVisit(visits[..n], name, barred), FirstVisit(visits, name, barred);
    assert forall i :: 0 <= i < n ==> visits[..n][i] == visits[i];
  }

  /** Trust on first use: whatever the file held, in any run of visits to any hosts, a key is
      accepted for a name exactly when it is not revoked and is one recorded at the start or,
      if none was, the key of the first such visit; and that one line is all that is added. */
  lemma TrustOnFirstUse(lib: Library, start: string, visits: seq<Visit>, name: string, i: nat)
    requires RoundTrips(lib) && forall v :: v in visits ==> Proper(lib, v)
    requires i < |visits| && visits[i].name == name
    ensures var known, barred := Known(lib, Parsed(lib, start), name), Barred(lib, Parsed(lib, start), name);
      Accepts(lib, Run(lib, start, visits[..i]), visits[i]) <==>
        && visits[i].key !in barred
        && if known != {} then visits[i].key in known
           else visits[i].key == visits[FirstVisit(visits, name, barred)].key
  {
    hide StatusIn, Known, Barred, Recorded, Parsed, Lines, Visited, IsPlainName, Accepts, IsWellFormed, Run;
    var v := visits[i];
    var middle := Run(lib, start, visits[..i]);
    assert Proper(lib, v);
    AfterRun(lib, start, visits[..i], name);
    VisitStep(lib, middle, v, name);
    var barred := Barred(lib, Parsed(lib, start), name);
    var first, all := FirstVisit(visits[..i], name, barred), FirstVisit(visits, name, barred);
    assert forall j :: 0 <= j < i ==> visits[..i][j] == visits[j];
    assert first < i ==> first == all;
    assert v.key !in barred && first == i ==> all == i;
  }

  /** Keys written on the word of a shared connection are all known from then on. */
  lemma {:induction false} SharedKeysAreKnown(lib: Library, contents: string, name: string, keys: seq<bytes>)
    requires RoundTrips(lib) && IsPlainName(name) && forall k :: k in keys ==> IsWellFormed(lib, k)
    ensures var before, after := Parsed(lib, contents), Parsed(lib, AppendedAll(lib, contents, name, keys));
      && before <= after
      && Known(lib, after, name) == Known(lib, before, name) + (set k | k in keys)
      && Barred(lib, after, name) == Barred(lib, before, name)
  {
    hide LineOf, Appended, IsPlainName, IsWellFormed, Parsed, Known, Barred, Recorded, Lines;
    if keys != [] {
      var n := |keys| - 1;
      SharedKeysAreKnown(lib, contents, name, keys[..n]);
      var middle := AppendedAll(lib, contents, name, keys[..n]);
      AppendedParses(lib, middle, name, keys[n]);
      var own := OwnEntry(lib, |Lines(middle)| + 1, name, keys[n]);
      OwnSets(lib, own, name);
      RecordedAppend(lib, Parsed(lib, middle), [own], name);
      assert (set k | k in keys) == (set k | k in keys[..n]) + {keys[n]};
    }
  }

  // ---- the store over whole runs ----

  datatype Call = Call(host: string, port: nat, key: bytes)

  function VisitOf(c: Call): Visit { Visit(HostName(c.host, c.port), c.key) }

  function VisitsOf(calls: seq<Call>): (r: seq<Visit>)
    ensures |r| == |calls| && forall i :: 0 <= i < |r| ==> r[i] == VisitOf(calls[i])
  {
    seq(|calls|, i requires 0 <= i < |calls| => VisitOf(calls[i]))
  }

  /** Each connection was accepted exactly as the run says. */
  ghost predicate AsInRun(lib: Library, start: string, visits: seq<Visit>, accepted: seq<bool>) {
    && |accepted| <= |visits|
    && forall i :: 0 <= i < |accepted| ==> accepted[i] == Accepts(lib, Run(lib, start, visits[..i]), visits[i])
  }

  /** All accepted connections to a host the file did not know show one and the same key. */
  ghost predicate OneKeyEach(lib: Library, start: string, visits: seq<Visit>, accepted: seq<bool>)
    requires |accepted| <= |visits|
  {
    forall i, j ::
      0 <= i < |accepted| && 0 <= j < |accepted| && accepted[i] && accepted[j] && visits[i].name == visits[j].name ==>
      Known(lib, Parsed(lib, start), visits[i].name) != {} || visits[i].key == visits[j].key
  }

  lemma RunIsTrusting(lib: Library, start: string, visits: seq<Visit>, accepted: seq<bool>)
    requires RoundTrips(lib) && forall v :: v in visits ==> Proper(lib, v)
    requires AsInRun(lib, start, visits, accepted)
    ensures OneKeyEach(lib, start, visits, accepted)
  {
    hide Parsed, StatusIn, Known, Barred, RoundTrips, Proper, Run, Accepts;
    forall i, j |
      && 0 <= i < |accepted| && 0 <= j < |accepted| && accepted[i] && accepted[j]
      && visits[i].name == visits[j].name
      ensures Known(lib, Parsed(lib, start), visits[i].name) != {} || visits[i].key == visits[j].key
    {
      TrustOnFirstUse(lib, start, visits, visits[i].name, i);
      TrustOnFirstUse(lib, start, visits, visits[i].name, j);
    }
  }

  /** A visit was the first use of its host, and only a part of its line got into the file. */
  ghost predicate FirstUseLost(lib: Library, before: string, v: Visit, file: string) {
    Judge([Says(lib, before, v)]) == FirstUse && before <= file <= Appended(before, LineOf(lib, v.name, v.key))
  }

  /** Any number of connections through one store with only its own file: as long as appends
      succeed, all accepted connections to a host it did not know show one and the same key.
      The run stops at the first append that fails, which only a first use attempts; a store
      whose own file can be written never stops. */
  method ConnectAll(store: HostKeyStore, calls: seq<Call>) returns (accepted: seq<bool>, saved: bool)
    requires store.readOnly == [] && RoundTrips(store.lib)
    requires forall v :: v in VisitsOf(calls) ==> Proper(store.lib, v)
    modifies store`appFile
    ensures |accepted| <= |calls| && (saved ==> |accepted| == |calls|)
    ensures saved ==> store.appFile == Run(store.lib, old(store.appFile), VisitsOf(calls))
    ensures !saved ==>
      && accepted != []
      && var k, visits := |accepted| - 1, VisitsOf(calls);
        FirstUseLost(store.lib, Run(store.lib, old(store.appFile), visits[..k]), visits[k], store.appFile)
    ensures store.writable ==> saved
    ensures AsInRun(store.lib, old(store.appFile), VisitsOf(calls), accepted)
    ensures OneKeyEach(store.lib, old(store.appFile), VisitsOf(calls), accepted)
  {
    hide Parsed, StatusIn, Known, Barred, HostName, RoundTrips, Proper, Visited, Accepts, OneKeyEach, FirstUseLost, Run;
    accepted, saved := [], true;
    ghost var start, visits := store.appFile, VisitsOf(calls);
    NoVisits(store.lib, start, visits);
    hide AsInRun;
    while |accepted| < |calls| && saved
      invariant store.readOnly == [] && AsInRun(store.lib, start, visits, accepted)
      invariant saved ==> store.appFile == Run(store.lib, start, visits[..|accepted|])
      invariant !saved ==>
        && accepted != []
        && var k := |accepted| - 1;
          FirstUseLost(store.lib, Run(store.lib, start, visits[..k]), visits[k], store.appFile)
      invariant store.writable ==> saved
      decreases |calls| - |accepted|, saved
    {
      var k := |accepted|;
      var ok;
      ok, saved := Connect(store, calls[k]);
      OneMoreVisit(store.lib, start, visits, accepted, ok);
      accepted := accepted + [ok];
    }
    assert |accepted| == |calls| ==> visits[..|accepted|] == visits;
    RunIsTrusting(store.lib, start, visits, accepted);
  }

  lemma NoVisits(lib: Library, start: string, visits: seq<Visit>)
    ensures Run(lib, start, visits[..0]) == start && AsInRun(lib, start, visits, [])
  {
  }

  lemma OneMoreVisit(lib: Library, start: string, visits: seq<Visit>, accepted: seq<bool>, ok: bool)
    requires |accepted| < |visits| && AsInRun(lib, start, visits, accepted)
    ensures var k := |accepted|; var before := Run(lib, start, visits[..k]);
      && Run(lib, start, visits[..k + 1]) == Visited(lib, before, visits[k])
      && (ok == Accepts(lib, before, visits[k]) ==> AsInRun(lib, start, visits, accepted + [ok]))
  {
    hide Accepts, Visited;
    var k := |accepted|;
    assert visits[..k + 1][..k] == visits[..k];
  }

  /** One connection. */
  method Connect(store: HostKeyStore, c: Call) returns (accepted: bool, saved: bool)
    requires store.readOnly == []
    modifies store`appFile
    ensures accepted == Accepts(store.lib, old(store.appFile), VisitOf(c))
    ensures saved ==> store.appFile == Visited(store.lib, old(store.appFile), VisitOf(c))
    ensures !saved ==> FirstUseLost(store.lib, old(store.appFile), VisitOf(c), store.appFile)
    ensures store.writable ==> saved
  {
    hide Parsed, StatusIn, HostName, LineOf, Appended, Judge;
    Judged(store.lib, store.appFile, VisitOf(c));
    assert store.Files() == [store.appFile];
    var v := store.Verify(c.host, c.port, c.key);
    accepted, saved := v.Ok?, v != Ok(TrustedNotSaved);
  }

  lemma Judged(lib: Library, contents: string, v: Visit)
    ensures Statuses(lib, [contents], v.name, v.key) == [Says(lib, contents, v)]
  {
  }
}
