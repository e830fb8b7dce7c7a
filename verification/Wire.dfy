/** The SFTP version 3 wire format: big-endian numbers, length-prefixed strings,
    file attributes, and the framing of replies. */
module Wire {
  import opened Common

  const MAX_PACKET: nat := 256 * 1024
  const READ_SLICE: nat := 64 * 1024

  // ---- encoders ----

  function PutU32(v: u32): (b: bytes)
    ensures |b| == 4
  {
    [v / 0x100_0000, v / 0x1_0000 % 0x100, v / 0x100 % 0x100, v % 0x100]
  }

  function PutU64(v: u64): (b: bytes)
    ensures |b| == 8
  {
    PutU32(v / U32_LIMIT) + PutU32(v % U32_LIMIT)
  }

  /** `s.len() as u32` followed by the bytes. */
  function PutStr(s: bytes): bytes { PutU32(|s| % U32_LIMIT) + s }

  // ---- decoders, as values ----

  function GetU32(b: bytes): u32
    requires |b| >= 4
  {
    var b0: int, b1: int, b2: int, b3: int := b[0], b[1], b[2], b[3];
    b0 * 0x100_0000 + b1 * 0x1_0000 + b2 * 0x100 + b3
  }

  function GetU64(b: bytes): u64
    requires |b| >= 8
  {
    GetU32(b) * U32_LIMIT + GetU32(b[4..])
  }

  lemma {:induction false} U32RoundTrip(v: u32, rest: bytes)
    ensures GetU32(PutU32(v) + rest) == v
  {
    var b := PutU32(v) + rest;
    assert b[0] == v / 0x100_0000 && b[1] == v / 0x1_0000 % 0x100 && b[2] == v / 0x100 % 0x100 && b[3] == v % 0x100;
    Digits(v);
  }

  /** A number is made of its base-256 digits. */
  lemma Digits(v: nat)
    ensures v == v / 0x100_0000 * 0x100_0000 + v / 0x1_0000 % 0x100 * 0x1_0000 + v / 0x100 % 0x100 * 0x100 + v % 0x100
  {
    assert v / 0x100 / 0x100 == v / 0x1_0000;
    assert v / 0x1_0000 / 0x100 == v / 0x100_0000;
  }

  lemma {:induction false} U32Bytes(b: bytes)
    requires |b| >= 4
    ensures PutU32(GetU32(b)) == b[..4]
  {
    var v := GetU32(b);
    var b0: int, b1: int, b2: int := b[0], b[1], b[2];
    assert v / 0x100 == b0 * 0x1_0000 + b1 * 0x100 + b2;
    assert v / 0x1_0000 == b0 * 0x100 + b1;
    assert v / 0x100_0000 == b0;
  }

  /** Numbers are read in network order, the most significant byte first. */
  lemma NetworkOrder(b: bytes)
    requires |b| >= 4
    ensures GetU32(b) == ((b[0] as int * 256 + b[1] as int) * 256 + b[2] as int) * 256 + b[3] as int
    ensures |b| >= 8 ==> GetU64(b) == GetU32(b[..4]) * 4_294_967_296 + GetU32(b[4..])
  {
  }

  lemma {:induction false} U64RoundTrip(v: u64, rest: bytes)
    ensures GetU64(PutU64(v) + rest) == v
  {
    var hi, lo := PutU32(v / U32_LIMIT), PutU32(v % U32_LIMIT);
    assert PutU64(v) + rest == hi + (lo + rest);
    U32RoundTrip(v / U32_LIMIT, lo + rest);
    U32RoundTrip(v % U32_LIMIT, rest);
    assert (PutU64(v) + rest)[4..] == lo + rest;
  }

  // ---- file attributes ----

  datatype FileStat = FileStat(
    size: Option<u64>, uid: Option<u32>, gid: Option<u32>, perm: Option<u32>,
    atime: Option<u64>, mtime: Option<u64>)

  const ATTR_SIZE: nat := 1
  const ATTR_UIDGID: nat := 2
  const ATTR_PERMISSIONS: nat := 4
  const ATTR_ACMODTIME: nat := 8
  const ATTR_EXTENDED: nat := 0x8000_0000

  /** `flags & bit != 0` for a power of two. */
  predicate Has(flags: u32, bit: nat)
    requires bit > 0
  {
    flags / bit % 2 == 1
  }

  function Flags(st: FileStat): (f: u32)
    ensures f < 16
  {
    (if st.size.Some? then ATTR_SIZE else 0)
    + (if st.uid.Some? || st.gid.Some? then ATTR_UIDGID else 0)
    + (if st.perm.Some? then ATTR_PERMISSIONS else 0)
    + (if st.atime.Some? || st.mtime.Some? then ATTR_ACMODTIME else 0)
  }

  /** What the other side reads back: an absent partner is 0, times keep 32 bits. */
  function AsSent(st: FileStat): FileStat {
    var owned := st.uid.Some? || st.gid.Some?;
    var timed := st.atime.Some? || st.mtime.Some?;
    FileStat(st.size,
             if owned then Some(Or(st.uid, 0)) else None, if owned then Some(Or(st.gid, 0)) else None,
             st.perm,
             if timed then Some(Or(st.atime, 0) % U32_LIMIT) else None,
             if timed then Some(Or(st.mtime, 0) % U32_LIMIT) else None)
  }

  function PutSize(st: FileStat): bytes { if st.size.Some? then PutU64(st.size.value) else [] }

  function PutOwner(st: FileStat): bytes {
    if st.uid.Some? || st.gid.Some? then PutU32(Or(st.uid, 0)) + PutU32(Or(st.gid, 0)) else []
  }

  function PutPerm(st: FileStat): bytes { if st.perm.Some? then PutU32(st.perm.value) else [] }

  function PutTimes(st: FileStat): bytes {
    if st.atime.Some? || st.mtime.Some?
    then PutU32(Or(st.atime, 0) % U32_LIMIT) + PutU32(Or(st.mtime, 0) % U32_LIMIT) else []
  }

  function PutFields(st: FileStat): bytes {
    PutSize(st) + (PutOwner(st) + (PutPerm(st) + PutTimes(st)))
  }

  function PutAttrs(st: FileStat): bytes { PutU32(Flags(st)) + PutFields(st) }

  /** Name/value pairs a server may append behind ATTR_EXTENDED. */
  function PutPairs(pairs: seq<(bytes, bytes)>): bytes {
    if pairs == [] then [] else PutStr(pairs[0].0) + PutStr(pairs[0].1) + PutPairs(pairs[1..])
  }

  /** A server's encoding: the same, with any extended pairs behind. */
  function PutAttrsExtended(st: FileStat, pairs: seq<(bytes, bytes)>): bytes
    requires |pairs| < U32_LIMIT
  {
    PutU32(Flags(st) + ATTR_EXTENDED) + PutFields(st) + (PutU32(|pairs|) + PutPairs(pairs))
  }

  datatype WireError = Truncated | BadString | TooManyAttributes

  // ---- parsing, as values: the result and the unread rest ----

  type Parsed<T> = Result<(T, bytes), WireError>

  function ParseBytes(b: bytes, n: nat): Parsed<bytes> {
    if n <= |b| then Ok((b[..n], b[n..])) else Err(Truncated)
  }

  function ParseU32(b: bytes): Parsed<u32> {
    if |b| >= 4 then Ok((GetU32(b), b[4..])) else Err(Truncated)
  }

  function ParseU64(b: bytes): Parsed<u64> {
    if |b| >= 8 then Ok((GetU64(b), b[8..])) else Err(Truncated)
  }

  function ParseString(b: bytes): Parsed<bytes> {
    var (n, b1) :- ParseU32(b);
    if n > |b1| then Err(BadString) else ParseBytes(b1, n)
  }

  /** Two numbers behind `bit`, when it is set. */
  function ParsePair(flags: u32, bit: nat, b: bytes): Parsed<Option<(u32, u32)>>
    requires bit > 0
  {
    if !Has(flags, bit) then Ok((None, b))
    else
      var (x, b1) :- ParseU32(b);
      var (y, b2) :- ParseU32(b1);
      Ok((Some((x, y)), b2))
  }

  function SkipPairs(n: nat, b: bytes): Parsed<()> {
    if n == 0 then Ok(((), b))
    else
      var (_, b1) :- ParseString(b);
      var (_, b2) :- ParseString(b1);
      SkipPairs(n - 1, b2)
  }

  function SkipExtended(flags: u32, b: bytes): Parsed<()> {
    if !Has(flags, ATTR_EXTENDED) then Ok(((), b))
    else
      var (n, b1) :- ParseU32(b);
      if n > |b1| / 8 then Err(TooManyAttributes) else SkipPairs(n, b1)
  }

  function First(p: Option<(u32, u32)>): Option<u32> { if p.Some? then Some(p.value.0) else None }

  function Second(p: Option<(u32, u32)>): Option<u32> { if p.Some? then Some(p.value.1) else None }

  function ParseSize(flags: u32, b: bytes): Parsed<Option<u64>> {
    if !Has(flags, ATTR_SIZE) then Ok((None, b))
    else
      var (v, r) :- ParseU64(b);
      Ok((Some(v), r))
  }

  function ParsePerm(flags: u32, b: bytes): Parsed<Option<u32>> {
    if !Has(flags, ATTR_PERMISSIONS) then Ok((None, b))
    else
      var (v, r) :- ParseU32(b);
      Ok((Some(v), r))
  }

  function ParseFields(flags: u32, b1: bytes): Parsed<FileStat> {
    var (size, b2) :- ParseSize(flags, b1);
    var (owner, b3) :- ParsePair(flags, ATTR_UIDGID, b2);
    var (perm, b4) :- ParsePerm(flags, b3);
    var (times, b5) :- ParsePair(flags, ATTR_ACMODTIME, b4);
    Ok((FileStat(size, First(owner), Second(owner), perm, First(times), Second(times)), b5))
  }

  function ParseAttrs(b: bytes): Parsed<FileStat> {
    var (flags, b1) :- ParseU32(b);
    var (st, b2) :- ParseFields(flags, b1);
    var (_, b3) :- SkipExtended(flags, b2);
    Ok((st, b3))
  }

  // ---- round trips ----

  lemma {:induction false} ParseU32Put(v: u32, rest: bytes)
    ensures ParseU32(PutU32(v) + rest) == Ok((v, rest))
  {
    U32RoundTrip(v, rest);
    assert (PutU32(v) + rest)[4..] == rest;
  }

  lemma {:induction false} ParseU64Put(v: u64, rest: bytes)
    ensures ParseU64(PutU64(v) + rest) == Ok((v, rest))
  {
    U64RoundTrip(v, rest);
    assert (PutU64(v) + rest)[8..] == rest;
  }

  lemma {:induction false} ParseStringPut(s: bytes, rest: bytes)
    requires |s| < U32_LIMIT
    ensures ParseString(PutStr(s) + rest) == Ok((s, rest))
  {
    hide PutU32, ParseU32;
    assert PutStr(s) + rest == PutU32(|s|) + (s + rest);
    ParseU32Put(|s|, s + rest);
    assert (s + rest)[..|s|] == s && (s + rest)[|s|..] == rest;
  }

  lemma {:induction false} SkipPairsPut(pairs: seq<(bytes, bytes)>, rest: bytes)
    requires forall i :: 0 <= i < |pairs| ==> |pairs[i].0| < U32_LIMIT && |pairs[i].1| < U32_LIMIT
    ensures SkipPairs(|pairs|, PutPairs(pairs) + rest) == Ok(((), rest))
    ensures |PutPairs(pairs)| >= 8 * |pairs|
  {
    hide PutU32, GetU32, Has;
    if pairs == [] {
      assert [] + rest == rest;
    } else {
      var p := pairs[0];
      var tail := PutPairs(pairs[1..]) + rest;
      assert PutPairs(pairs) + rest == PutStr(p.0) + (PutStr(p.1) + tail);
      ParseStringPut(p.0, PutStr(p.1) + tail);
      ParseStringPut(p.1, tail);
      SkipPairsPut(pairs[1..], rest);
    }
  }

  lemma FlagBits(st: FileStat, extended: bool)
    ensures var f := Flags(st) + (if extended then ATTR_EXTENDED else 0);
      && Has(f, ATTR_SIZE) == st.size.Some?
      && Has(f, ATTR_UIDGID) == (st.uid.Some? || st.gid.Some?)
      && Has(f, ATTR_PERMISSIONS) == st.perm.Some?
      && Has(f, ATTR_ACMODTIME) == (st.atime.Some? || st.mtime.Some?)
      && Has(f, ATTR_EXTENDED) == extended
  {
  }

  lemma {:induction false} ParsePairPut(flags: u32, bit: nat, x: u32, y: u32, rest: bytes)
    requires bit > 0 && Has(flags, bit)
    ensures ParsePair(flags, bit, (PutU32(x) + PutU32(y)) + rest) == Ok((Some((x, y)), rest))
  {
    assert (PutU32(x) + PutU32(y)) + rest == PutU32(x) + (PutU32(y) + rest);
    ParseU32Put(x, PutU32(y) + rest);
    ParseU32Put(y, rest);
  }

  lemma {:induction false} ParseSizePut(flags: u32, st: FileStat, rest: bytes)
    requires Has(flags, ATTR_SIZE) == st.size.Some?
    ensures ParseSize(flags, PutSize(st) + rest) == Ok((st.size, rest))
  {
    if st.size.Some? { ParseU64Put(st.size.value, rest); } else { assert [] + rest == rest; }
  }

  lemma {:induction false} ParsePermPut(flags: u32, st: FileStat, rest: bytes)
    requires Has(flags, ATTR_PERMISSIONS) == st.perm.Some?
    ensures ParsePerm(flags, PutPerm(st) + rest) == Ok((st.perm, rest))
  {
    if st.perm.Some? { ParseU32Put(st.perm.value, rest); } else { assert [] + rest == rest; }
  }

  lemma {:induction false} ParseOwnerPut(flags: u32, st: FileStat, rest: bytes)
    requires Has(flags, ATTR_UIDGID) == (st.uid.Some? || st.gid.Some?)
    ensures var p := ParsePair(flags, ATTR_UIDGID, PutOwner(st) + rest);
      p.Ok? && p.value.1 == rest && First(p.value.0) == AsSent(st).uid && Second(p.value.0) == AsSent(st).gid
  {
    if st.uid.Some? || st.gid.Some? {
      ParsePairPut(flags, ATTR_UIDGID, Or(st.uid, 0), Or(st.gid, 0), rest);
    } else { assert [] + rest == rest; }
  }

  lemma {:induction false} ParseTimesPut(flags: u32, st: FileStat, rest: bytes)
    requires Has(flags, ATTR_ACMODTIME) == (st.atime.Some? || st.mtime.Some?)
    ensures var p := ParsePair(flags, ATTR_ACMODTIME, PutTimes(st) + rest);
      p.Ok? && p.value.1 == rest && First(p.value.0) == AsSent(st).atime && Second(p.value.0) == AsSent(st).mtime
  {
    if st.atime.Some? || st.mtime.Some? {
      ParsePairPut(flags, ATTR_ACMODTIME, Or(st.atime, 0) % U32_LIMIT, Or(st.mtime, 0) % U32_LIMIT, rest);
    } else { assert [] + rest == rest; }
  }

  /** The fields behind the flags word, read back whatever follows them. */
  lemma {:induction false} FieldsRoundTrip(st: FileStat, extended: bool, tail: bytes)
    ensures ParseFields(Flags(st) + (if extended then ATTR_EXTENDED else 0), PutFields(st) + tail)
      == Ok((AsSent(st), tail))
  {
    hide PutU32, GetU32, Has;
    var f := Flags(st) + (if extended then ATTR_EXTENDED else 0);
    FlagBits(st, extended);
    var b4 := PutTimes(st) + tail;
    var b3 := PutPerm(st) + b4;
    var b2 := PutOwner(st) + b3;
    assert PutFields(st) + tail == PutSize(st) + b2;
    ParseSizePut(f, st, b2);
    ParseOwnerPut(f, st, b3);
    ParsePermPut(f, st, b4);
    ParseTimesPut(f, st, tail);
  }

  /** What this client sends is read back as it means it. */
  lemma {:induction false} AttrsRoundTrip(st: FileStat, rest: bytes)
    ensures ParseAttrs(PutAttrs(st) + rest) == Ok((AsSent(st), rest))
  {
    hide PutU32, GetU32, Has;
    FieldsRoundTrip(st, false, rest);
    FlagBits(st, false);
    assert PutAttrs(st) + rest == PutU32(Flags(st)) + (PutFields(st) + rest);
    ParseU32Put(Flags(st), PutFields(st) + rest);
  }

  /** Extended pairs of a server are skipped exactly. */
  lemma {:induction false} ExtendedAttrsRoundTrip(st: FileStat, pairs: seq<(bytes, bytes)>, rest: bytes)
    requires |pairs| < U32_LIMIT
    requires forall i :: 0 <= i < |pairs| ==> |pairs[i].0| < U32_LIMIT && |pairs[i].1| < U32_LIMIT
    ensures ParseAttrs(PutAttrsExtended(st, pairs) + rest) == Ok((AsSent(st), rest))
  {
    hide PutU32, GetU32, Has, Flags, PutFields, ParseFields, PutPairs, SkipExtended, AsSent;
    var f := Flags(st) + ATTR_EXTENDED;
    var tail := PutU32(|pairs|) + (PutPairs(pairs) + rest);
    FlagBits(st, true);
    FieldsRoundTrip(st, true, tail);
    SkipExtendedPut(f, pairs, rest);
    assert PutAttrsExtended(st, pairs) + rest == PutU32(f) + (PutFields(st) + tail);
    ParseU32Put(f, PutFields(st) + tail);
  }

  lemma {:induction false} SkipExtendedPut(flags: u32, pairs: seq<(bytes, bytes)>, rest: bytes)
    requires |pairs| < U32_LIMIT && Has(flags, ATTR_EXTENDED)
    requires forall i :: 0 <= i < |pairs| ==> |pairs[i].0| < U32_LIMIT && |pairs[i].1| < U32_LIMIT
    ensures SkipExtended(flags, PutU32(|pairs|) + (PutPairs(pairs) + rest)) == Ok(((), rest))
  {
    ParseU32Put(|pairs|, PutPairs(pairs) + rest);
    SkipPairsPut(pairs, rest);
  }

  // ---- the cursor ----

  /** Bounds-checked reader over an untrusted packet; each method parses one item off
      the front of `buf`. */
  class Cursor {
    var buf: bytes

    constructor (buf: bytes)
      ensures this.buf == buf
    {
      this.buf := buf;
    }

    /** `r` is what `spec` parses, and `buf` is what it leaves unread. */
    ghost predicate Reads<T>(r: Result<T, WireError>, spec: Parsed<T>)
      reads this
    {
      && r.Ok? == spec.Ok?
      && (r.Ok? ==> (r.value, buf) == spec.value)
      && (r.Err? ==> r.error == spec.error)
    }

    method Take(n: nat) returns (r: Result<bytes, WireError>)
      modifies this
      ensures Reads(r, ParseBytes(old(buf), n))
    {
      if n > |buf| { return Err(Truncated); }
      r := Ok(buf[..n]);
      buf := buf[n..];
    }

    method U32() returns (r: Result<u32, WireError>)
      modifies this
      ensures Reads(r, ParseU32(old(buf)))
    {
      var b := Take(4);
      if b.Err? { return Err(b.error); }
      r := Ok(GetU32(b.value));
    }

    method U64() returns (r: Result<u64, WireError>)
      modifies this
      ensures Reads(r, ParseU64(old(buf)))
    {
      var b := Take(8);
      if b.Err? { return Err(b.error); }
      r := Ok(GetU64(b.value));
    }

    method String() returns (r: Result<bytes, WireError>)
      modifies this
      ensures Reads(r, ParseString(old(buf)))
    {
      var n := U32();
      if n.Err? { return Err(n.error); }
      if n.value > |buf| { return Err(BadString); }
      r := Take(n.value);
    }

    method Pair(flags: u32, bit: nat) returns (r: Result<Option<(u32, u32)>, WireError>)
      requires bit > 0
      modifies this
      ensures Reads(r, ParsePair(flags, bit, old(buf)))
    {
      if !Has(flags, bit) { return Ok(None); }
      var x := U32();
      if x.Err? { return Err(x.error); }
      var y := U32();
      if y.Err? { return Err(y.error); }
      r := Ok(Some((x.value, y.value)));
    }

    method Fields(flags: u32) returns (r: Result<FileStat, WireError>)
      modifies this
      ensures Reads(r, ParseFields(flags, old(buf)))
    {
      hide GetU32, GetU64, Has;
      var size := None;
      if Has(flags, ATTR_SIZE) {
        var v := U64();
        if v.Err? { return Err(v.error); }
        size := Some(v.value);
      }
      var owner := Pair(flags, ATTR_UIDGID);
      if owner.Err? { return Err(owner.error); }
      var perm := None;
      if Has(flags, ATTR_PERMISSIONS) {
        var v := U32();
        if v.Err? { return Err(v.error); }
        perm := Some(v.value);
      }
      var times := Pair(flags, ATTR_ACMODTIME);
      if times.Err? { return Err(times.error); }
      r := Ok(FileStat(size, First(owner.value), Second(owner.value), perm, First(times.value), Second(times.value)));
    }

    method Pairs(n: nat) returns (r: Result<(), WireError>)
      modifies this
      ensures Reads(r, SkipPairs(n, old(buf)))
    {
      hide ParseString;
      ghost var all := SkipPairs(n, buf);
      for i := 0 to n
        invariant SkipPairs(n - i, buf) == all
      {
        var name := String();
        if name.Err? { return Err(name.error); }
        var value := String();
        if value.Err? { return Err(value.error); }
      }
      r := Ok(());
    }

    method Extended(flags: u32) returns (r: Result<(), WireError>)
      modifies this
      ensures Reads(r, SkipExtended(flags, old(buf)))
    {
      hide GetU32, Has, SkipPairs;
      if !Has(flags, ATTR_EXTENDED) { return Ok(()); }
      var n := U32();
      if n.Err? { return Err(n.error); }
      if n.value > |buf| / 8 { return Err(TooManyAttributes); }
      r := Pairs(n.value);
    }

    method Attrs() returns (r: Result<FileStat, WireError>)
      modifies this
      ensures Reads(r, ParseAttrs(old(buf)))
    {
      hide GetU32, ParseFields, SkipExtended;
      var flags := U32();
      if flags.Err? { return Err(flags.error); }
      r := Fields(flags.value);
      if r.Err? { return; }
      var ext := Extended(flags.value);
      if ext.Err? { return Err(ext.error); }
    }
  }
}
