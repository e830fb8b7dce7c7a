/** Large objects in parts: uploads that run at most four at a time and finish in any order,
    and server-side copies in ranges. */
module Multipart {
  import opened Common
  import opened Ordering

  const MIB: nat := 1024 * 1024
  const MIN_PART_SIZE: nat := 16 * MIB
  const MAX_PARTS: nat := 10_000
  const MAX_SINGLE_COPY: nat := 5 * 1024 * MIB
  const MIN_COPY_PART_SIZE: nat := 512 * MIB
  const PARALLEL_UPLOADS: nat := 4

  function DivCeil(a: nat, b: nat): nat
    requires b > 0
  {
    (a + b - 1) / b
  }

  function PartSizeFor(length: nat): (size: nat)
    ensures size > 0
  {
    Max(MIN_PART_SIZE, DivCeil(DivCeil(length, MAX_PARTS), MIB) * MIB)
  }

  function CopyPartSize(size: nat): (n: nat)
    ensures n > 0
  {
    Max(MIN_COPY_PART_SIZE, DivCeil(size, MAX_PARTS))
  }

  lemma DivCeilBounds(a: nat, b: nat)
    requires b > 0
    ensures DivCeil(a, b) * b >= a && (a > 0 ==> (DivCeil(a, b) - 1) * b < a)
  {
  }

  lemma CeilBelow(a: nat, b: nat, k: nat)
    requires b > 0 && a <= k * b
    ensures DivCeil(a, b) <= k
  {
    DivCeilBounds(a, b);
    if DivCeil(a, b) > k { Monotone(k, DivCeil(a, b) - 1, b); }
  }

  lemma Monotone(x: nat, y: nat, b: nat)
    requires x <= y
    ensures x * b <= y * b
  {
  }

  /** No upload or copy needs more parts than a multipart upload may have. */
  lemma FewParts(length: nat)
    ensures DivCeil(length, PartSizeFor(length)) <= 10_000
    ensures DivCeil(length, CopyPartSize(length)) <= 10_000
  {
    var m := DivCeil(length, MAX_PARTS);
    DivCeilBounds(length, MAX_PARTS);
    DivCeilBounds(m, MIB);
    assert m <= PartSizeFor(length) && m <= CopyPartSize(length);
    Monotone(m, PartSizeFor(length), MAX_PARTS);
    Monotone(m, CopyPartSize(length), MAX_PARTS);
    CeilBelow(length, PartSizeFor(length), MAX_PARTS);
    CeilBelow(length, CopyPartSize(length), MAX_PARTS);
  }

  /** Parts are of at least 16 MiB, in whole MiB, and copied ranges of at least 512 MiB; neither is
      any larger than the number of parts allowed makes necessary. */
  lemma PartSizes(length: nat)
    ensures PartSizeFor(length) >= 16_777_216 && PartSizeFor(length) % 1_048_576 == 0
    ensures PartSizeFor(length) > 16_777_216 ==> (PartSizeFor(length) - 1_048_576) * 10_000 < length
    ensures CopyPartSize(length) >= 536_870_912
    ensures CopyPartSize(length) > 536_870_912 ==> (CopyPartSize(length) - 1) * 10_000 < length
  {
    var m := DivCeil(length, MAX_PARTS);
    DivCeilBounds(length, MAX_PARTS);
    DivCeilBounds(m, MIB);
    if PartSizeFor(length) > MIN_PART_SIZE { Monotone(PartSizeFor(length) - MIB, m - 1, MAX_PARTS); }
  }

  // ---- tiling ----

  /** The i-th part of some data. */
  function Chunk(data: bytes, size: nat, i: nat): bytes {
    data[Min(i * size, |data|)..Min(i * size + size, |data|)]
  }

  function Concat(parts: seq<bytes>): bytes {
    if parts == [] then [] else Concat(parts[..|parts| - 1]) + parts[|parts| - 1]
  }

  /** The first parts in order make the first bytes, each exactly once. */
  lemma {:induction false} Tiles(data: bytes, size: nat, parts: seq<bytes>)
    requires forall i :: 0 <= i < |parts| ==> parts[i] == Chunk(data, size, i)
    ensures Concat(parts) == data[..Min(|parts| * size, |data|)]
  {
    hide Chunk;
    if parts == [] {
      assert data[..0] == [];
    } else {
      var n := |parts| - 1;
      Tiles(data, size, parts[..n]);
      TileStep(data, size, n);
    }
  }

  lemma TileStep(data: bytes, size: nat, n: nat)
    ensures data[..Min((n + 1) * size, |data|)] == data[..Min(n * size, |data|)] + Chunk(data, size, n)
  {
  }

  function Gathered(parts: seq<Part>, stored: map<nat, bytes>): seq<bytes>
    requires forall i :: 0 <= i < |parts| ==> parts[i].number in stored
  {
    seq(|parts|, i requires 0 <= i < |parts| => stored[parts[i].number])
  }

  // ---- the storage service ----

  datatype S3Error = Failed

  /** A part being sent. */
  datatype Task = Task(number: nat, chunk: bytes)

  datatype Part = Part(number: nat, etag: nat)

  datatype Joined = Done(part: Part) | Broken

  /** An object and the multipart upload towards it. */
  class Bucket {
    var current: Option<bytes>
    var stored: map<nat, bytes>
    var etags: map<nat, nat>
    /** Transfers in flight. */
    var running: set<Task>

    constructor (current: Option<bytes>)
      ensures this.current == current && stored == map[] && etags == map[] && running == {}
    {
      this.current, stored, etags, running := current, map[], map[], {};
    }

    method Create() returns (ok: bool)
      requires running == {}
      modifies this`stored, this`etags
      ensures stored == map[] && etags == map[]
    {
      stored, etags := map[], map[];
      ok := *;
    }

    /** Starts sending a part; never more than the allowed number at once. */
    method Spawn(t: Task)
      requires |running| < 4 && t !in running
      modifies this`running
      ensures running == old(running) + {t} && |running| <= 4
    {
      running := running + {t};
    }

    /** Any transfer may end next, well or not; a failed one may still have stored its part. */
    method JoinNext() returns (r: Option<Joined>, ghost t: Task)
      modifies this`running, this`stored, this`etags
      ensures old(running) == {} ==> r == None && running == {} && stored == old(stored) && etags == old(etags)
      ensures old(running) != {} ==>
        r.Some? && t in old(running) && running == old(running) - {t} && |running| < |old(running)|
      ensures r.Some? && r.value.Done? ==>
        && r.value.part.number == t.number
        && stored == old(stored)[t.number := t.chunk] && etags == old(etags)[t.number := r.value.part.etag]
      ensures forall k :: k != t.number ==> (k in stored <==> k in old(stored)) && (k in etags <==> k in old(etags))
      ensures forall k :: k != t.number && k in stored ==> stored[k] == old(stored)[k]
      ensures forall k :: k != t.number && k in etags ==> etags[k] == old(etags)[k]
    {
      t := Task(0, []);
      if running == {} { return None, t; }
      var task :| task in running;
      running := running - {task};
      t := task;
      var etag: nat := *;
      var sent: bool := *;
      if sent { stored, etags := stored[task.number := task.chunk], etags[task.number := etag]; }
      var acknowledged: bool := *;
      r := Some(if sent && acknowledged then Done(Part(task.number, etag)) else Broken);
    }

    /** Sends or copies one part. */
    method PutPart(number: nat, content: bytes) returns (r: Result<nat, S3Error>)
      modifies this`stored, this`etags
      ensures r.Ok? ==> stored == old(stored)[number := content] && etags == old(etags)[number := r.value]
    {
      var sent: bool := *;
      if !sent { return Err(Failed); }
      var etag: nat := *;
      stored, etags := stored[number := content], etags[number := etag];
      var acknowledged: bool := *;
      r := if acknowledged then Ok(etag) else Err(Failed);
    }

    /** Whether a list of parts may be completed: ascending, all stored, with their tags. */
    predicate Accepts(parts: seq<Part>)
      reads this
    {
      && parts != [] && |parts| <= 10_000
      && (forall i :: 0 <= i < |parts| ==>
            parts[i].number in stored && parts[i].number in etags && etags[parts[i].number] == parts[i].etag)
      && (forall i, j :: 0 <= i < j < |parts| ==> parts[i].number < parts[j].number)
    }

    function Assembled(parts: seq<Part>): bytes
      requires Accepts(parts)
      reads this
    {
      Concat(Gathered(parts, stored))
    }

    /** Joins the parts into the object; the answer may be lost. */
    method Complete(parts: seq<Part>) returns (ok: bool)
      requires running == {}
      modifies this`current
      ensures ok ==> Accepts(parts)
      ensures current == old(current) || (Accepts(parts) && current == Some(Assembled(parts)))
      ensures ok ==> current == Some(Assembled(parts))
    {
      if !(parts != [] && |parts| <= 10_000
        && (forall i :: 0 <= i < |parts| ==>
            parts[i].number in stored && parts[i].number in etags && etags[parts[i].number] == parts[i].etag)
        && (forall i, j :: 0 <= i < j < |parts| ==> parts[i].number < parts[j].number)) {
        return false;
      }
      if * { return false; }
      current := Some(Assembled(parts));
      ok := *;
    }

    /** Gives the upload up; nothing may be running then. */
    method Abort()
      requires running == {}
      modifies this`stored, this`etags
    {
      stored, etags := map[], map[];
    }

    /** A whole copy in one request. */
    method CopyWhole(source: bytes) returns (ok: bool)
      modifies this`current
      ensures current == old(current) || current == Some(source)
      ensures ok ==> current == Some(source)
    {
      if * { return false; }
      current := Some(source);
      ok := *;
    }
  }

  // ---- uploading ----

  predicate ByNumber(a: Part, b: Part) { a.number <= b.number }

  /** What the transfers running and done so far account for: the parts 1..n. */
  ghost predicate Progress(data: bytes, size: nat, n: nat, running: set<Task>, parts: seq<Part>,
      stored: map<nat, bytes>, etags: map<nat, nat>)
  {
    && (forall t :: t in running ==> 1 <= t.number <= n && t.chunk == Chunk(data, size, t.number - 1))
    && (forall t, u :: t in running && u in running && t.number == u.number ==> t == u)
    && (forall i :: 0 <= i < |parts| ==> StoredPart(data, size, n, parts[i], stored, etags))
    && (forall i, j :: 0 <= i < j < |parts| ==> parts[i].number != parts[j].number)
    && (forall t, i :: t in running && 0 <= i < |parts| ==> t.number != parts[i].number)
  }

  ghost predicate StoredPart(data: bytes, size: nat, n: nat, p: Part, stored: map<nat, bytes>, etags: map<nat, nat>) {
    && 1 <= p.number <= n && p.number in stored && stored[p.number] == Chunk(data, size, p.number - 1)
    && p.number in etags && etags[p.number] == p.etag
  }

  /** While nothing failed, every part up to n is running or done. */
  ghost predicate Everything(n: nat, running: set<Task>, parts: seq<Part>) {
    forall k :: 1 <= k <= n ==> IsRunning(running, k) || IsDone(parts, k)
  }

  ghost predicate IsRunning(running: set<Task>, k: nat) { exists t :: t in running && t.number == k }

  ghost predicate IsDone(parts: seq<Part>, k: nat) { exists i :: 0 <= i < |parts| && parts[i].number == k }

  /** A part list 1, 2, ... of stored parts. */
  ghost predicate InSequence(data: bytes, size: nat, parts: seq<Part>, stored: map<nat, bytes>, etags: map<nat, nat>) {
    forall i :: 0 <= i < |parts| ==>
      parts[i].number == i + 1 && StoredPart(data, size, |parts|, parts[i], stored, etags)
  }

  /** The part cut off next. */
  lemma NextChunk(data: bytes, size: nat, k: nat)
    requires size > 0 && Min(k * size, |data|) < |data|
    ensures k * size < |data| && Chunk(data, size, k) == data[k * size..Min(k * size + size, |data|)]
    ensures Min((k + 1) * size, |data|) == Min(k * size + size, |data|)
  {
  }

  lemma Started(data: bytes, size: nat, n: nat, running: set<Task>, parts: seq<Part>, stored: map<nat, bytes>,
      etags: map<nat, nat>, t: Task)
    requires Progress(data, size, n, running, parts, stored, etags) && t == Task(n + 1, Chunk(data, size, n))
    ensures t !in running && Progress(data, size, n + 1, running + {t}, parts, stored, etags)
    ensures Everything(n, running, parts) ==> Everything(n + 1, running + {t}, parts)
  {
  }

  lemma Ended(data: bytes, size: nat, n: nat, running: set<Task>, parts: seq<Part>, stored: map<nat, bytes>,
      etags: map<nat, nat>, t: Task, p: Part)
    requires Progress(data, size, n, running, parts, stored, etags) && t in running && p.number == t.number
    ensures Progress(data, size, n, running - {t}, parts + [p], stored[p.number := t.chunk], etags[p.number := p.etag])
    ensures Everything(n, running, parts) ==> Everything(n, running - {t}, parts + [p])
  {
    hide Chunk;
    var more := parts + [p];
    forall i | 0 <= i < |parts|
      ensures StoredPart(data, size, n, more[i], stored[p.number := t.chunk], etags[p.number := p.etag])
    {
      assert StoredPart(data, size, n, parts[i], stored, etags);
    }
    if Everything(n, running, parts) {
      forall k | 1 <= k <= n
        ensures IsRunning(running - {t}, k) || IsDone(more, k)
      {
        if IsRunning(running, k) {
          var u :| u in running && u.number == k;
          if u == t { assert more[|parts|].number == k; } else { assert u in running - {t}; }
        } else {
          var i :| 0 <= i < |parts| && parts[i].number == k;
          assert more[i] == parts[i];
        }
      }
    }
  }

  lemma Lost(data: bytes, size: nat, n: nat, running: set<Task>, parts: seq<Part>, stored: map<nat, bytes>,
      etags: map<nat, nat>, t: Task,
             stored2: map<nat, bytes>, etags2: map<nat, nat>)
    requires Progress(data, size, n, running, parts, stored, etags) && t in running
    requires forall k :: k != t.number ==> (k in stored2 <==> k in stored) && (k in etags2 <==> k in etags)
    requires forall k :: k != t.number && k in stored2 ==> stored2[k] == stored[k]
    requires forall k :: k != t.number && k in etags2 ==> etags2[k] == etags[k]
    ensures Progress(data, size, n, running - {t}, parts, stored2, etags2)
  {
  }

  /** When nothing runs any more and nothing failed, the sorted list is 1..n. */
  lemma AllDone(data: bytes, size: nat, n: nat, parts: seq<Part>, stored: map<nat, bytes>, etags: map<nat, nat>)
    requires Progress(data, size, n, {}, parts, stored, etags) && Everything(n, {}, parts)
    ensures |SortBy(parts, ByNumber)| == n && InSequence(data, size, SortBy(parts, ByNumber), stored, etags)
  {
    hide Chunk, StoredPart, SortBy;
    var sorted := SortBy(parts, ByNumber);
    SortedNumbers(parts);
    forall i | 0 <= i < |sorted| ensures StoredPart(data, size, n, sorted[i], stored, etags) {
      assert sorted[i] in parts;
    }
    forall i | 0 <= i < |sorted| ensures 1 <= sorted[i].number <= n {
      InRange(data, size, n, sorted[i], stored, etags);
    }
    forall k | 1 <= k <= n ensures IsDone(sorted, k) {
      assert !IsRunning({}, k) && IsDone(parts, k);
      var i :| 0 <= i < |parts| && parts[i].number == k;
      assert parts[i] in sorted;
    }
    InOrder(sorted, n);
  }

  lemma SortedNumbers(parts: seq<Part>)
    requires forall i, j :: 0 <= i < j < |parts| ==> parts[i].number != parts[j].number
    ensures var sorted := SortBy(parts, ByNumber);
      && Sorted(sorted, ByNumber) && (forall p :: p in sorted <==> p in parts)
      && forall i, j :: 0 <= i < j < |sorted| ==> sorted[i].number != sorted[j].number
  {
    hide SortBy;
    var sorted := SortBy(parts, ByNumber);
    SortByIsSorted(parts, ByNumber);
    Permuted(parts, sorted);
    forall i, j | 0 <= i < j < |sorted| ensures sorted[i].number != sorted[j].number {
      assert sorted[i] != sorted[j] && sorted[i] in parts && sorted[j] in parts;
    }
  }

  lemma InRange(data: bytes, size: nat, n: nat, p: Part, stored: map<nat, bytes>, etags: map<nat, nat>)
    requires StoredPart(data, size, n, p, stored, etags)
    ensures 1 <= p.number <= n
  {
  }

  /** The number of parts when everything was sent. */
  lemma PartCount(length: nat, size: nat, n: nat)
    requires size > 0 && n * size >= length && (n == 0 || (n - 1) * size < length)
    ensures n == DivCeil(length, size)
  {
    CeilBelow(length, size, n);
    DivCeilBounds(length, size);
    if DivCeil(length, size) < n { Monotone(DivCeil(length, size), n - 1, size); }
  }

  /** Distinct numbers 1..n in order are 1, 2, ... n. */
  lemma {:induction false} InOrder(parts: seq<Part>, n: nat)
    requires Sorted(parts, ByNumber) && forall i, j :: 0 <= i < j < |parts| ==> parts[i].number != parts[j].number
    requires forall i :: 0 <= i < |parts| ==> 1 <= parts[i].number <= n
    requires forall k :: 1 <= k <= n ==> IsDone(parts, k)
    ensures |parts| == n && forall i :: 0 <= i < n ==> parts[i].number == i + 1
    decreases n
  {
    if n == 0 {
      assert parts == [];
    } else {
      var m := |parts| - 1;
      assert IsDone(parts, n);
      var i :| 0 <= i < |parts| && parts[i].number == n;
      assert i < m ==> ByNumber(parts[i], parts[m]);
      assert parts[m].number == n;
      var rest := parts[..m];
      forall k | 1 <= k <= n - 1 ensures IsDone(rest, k) {
        assert IsDone(parts, k);
        var j :| 0 <= j < |parts| && parts[j].number == k;
        assert j != m && rest[j] == parts[j];
      }
      InOrder(rest, n - 1);
    }
  }

  /** Sends all parts, at most four at a time; returns only when none is running. */
  method UploadParts(bucket: Bucket, data: bytes, partSize: nat) returns (r: Result<seq<Part>, S3Error>)
    requires partSize > 0 && bucket.running == {} && bucket.stored == map[]
    modifies bucket`running, bucket`stored, bucket`etags
    ensures bucket.running == {}
    ensures r.Ok? ==>
      && |r.value| == DivCeil(|data|, partSize)
      && InSequence(data, partSize, r.value, bucket.stored, bucket.etags)
  {
    hide Chunk, Progress, Everything;
    var parts: seq<Part> := [];
    var offset, number := 0, 1;
    var failed := false;
    NothingYet(data, partSize, bucket.running, bucket.stored, bucket.etags);
    while true
      invariant Cut(data, partSize, offset, number) && |bucket.running| <= PARALLEL_UPLOADS
      invariant Progress(data, partSize, number - 1, bucket.running, parts, bucket.stored, bucket.etags)
      invariant !failed ==> Everything(number - 1, bucket.running, parts)
      decreases |data| - offset, |bucket.running|
    {
      if !failed {
        offset, number := StartParts(bucket, data, partSize, offset, number, parts);
      }
      ghost var before, stored, etags := bucket.running, bucket.stored, bucket.etags;
      ghost var t;
      var next;
      next, t := bucket.JoinNext();
      if next.None? { break; }
      if next.value.Done? {
        Ended(data, partSize, number - 1, before, parts, stored, etags, t, next.value.part);
        parts := parts + [next.value.part];
      } else {
        failed := true;
        Lost(data, partSize, number - 1, before, parts, stored, etags, t, bucket.stored, bucket.etags);
      }
    }
    if failed { return Err(Failed); }
    PartCount(|data|, partSize, number - 1);
    AllDone(data, partSize, number - 1, parts, bucket.stored, bucket.etags);
    r := Ok(SortBy(parts, ByNumber));
  }

  /** How far the data is cut when the next part has a number. */
  ghost predicate Cut(data: bytes, size: nat, offset: nat, number: nat) {
    && number >= 1 && offset == Min((number - 1) * size, |data|)
    && (number == 1 || (number - 2) * size < |data|)
  }

  lemma NothingYet(data: bytes, size: nat, running: set<Task>, stored: map<nat, bytes>, etags: map<nat, nat>)
    requires running == {}
    ensures Progress(data, size, 0, running, [], stored, etags) && Everything(0, running, []) && Cut(data, size, 0, 1)
  {
  }

  /** Starts parts while data is left and fewer than the allowed number run. */
  method StartParts(bucket: Bucket, data: bytes, partSize: nat, from: nat, next: nat, ghost parts: seq<Part>)
    returns (offset: nat, number: nat)
    requires partSize > 0 && Cut(data, partSize, from, next) && |bucket.running| <= PARALLEL_UPLOADS
    requires Progress(data, partSize, next - 1, bucket.running, parts, bucket.stored, bucket.etags)
    requires Everything(next - 1, bucket.running, parts)
    modifies bucket`running
    ensures Cut(data, partSize, offset, number) && |bucket.running| <= PARALLEL_UPLOADS
    ensures Progress(data, partSize, number - 1, bucket.running, parts, bucket.stored, bucket.etags)
    ensures Everything(number - 1, bucket.running, parts)
    ensures from <= offset && (offset == from ==> bucket.running == old(bucket.running))
    ensures offset == |data| || |bucket.running| == PARALLEL_UPLOADS
  {
    hide Chunk, Progress, Everything;
    offset, number := from, next;
    while offset < |data| && |bucket.running| < PARALLEL_UPLOADS
      invariant from <= offset && (offset == from ==> bucket.running == old(bucket.running))
      invariant Cut(data, partSize, offset, number) && |bucket.running| <= PARALLEL_UPLOADS
      invariant Progress(data, partSize, number - 1, bucket.running, parts, bucket.stored, bucket.etags)
      invariant Everything(number - 1, bucket.running, parts)
      decreases |data| - offset
    {
      var end := Min(offset + partSize, |data|);
      var t := Task(number, data[offset..end]);
      NextChunk(data, partSize, number - 1);
      Started(data, partSize, number - 1, bucket.running, parts, bucket.stored, bucket.etags, t);
      bucket.Spawn(t);
      offset := end;
      number := number + 1;
    }
  }

  /** The assembled parts are the data. */
  lemma AssembledData(bucket: Bucket, data: bytes, size: nat, parts: seq<Part>)
    requires size > 0 && InSequence(data, size, parts, bucket.stored, bucket.etags) && |parts| == DivCeil(|data|, size)
    requires bucket.Accepts(parts)
    ensures bucket.Assembled(parts) == data
  {
    hide Chunk;
    var chunks := Gathered(parts, bucket.stored);
    forall i | 0 <= i < |parts| ensures chunks[i] == Chunk(data, size, i) {
      assert StoredPart(data, size, |parts|, parts[i], bucket.stored, bucket.etags);
    }
    Tiles(data, size, chunks);
    DivCeilBounds(|data|, size);
    assert data[..|data|] == data;
  }

  /** `multipart_upload`: success leaves exactly the data; failure leaves the object as it was,
      unless only the final answer was lost. Every upload that is not empty can succeed. */
  method MultipartUpload(bucket: Bucket, data: bytes) returns (r: Result<nat, S3Error>)
    requires bucket.running == {}
    modifies bucket
    ensures bucket.running == {}
    ensures r.Ok? ==>
      bucket.current == Some(data) && r.value <= 10_000 && r.value == DivCeil(|data|, PartSizeFor(|data|))
    ensures bucket.current == old(bucket.current) || bucket.current == Some(data)
  {
    hide Chunk, PartSizeFor, InSequence;
    FewParts(|data|);
    var partSize := PartSizeFor(|data|);
    var created := bucket.Create();
    if !created { return Err(Failed); }
    var parts := UploadParts(bucket, data, partSize);
    if parts.Ok? {
      var ok := bucket.Complete(parts.value);
      if bucket.Accepts(parts.value) { AssembledData(bucket, data, partSize, parts.value); }
      if ok { return Ok(|parts.value|); }
    }
    bucket.Abort();
    r := Err(Failed);
  }

  /** The service accepts the list that a successful upload of any data but none produces. */
  lemma ListIsAcceptable(bucket: Bucket, data: bytes, parts: seq<Part>)
    requires data != [] && |parts| == DivCeil(|data|, PartSizeFor(|data|))
    requires InSequence(data, PartSizeFor(|data|), parts, bucket.stored, bucket.etags)
    ensures bucket.Accepts(parts)
  {
    FewParts(|data|);
    DivCeilBounds(|data|, PartSizeFor(|data|));
    forall i | 0 <= i < |parts| ensures parts[i].number == i + 1 && parts[i].number in bucket.stored {
      assert StoredPart(data, PartSizeFor(|data|), |parts|, parts[i], bucket.stored, bucket.etags);
    }
  }

  // ---- server-side copies ----

  /** The bytes of an inclusive range of a source. */
  function Inclusive(source: bytes, first: nat, last: nat): bytes
    requires first <= last < |source|
  {
    source[first..last + 1]
  }

  /** `copy_object`: above the limit of one request, inclusive ranges copied one after another. */
  method CopyObject(bucket: Bucket, source: bytes) returns (r: Result<nat, S3Error>)
    requires bucket.running == {}
    modifies bucket
    ensures bucket.running == {}
    ensures r.Ok? ==> bucket.current == Some(source) && r.value <= 10_000
    ensures r.Ok? ==> r.value == if |source| <= 5_368_709_120 then 1 else DivCeil(|source|, CopyPartSize(|source|))
    ensures bucket.current == old(bucket.current) || bucket.current == Some(source)
  {
    hide Chunk, CopyPartSize, InSequence;
    var size := |source|;
    if size <= MAX_SINGLE_COPY {
      var ok := bucket.CopyWhole(source);
      return if ok then Ok(1) else Err(Failed);
    }
    FewParts(size);
    var partSize := CopyPartSize(size);
    var created := bucket.Create();
    if !created { return Err(Failed); }
    var parts := CopyParts(bucket, source, partSize);
    if parts.Ok? {
      var ok := bucket.Complete(parts.value);
      if bucket.Accepts(parts.value) { AssembledData(bucket, source, partSize, parts.value); }
      if ok { return Ok(|parts.value|); }
    }
    bucket.Abort();
    r := Err(Failed);
  }

  method CopyParts(bucket: Bucket, source: bytes, partSize: nat) returns (r: Result<seq<Part>, S3Error>)
    requires partSize > 0 && source != []
    modifies bucket`stored, bucket`etags
    ensures r.Ok? ==>
      && |r.value| == DivCeil(|source|, partSize)
      && InSequence(source, partSize, r.value, bucket.stored, bucket.etags)
  {
    hide Chunk;
    var parts: seq<Part> := [];
    var start, number := 0, 1;
    var size := |source|;
    while start < size
      invariant number >= 1 && |parts| == number - 1 && start == Min((number - 1) * partSize, size)
      invariant number == 1 || (number - 2) * partSize < size
      invariant InSequence(source, partSize, parts, bucket.stored, bucket.etags)
      decreases size - start
    {
      var end := Min(start + partSize, size) - 1;
      NextChunk(source, partSize, number - 1);
      ghost var before, tags := bucket.stored, bucket.etags;
      var etag := bucket.PutPart(number, Inclusive(source, start, end));
      if etag.Err? { return Err(Failed); }
      Copied(source, partSize, parts, before, tags, number, Inclusive(source, start, end), etag.value);
      parts := parts + [Part(number, etag.value)];
      start := end + 1;
      number := number + 1;
    }
    PartCount(size, partSize, number - 1);
    r := Ok(parts);
  }

  lemma Copied(source: bytes, size: nat, parts: seq<Part>, stored: map<nat, bytes>, etags: map<nat, nat>, number: nat,
      chunk: bytes, etag: nat)
    requires number == |parts| + 1 && chunk == Chunk(source, size, |parts|)
    requires InSequence(source, size, parts, stored, etags)
    ensures InSequence(source, size, parts + [Part(number, etag)], stored[number := chunk], etags[number := etag])
  {
  }
}
