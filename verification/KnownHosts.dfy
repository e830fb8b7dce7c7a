/** Host keys in OpenSSH known_hosts files: parsing, looking a key up, and trust on
    first use over whole runs. */
module KnownHosts {
  import opened Common
  import opened Ordering
  import opened Text
  import opened Glob

  // ---- text ----

  function IsNewline(): char -> bool { c => c == '\n' }

  function IsInk(): char -> bool { c => !IsSpace(c) }

  function IsComma(): char -> bool { c => c == ',' }

  /** The lines of a file; a final newline ends the last line. */
  function Lines(s: string): seq<string>
    decreases |s|
  {
    if s == "" then []
    else
      var n := First(s, IsNewline());
      if n == |s| then [s] else [s[..n]] + Lines(s[n + 1..])
  }

  /** `split_whitespace`. */
  function Words(s: string): seq<string>
    decreases |s|
  {
    var a := First(s, IsInk());
    var t := s[a..];
    if t == "" then []
    else
      var b := First(t, IsBlank());
      [t[..b]] + (assert b > 0; Words(t[b..]))
  }

  /** `split(',')` without the empty pieces. */
  function Patterns(s: string): seq<string>
    decreases |s|
  {
    var n := First(s, IsComma());
    var piece := if n == 0 then [] else [s[..n]];
    if n == |s| then piece else piece + Patterns(s[n + 1..])
  }

  /** A list of patterns is two lists with a comma between. */
  lemma {:induction false} PatternsJoin(a: string, b: string)
    ensures Patterns(a + "," + b) == Patterns(a) + Patterns(b)
    decreases |a|
  {
    var n := First(a, IsComma());
    var all := a + "," + b;
    FindUnique(all, IsComma(), n);
    assert all[..n] == a[..n];
    if n == |a| {
      assert all[n + 1..] == b;
    } else {
      assert all[n + 1..] == a[n + 1..] + "," + b;
      PatternsJoin(a[n + 1..], b);
    }
  }

  /** A text without a comma is one pattern, or none if it is empty. */
  lemma OnePattern(p: string)
    requires ',' !in p
    ensures Patterns(p) == if p == "" then [] else [p]
  {
    FindUnique(p, IsComma(), |p|);
    assert p[..|p|] == p;
  }

  lemma FindUnique(s: string, p: char -> bool, n: nat)
    requires n <= |s| && (forall i :: 0 <= i < n ==> !p(s[i])) && (n < |s| ==> p(s[n]))
    ensures First(s, p) == n
  {
  }

  /** A complete first part of a file keeps its lines. */
  lemma {:induction false} LinesAppend(a: string, b: string)
    requires a == "" || a[|a| - 1] == '\n'
    ensures Lines(a + b) == Lines(a) + Lines(b)
    decreases |a|
  {
    hide Lines;
    if a == "" {
      assert a + b == b && Lines(a) == [] by { NoLines(); }
    } else {
      var n := FirstBreak(a);
      var rest := a[n + 1..];
      FirstLine(a, n);
      Split(a, b, n);
      FirstLine(a + b, n);
      LinesAppend(rest, b);
    }
  }

  lemma NoLines()
    ensures Lines("") == []
  {
  }

  lemma FirstBreak(a: string) returns (n: nat)
    requires a != "" && a[|a| - 1] == '\n'
    ensures n < |a| && a[n] == '\n' && forall i :: 0 <= i < n ==> a[i] != '\n'
    ensures a[n + 1..] == "" || a[n + 1..][|a| - n - 2] == '\n'
  {
    n := First(a, IsNewline());
    assert IsNewline()(a[|a| - 1]);
  }

  lemma Split(a: string, b: string, n: nat)
    requires n < |a|
    ensures (a + b)[..n] == a[..n] && (a + b)[n + 1..] == a[n + 1..] + b
    ensures forall i :: 0 <= i <= n ==> (a + b)[i] == a[i]
  {
  }

  lemma {:induction false} FirstLine(s: string, n: nat)
    requires n < |s| && s[n] == '\n' && forall i :: 0 <= i < n ==> s[i] != '\n'
    ensures Lines(s) == [s[..n]] + Lines(s[n + 1..])
  {
    FindUnique(s, IsNewline(), n);
  }

  /** Ending the last line does not change the lines. */
  lemma {:induction false} LinesClose(a: string)
    requires a != "" && a[|a| - 1] != '\n'
    ensures Lines(a + "\n") == Lines(a)
    decreases |a|
  {
    var n := First(a, IsNewline());
    FindUnique(a + "\n", IsNewline(), n);
    if n == |a| {
      assert (a + "\n")[..n] == a && (a + "\n")[n + 1..] == "";
    } else {
      assert (a + "\n")[..n] == a[..n] && (a + "\n")[n + 1..] == a[n + 1..] + "\n";
      assert a[n + 1..] != "";
      LinesClose(a[n + 1..]);
    }
  }

  lemma {:induction false} OneLine(line: string)
    requires '\n' !in line
    ensures Lines(line + "\n") == [line]
  {
    FindUnique(line + "\n", IsNewline(), |line|);
    assert (line + "\n")[..|line|] == line && (line + "\n")[|line| + 1..] == "";
  }

  /** The fields of a line of words separated by single spaces. */
  lemma {:induction false} WordsOf(a: string, b: string, c: string)
    requires IsWord(a) && IsWord(b) && IsWord(c)
    ensures Words(a + " " + b + " " + c) == [a, b, c]
  {
    hide Words, First, IsWord;
    assert a + " " + b + " " + c == a + (" " + (b + (" " + c)));
    assert c + "" == c;
    FirstWord(c, "");
    FirstWord(b, " " + c);
    SkipSpace(c);
    FirstWord(a, " " + (b + (" " + c)));
    SkipSpace(b + (" " + c));
    assert Words("") == [] by { NoWords(); }
  }

  lemma NoWords()
    ensures Words("") == []
  {
  }

  /** The words of a text one by one: white space before a word and behind it only separates. */
  lemma {:induction false} WordAt(lead: string, w: string, rest: string)
    requires (forall i :: 0 <= i < |lead| ==> IsSpace(lead[i])) && IsWord(w) && (rest == "" || IsSpace(rest[0]))
    ensures Words(lead) == [] && Words(lead + w + rest) == [w] + Words(rest)
  {
    FindUnique(lead, IsInk(), |lead|);
    var s, t := lead + w + rest, w + rest;
    assert s == lead + t;
    FindUnique(s, IsInk(), |lead|);
    assert s[|lead|..] == t;
    FindUnique(t, IsBlank(), |w|);
    assert t[..|w|] == w && t[|w|..] == rest;
  }

  lemma {:induction false} FirstWord(w: string, rest: string)
    requires IsWord(w) && (rest == "" || rest[0] == ' ')
    ensures Words(w + rest) == [w] + Words(rest)
  {
    var s := w + rest;
    FindUnique(s, IsInk(), 0);
    assert s[0..] == s;
    FindUnique(s, IsBlank(), |w|);
    assert s[..|w|] == w && s[|w|..] == rest;
  }

  lemma SkipSpace(rest: string)
    ensures Words(" " + rest) == Words(rest)
  {
    hide First, Words;
    var s, n := " " + rest, First(rest, IsInk());
    FirstInk(rest, n);
    assert s[n + 1..] == rest[n..];
    SameStart(s, rest);
  }

  lemma SameStart(s: string, t: string)
    requires s[First(s, IsInk())..] == t[First(t, IsInk())..]
    ensures Words(s) == Words(t)
  {
    hide First;
  }

  lemma FirstInk(rest: string, n: nat)
    requires n == First(rest, IsInk())
    ensures First(" " + rest, IsInk()) == n + 1
  {
    FindUnique(" " + rest, IsInk(), n + 1);
  }

  // ---- entries ----

  /** Encodings and digests of other libraries: base64 (padded, falling back to unpadded
      when decoding), the test of a hashed `|1|salt|hash` host field, and UTF-8. */
  datatype Library = Library(
    encode: bytes -> string,
    decode: string -> Option<bytes>,
    hashed: (string, string) -> bool,
    utf8: bytes -> Option<string>)

  /** Base64 text of a key is one word and decodes to the key. */
  ghost predicate RoundTrips(lib: Library) {
    forall b: bytes :: b != [] ==> IsWord(lib.encode(b)) && lib.decode(lib.encode(b)) == Some(b)
  }

  datatype Marker = Plain | Revoked | CertAuthority

  datatype Entry = Entry(line: nat, marker: Marker, hosts: string, keyType: string, key: bytes)

  /** One line; comments, blank and malformed lines give nothing. (`words == []` is the
      trimmed line being empty, and its first word starts as the trimmed line does.) */
  function EntryOf(lib: Library, number: nat, line: string): Option<Entry> {
    var words := Words(line);
    if words == [] || "#" <= words[0] then None
    else if "@" <= words[0] then
      if words[0] == "@revoked" then FieldsOf(lib, number, Revoked, words[1..])
      else if words[0] == "@cert-authority" then FieldsOf(lib, number, CertAuthority, words[1..])
      else None
    else FieldsOf(lib, number, Plain, words)
  }

  function FieldsOf(lib: Library, number: nat, marker: Marker, words: seq<string>): Option<Entry> {
    if |words| < 3 || lib.decode(words[2]).None? then None
    else Some(Entry(number, marker, words[0], words[1], lib.decode(words[2]).value))
  }

  /** What makes a line an entry: a marker or none, then host field, key type and key, separated
      by white space. Neither `#` nor any other word with `@` may come first. */
  predicate IsEntry(lib: Library, line: string, e: Entry) {
    var words, n := Words(line), if e.marker.Plain? then 0 else 1;
    && |words| >= n + 3
    && words[n] == e.hosts && words[n + 1] == e.keyType && lib.decode(words[n + 2]) == Some(e.key)
    && match e.marker
       case Plain => !("#" <= words[0]) && !("@" <= words[0])
       case Revoked => words[0] == "@revoked"
       case CertAuthority => words[0] == "@cert-authority"
  }

  lemma LineMeaning(lib: Library, number: nat, line: string, e: Entry)
    ensures EntryOf(lib, number, line) == Some(e) <==> e.line == number && IsEntry(lib, line, e)
  {
    hide Words;
    var words := Words(line);
    assert "@revoked"[0] == '@' && "@cert-authority"[0] == '@' && "#"[0] == '#';
    assert "@" <= "@revoked" && "@" <= "@cert-authority";
  }

  /** The lines that give no entry: blank ones, comments, other `@` words, too few fields. */
  lemma SkippedLine(lib: Library, number: nat, lead: string, word: string, rest: string)
    requires (forall i :: 0 <= i < |lead| ==> IsSpace(lead[i])) && IsWord(word) && (rest == "" || IsSpace(rest[0]))
    ensures EntryOf(lib, number, lead) == None
    ensures word[0] == '#' ==> EntryOf(lib, number, lead + word + rest) == None
    ensures word[0] == '@' && word != "@revoked" && word != "@cert-authority" ==>
      EntryOf(lib, number, lead + word + rest) == None
    ensures |Words(rest)| < (if word[0] == '@' then 3 else 2) ==> EntryOf(lib, number, lead + word + rest) == None
  {
    hide Words;
    WordAt(lead, word, rest);
  }

  function EntriesOf(lib: Library, lines: seq<string>): seq<Entry> {
    if lines == [] then []
    else
      var n := |lines| - 1;
      var last := EntryOf(lib, n + 1, lines[n]);
      EntriesOf(lib, lines[..n]) + (if last.Some? then [last.value] else [])
  }

  function Parsed(lib: Library, contents: string): seq<Entry> { EntriesOf(lib, Lines(contents)) }

  /** The entries of a file: those of its lines, in order, and no others. */
  ghost predicate EntriesFit(lib: Library, lines: seq<string>, out: seq<Entry>) {
    && (forall i :: 0 <= i < |out| ==> 1 <= out[i].line <= |lines| && IsEntry(lib, lines[out[i].line - 1], out[i]))
    && (forall i, j :: 0 <= i < j < |out| ==> out[i].line < out[j].line)
    && (forall e: Entry :: 1 <= e.line <= |lines| && IsEntry(lib, lines[e.line - 1], e) ==> e in out)
  }

  lemma {:induction false} EntriesAreFit(lib: Library, lines: seq<string>)
    ensures EntriesFit(lib, lines, EntriesOf(lib, lines))
  {
    hide EntryOf, EntriesFit;
    if lines == [] {
      assert EntriesFit(lib, lines, []) by { NoLineFits(lib); }
    } else {
      var n := |lines| - 1;
      EntriesAreFit(lib, lines[..n]);
      OneMoreFits(lib, lines, EntriesOf(lib, lines[..n]), EntryOf(lib, n + 1, lines[n]));
    }
  }

  lemma NoLineFits(lib: Library)
    ensures EntriesFit(lib, [], [])
  {
  }

  lemma OneMoreFits(lib: Library, lines: seq<string>, before: seq<Entry>, last: Option<Entry>)
    requires lines != [] && EntriesFit(lib, lines[..|lines| - 1], before)
    requires last == EntryOf(lib, |lines|, lines[|lines| - 1])
    ensures EntriesFit(lib, lines, before + if last.Some? then [last.value] else [])
  {
    hide EntryOf, IsEntry;
    var n, out := |lines| - 1, before + if last.Some? then [last.value] else [];
    if last.Some? { LineMeaning(lib, n + 1, lines[n], last.value); }
    forall e: Entry | 1 <= e.line <= |lines| && IsEntry(lib, lines[e.line - 1], e) ensures e in out {
      if e.line <= n {
        assert lines[..n][e.line - 1] == lines[e.line - 1] && e in before;
      } else {
        LineMeaning(lib, n + 1, lines[n], e);
        assert out[|before|] == e;
      }
    }
    forall i | 0 <= i < |before|
      ensures 1 <= before[i].line <= n && IsEntry(lib, lines[before[i].line - 1], before[i])
    {
      assert lines[..n][before[i].line - 1] == lines[before[i].line - 1];
    }
  }

  method ParseKnownHosts(lib: Library, contents: string) returns (out: seq<Entry>)
    ensures out == Parsed(lib, contents) && EntriesFit(lib, Lines(contents), out)
  {
    hide EntriesFit, EntryOf, Lines;
    out := [];
    var lines := Lines(contents);
    for i := 0 to |lines|
      invariant out == EntriesOf(lib, lines[..i])
    {
      assert lines[..i + 1][..i] == lines[..i];
      var e := EntryOf(lib, i + 1, lines[i]);
      if e.Some? { out := out + [e.value]; }
    }
    assert lines[..|lines|] == lines;
    EntriesAreFit(lib, lines);
  }

  /** A line appended to a file is one more entry; the entries before it stay. */
  lemma EntriesAppend(lib: Library, lines: seq<string>, line: string)
    ensures EntriesOf(lib, lines + [line])
         == EntriesOf(lib, lines) + (var e := EntryOf(lib, |lines| + 1, line); if e.Some? then [e.value] else [])
  {
  }

  // ---- host fields ----

  predicate Negated(pattern: string) { "!" <= pattern }

  /** A pattern without its `!`, in lower case. */
  function GlobOf(pattern: string): string { ToLower(if Negated(pattern) then pattern[1..] else pattern) }

  predicate PatternFits(pattern: string, name: string) { Scan(GlobOf(pattern), name, 0, 0, NoStar) }

  /** The meaning of a host field: some positive pattern fits and no negated one does. */
  predicate HostMatches(lib: Library, hosts: string, lookup: string) {
    var name := ToLower(lookup);
    if "|1|" <= hosts then lib.hashed(hosts, name)
    else
      && (exists p :: p in Patterns(hosts) && !Negated(p) && PatternFits(p, name))
      && (forall p :: p in Patterns(hosts) && Negated(p) ==> !PatternFits(p, name))
  }

  method HostFieldMatches(lib: Library, hosts: string, lookup: string) returns (r: bool)
    ensures r == HostMatches(lib, hosts, lookup)
  {
    hide Patterns, Scan, Matches, GlobOf;
    var name := ToLower(lookup);
    if "|1|" <= hosts {
      return lib.hashed(hosts, name);
    }
    var positive := false;
    var patterns := Patterns(hosts);
    for i := 0 to |patterns|
      invariant positive <==> exists j :: 0 <= j < i && PatternFits(patterns[j], name)
      invariant forall j :: 0 <= j < i && Negated(patterns[j]) ==> !PatternFits(patterns[j], name)
    {
      var negated := Negated(patterns[i]);
      var fits := GlobMatch(GlobOf(patterns[i]), name);
      if fits {
        if negated { return false; }
        positive := true;
      }
    }
    r := positive;
  }

  lemma {:induction false} NoneEmpty(s: string)
    ensures forall p :: p in Patterns(s) ==> p != ""
    decreases |s|
  {
    var n := First(s, IsComma());
    if n < |s| { NoneEmpty(s[n + 1..]); }
  }

  /** For a name without `*` a host field means what its patterns mean. */
  lemma HostFieldMeaning(lib: Library, hosts: string, lookup: string)
    requires '*' !in lookup && !("|1|" <= hosts)
    ensures HostMatches(lib, hosts, lookup) <==>
      && (exists p :: p in Patterns(hosts) && p != "" && p[0] != '!' && Matches(ToLower(p), ToLower(lookup)))
      && (forall p :: p in Patterns(hosts) && p != "" && p[0] == '!' ==>
           !Matches(ToLower(p[1..]), ToLower(lookup)))
  {
    NoneEmpty(hosts);
    var name := ToLower(lookup);
    assert '*' !in name by {
      forall i | 0 <= i < |name| ensures name[i] != '*' { assert lookup[i] != '*'; }
    }
    forall p | p in Patterns(hosts)
      ensures PatternFits(p, name) == Matches(GlobOf(p), name)
    {
      ScanIsMatching(GlobOf(p), name);
    }
  }

  /** Text without wildcards matches itself alone. */
  lemma {:induction false} LiteralMatch(p: string, t: string)
    requires '*' !in p && '?' !in p
    ensures Matches(p, t) <==> p == t
  {
    if p != "" {
      assert p[0] in p;
      if t != "" {
        assert forall i :: 0 <= i < |p[1..]| ==> p[1..][i] in p;
        LiteralMatch(p[1..], t[1..]);
        assert p == [p[0]] + p[1..] && t == [t[0]] + t[1..];
      }
    }
  }

  // ---- names and lines of this program ----

  function BareHost(host: string): string {
    ToLower(TrimEnd(TrimStart(Trim(host), c => c == '['), c => c == ']'))
  }

  function Decimal(n: nat): (r: string)
    ensures r != "" && forall i :: 0 <= i < |r| ==> '0' <= r[i] <= '9'
  {
    (if n < 10 then "" else Decimal(n / 10)) + ['0' + (n % 10) as char]
  }

  /** `known_hosts_host_name`. */
  function HostName(host: string, port: nat): string {
    var h := BareHost(host);
    if port == 22 || port == 0 then h else "[" + h + "]:" + Decimal(port)
  }

  lemma {:induction false} DecimalInjective(m: nat, n: nat)
    requires Decimal(m) == Decimal(n)
    ensures m == n
    decreases m
  {
    var a, b := Decimal(m), Decimal(n);
    assert a[|a| - 1] == '0' + (m % 10) as char && b[|b| - 1] == '0' + (n % 10) as char;
    assert a[..|a| - 1] == if m < 10 then "" else Decimal(m / 10);
    assert b[..|b| - 1] == if n < 10 then "" else Decimal(n / 10);
    if m >= 10 && n >= 10 {
      DecimalInjective(m / 10, n / 10);
    }
  }

  /** Names are lower case, so looking one up does not change it. */
  lemma NamesAreLower(host: string, port: nat)
    ensures ToLower(HostName(host, port)) == HostName(host, port)
  {
  }

  /** The number a text of digits stands for. */
  function Value(digits: string): int {
    if digits == "" then 0 else Value(digits[..|digits| - 1]) * 10 + digits[|digits| - 1] as int - '0' as int
  }

  /** Ports are written in decimal, without leading zeros. */
  lemma {:induction false} DecimalValue(n: nat)
    ensures Value(Decimal(n)) == n && (n > 0 ==> Decimal(n)[0] != '0')
  {
    var d := Decimal(n);
    assert d[..|d| - 1] == if n < 10 then "" else Decimal(n / 10);
    if n >= 10 { DecimalValue(n / 10); }
  }

  /** The bare host is the text without white space around it, brackets around that, and case. */
  lemma BareHostOf(lead: string, opens: string, host: string, closes: string, trail: string)
    requires forall i :: 0 <= i < |lead| ==> IsSpace(lead[i])
    requires forall i :: 0 <= i < |trail| ==> IsSpace(trail[i])
    requires forall i :: 0 <= i < |opens| ==> opens[i] == '['
    requires forall i :: 0 <= i < |closes| ==> closes[i] == ']'
    requires host != "" && host[0] != '[' && host[|host| - 1] != ']'
    requires (opens == "" ==> !IsSpace(host[0])) && (closes == "" ==> !IsSpace(host[|host| - 1]))
    ensures BareHost(lead + opens + host + closes + trail) == ToLower(host)
  {
    var inner := opens + host + closes;
    assert lead + opens + host + closes + trail == lead + inner + trail;
    assert inner[0] == if opens == "" then host[0] else '[';
    assert inner[|inner| - 1] == if closes == "" then host[|host| - 1] else ']';
    TrimOf(lead, inner, trail);
    assert inner == opens + (host + closes) && (host + closes)[0] == host[0];
    TrimStartAt(opens, host + closes, c => c == '[');
    TrimEndAt(host, closes, c => c == ']');
    BareHostSteps(lead + inner + trail, inner, host + closes, host);
  }

  lemma BareHostSteps(all: string, inner: string, tail: string, host: string)
    requires Trim(all) == inner && TrimStart(inner, c => c == '[') == tail && TrimEnd(tail, c => c == ']') == host
    ensures BareHost(all) == ToLower(host)
  {
  }

  lemma NoBracket(host: string)
    ensures BareHost(host) == "" || BareHost(host)[0] != '['
  {
    var inner := Trim(host);
    StartTrimmed(inner, c => c == '[');
    var tail := TrimStart(inner, c => c == '[');
    EndTrimmed(tail, c => c == ']');
    assert BareHost(host) == ToLower(TrimEnd(tail, c => c == ']'));
  }

  lemma {:induction false} StartTrimmed(s: string, p: char -> bool)
    ensures TrimStart(s, p) == "" || !p(TrimStart(s, p)[0])
  {
    if s != "" && p(s[0]) { StartTrimmed(s[1..], p); }
  }

  lemma {:induction false} EndTrimmed(s: string, p: char -> bool)
    ensures TrimEnd(s, p) <= s
    decreases |s|
  {
    if s != "" && p(s[|s| - 1]) { EndTrimmed(s[..|s| - 1], p); }
  }

  /** Two hosts share a name only if they are one bare host and the ports are the same, except
      that 0 stands for 22. */
  lemma HostsAreApart(a: string, p: nat, b: string, q: nat)
    ensures HostName(a, p) == HostName(b, q) <==>
      BareHost(a) == BareHost(b) && (p == q || (p in {0, 22} && q in {0, 22}))
  {
    hide BareHost, Decimal;
    NoBracket(a);
    NoBracket(b);
    if p !in {0, 22} && q !in {0, 22} && HostName(a, p) == HostName(b, q) {
      SameBrackets(BareHost(a), Decimal(p), BareHost(b), Decimal(q));
      DecimalInjective(p, q);
    }
  }

  /** The last closing bracket ends the host. */
  lemma SameBrackets(g: string, d: string, h: string, e: string)
    requires ']' !in d && ']' !in e && ':' !in d && ':' !in e && "[" + g + "]:" + d == "[" + h + "]:" + e
    ensures g == h && d == e
  {
    var x, y := "[" + g + "]:" + d, "[" + h + "]:" + e;
    var m, n := |g| + 1, |h| + 1;
    assert x[m] == ']' && y[n] == ']' && x[m + 1] == ':' && y[n + 1] == ':';
    assert forall k :: m < k < |x| ==> x[k] != ']';
    assert forall k :: n < k < |y| ==> y[k] != ']';
    assert x[1..m] == g && y[1..n] == h && x[m + 2..] == d && y[n + 2..] == e;
  }

  /** A name written to the file as it is: no pattern characters, comment, marker or list. */
  predicate IsPlainName(name: string) {
    && IsWord(name) && ToLower(name) == name
    && '*' !in name && '?' !in name && ',' !in name
    && name[0] !in {'!', '#', '@'} && !("|1|" <= name)
  }

  /** `key_type_of_blob`; `utf8` turns bytes into text when they are UTF-8. */
  function KeyTypeOf(lib: Library, key: bytes): Option<string> {
    if |key| < 4 then None
    else
      var a: int, b: int, c: int, d: int := key[0], key[1], key[2], key[3];
      var length := ((a * 256 + b) * 256 + c) * 256 + d;
      if |key| - 4 < length then None else lib.utf8(key[4..4 + length])
  }

  /** The type is the text behind a four-byte length, most significant byte first. */
  lemma KeyTypeAt(lib: Library, length: bytes, kind: bytes, rest: bytes)
    requires |length| == 4
    requires
      |kind| == length[0] as int * 16_777_216 + length[1] as int * 65_536 + length[2] as int * 256 + length[3] as int
    ensures KeyTypeOf(lib, length + kind + rest) == lib.utf8(kind)
    ensures forall n :: 0 <= n < |kind| ==> KeyTypeOf(lib, length + kind[..n]) == None
    ensures forall n :: 0 <= n < 4 ==> KeyTypeOf(lib, length[..n]) == None
  {
    assert (length + kind + rest)[4..4 + |kind|] == kind;
  }

  /** `known_hosts_line` for a name and key. */
  function LineOf(lib: Library, name: string, key: bytes): string {
    name + " " + Or(KeyTypeOf(lib, key), "ssh-unknown") + " " + lib.encode(key)
  }

  /** A key that starts with its type, one word, as every SSH key does. */
  predicate IsWellFormed(lib: Library, key: bytes) {
    key != [] && IsWord(Or(KeyTypeOf(lib, key), "ssh-unknown"))
  }

  function OwnEntry(lib: Library, number: nat, name: string, key: bytes): Entry {
    Entry(number, Plain, name, Or(KeyTypeOf(lib, key), "ssh-unknown"), key)
  }

  /** The line written for a key parses back to that name and key. */
  lemma LineRoundTrip(lib: Library, number: nat, name: string, key: bytes)
    requires RoundTrips(lib) && IsPlainName(name) && IsWellFormed(lib, key)
    ensures EntryOf(lib, number, LineOf(lib, name, key)) == Some(OwnEntry(lib, number, name, key))
    ensures '\n' !in LineOf(lib, name, key)
  {
    hide Words, KeyTypeOf, IsWord;
    var kind, text := Or(KeyTypeOf(lib, key), "ssh-unknown"), lib.encode(key);
    WordsOf(name, kind, text);
    NoBreak(name);
    NoBreak(kind);
    NoBreak(text);
    var words := [name, kind, text];
    assert words[0] == name && words[1] == kind && words[2] == text;
    assert !("#" <= name) && !("@" <= name);
  }

  /** The same line behind a marker is one entry with that marker. */
  lemma MarkedLine(lib: Library, number: nat, name: string, key: bytes)
    requires RoundTrips(lib) && IsPlainName(name) && IsWellFormed(lib, key)
    ensures var line, kind := LineOf(lib, name, key), Or(KeyTypeOf(lib, key), "ssh-unknown");
      && EntryOf(lib, number, "@revoked " + line) == Some(Entry(number, Revoked, name, kind, key))
      && EntryOf(lib, number, "@cert-authority " + line) == Some(Entry(number, CertAuthority, name, kind, key))
      && '\n' !in "@revoked " + line && '\n' !in "@cert-authority " + line
  {
    hide Words, KeyTypeOf, IsWord, RoundTrips;
    var line, kind, text := LineOf(lib, name, key), Or(KeyTypeOf(lib, key), "ssh-unknown"), lib.encode(key);
    LineRoundTrip(lib, number, name, key);
    LineWords(lib, name, key);
    MarkersAreWords();
    MarkedWords("@revoked", line);
    MarkedWords("@cert-authority", line);
    assert "@revoked" + " " + line == "@revoked " + line;
    assert "@cert-authority" + " " + line == "@cert-authority " + line;
    Behind(lib, number, "@revoked " + line, Entry(number, Revoked, name, kind, key), text);
    Behind(lib, number, "@cert-authority " + line, Entry(number, CertAuthority, name, kind, key), text);
  }

  lemma Behind(lib: Library, number: nat, line: string, e: Entry, text: string)
    requires e.line == number && lib.decode(text) == Some(e.key)
    requires e.marker.Revoked? ==> Words(line) == ["@revoked", e.hosts, e.keyType, text]
    requires e.marker.CertAuthority? ==> Words(line) == ["@cert-authority", e.hosts, e.keyType, text]
    requires !e.marker.Plain?
    ensures EntryOf(lib, number, line) == Some(e)
  {
    hide Words, EntryOf;
    LineMeaning(lib, number, line, e);
  }

  lemma LineWords(lib: Library, name: string, key: bytes)
    requires RoundTrips(lib) && IsPlainName(name) && IsWellFormed(lib, key)
    ensures Words(LineOf(lib, name, key)) == [name, Or(KeyTypeOf(lib, key), "ssh-unknown"), lib.encode(key)]
    ensures lib.decode(lib.encode(key)) == Some(key)
  {
    hide Words, KeyTypeOf, IsWord;
    WordsOf(name, Or(KeyTypeOf(lib, key), "ssh-unknown"), lib.encode(key));
  }

  lemma MarkersAreWords()
    ensures IsWord("@revoked") && IsWord("@cert-authority")
  {
  }

  lemma MarkedWords(marker: string, line: string)
    requires IsWord(marker)
    ensures Words(marker + " " + line) == [marker] + Words(line)
  {
    FirstWord(marker, " " + line);
    SkipSpace(line);
    assert marker + (" " + line) == marker + " " + line;
  }

  lemma NoBreak(w: string)
    requires IsWord(w)
    ensures '\n' !in w
  {
  }

  /** An own entry speaks for its own name and no other. */
  lemma OwnName(lib: Library, name: string, lookup: string)
    requires IsPlainName(name) && IsPlainName(lookup)
    ensures HostMatches(lib, name, lookup) <==> name == lookup
  {
    OnePattern(name);
    assert !Negated(name);
    HostFieldMeaning(lib, name, lookup);
    LiteralMatch(name, lookup);
    assert name in Patterns(name);
  }

  /** A list of two names speaks for both, and for the first alone when the second is negated. */
  lemma TwoNames(lib: Library, a: string, b: string, lookup: string)
    requires IsPlainName(a) && IsPlainName(b) && IsPlainName(lookup)
    ensures HostMatches(lib, a + "," + b, lookup) <==> lookup == a || lookup == b
    ensures HostMatches(lib, a + ",!" + b, lookup) <==> lookup == a && lookup != b
  {
    hide HostMatches, Matches, IsPlainName, ToLower;
    PlainFacts(a);
    PlainFacts(b);
    PlainFacts(lookup);
    var not := "!" + b;
    assert not[1..] == b && not[0] == '!' && a + "," + not == a + ",!" + b;
    assert forall c :: c in not ==> c == '!' || c in b;
    TwoPatterns(lib, a, b, lookup);
    TwoPatterns(lib, a, not, lookup);
    LiteralMatch(a, lookup);
    LiteralMatch(b, lookup);
  }

  lemma PlainFacts(name: string)
    requires IsPlainName(name)
    ensures name != "" && name[0] != '!' && ToLower(name) == name && '*' !in name && '?' !in name && ',' !in name
  {
  }

  lemma TwoPatterns(lib: Library, a: string, b: string, lookup: string)
    requires IsPlainName(a) && b != "" && ',' !in b && '*' !in lookup
    ensures HostMatches(lib, a + "," + b, lookup) <==>
      if Negated(b) then Matches(a, ToLower(lookup)) && !Matches(ToLower(b[1..]), ToLower(lookup))
      else Matches(a, ToLower(lookup)) || Matches(ToLower(b), ToLower(lookup))
  {
    hide Patterns, Matches, HostMatches;
    var hosts := a + "," + b;
    PatternsJoin(a, b);
    OnePattern(a);
    OnePattern(b);
    assert Patterns(hosts) == [a, b];
    assert !("|1|" <= hosts) by { NotHashed(a, b); }
    HostFieldMeaning(lib, hosts, lookup);
    assert a in Patterns(hosts) && b in Patterns(hosts);
  }

  lemma NotHashed(a: string, b: string)
    requires !("|1|" <= a)
    ensures !("|1|" <= a + "," + b)
  {
    var hosts := a + "," + b;
    if |a| < 3 {
      assert hosts[|a|] == ',';
    } else {
      assert hosts[..3] == a[..3];
    }
  }

  /** A host whose name can be written to the file as it is. */
  predicate IsPlainHost(host: string) {
    var h := BareHost(host);
    && IsWord(h) && '*' !in h && '?' !in h && ',' !in h
    && h[0] !in {'!', '#', '@'} && !("|1|" <= h)
  }

  lemma NamesArePlain(host: string, port: nat)
    requires IsPlainHost(host)
    ensures IsPlainName(HostName(host, port))
  {
    hide BareHost, Decimal;
    NamesAreLower(host, port);
    var h, digits := BareHost(host), Decimal(port);
    var name := "[" + h + "]:" + digits;
    assert name[0] == '[';
    forall i | 0 <= i < |name| ensures name[i] !in {'*', '?', ','} && !IsSpace(name[i]) {
      if 1 <= i < |h| + 1 { assert name[i] == h[i - 1] && h[i - 1] in h; }
    }
  }

  /** An entry written for one port of a host speaks for that port alone. */
  lemma OnePortEach(lib: Library, host: string, p: nat, q: nat)
    requires IsPlainHost(host)
    ensures HostMatches(lib, HostName(host, p), HostName(host, q)) <==> p == q || (p in {0, 22} && q in {0, 22})
  {
    hide HostName, HostMatches, IsPlainName;
    NamesArePlain(host, p);
    NamesArePlain(host, q);
    OwnName(lib, HostName(host, p), HostName(host, q));
    HostsAreApart(host, p, host, q);
  }

  // ---- appending ----

  /** A file after `append_line`. */
  function Appended(contents: string, line: string): string {
    contents + (if contents != "" && contents[|contents| - 1] != '\n' then "\n" else "") + line + "\n"
  }

  lemma LinesAppended(contents: string, line: string)
    requires '\n' !in line
    ensures Lines(Appended(contents, line)) == Lines(contents) + [line]
  {
    var gap := if contents != "" && contents[|contents| - 1] != '\n' then "\n" else "";
    if gap != "" { LinesClose(contents); } else { assert contents + gap == contents; }
    LinesAppend(contents + gap, line + "\n");
    OneLine(line);
    assert Appended(contents, line) == (contents + gap) + (line + "\n");
  }

  /** The appended line is exactly one new entry, the key's own, and no other changes. */
  lemma AppendedParses(lib: Library, contents: string, name: string, key: bytes)
    requires RoundTrips(lib) && IsPlainName(name) && IsWellFormed(lib, key)
    ensures Parsed(lib, Appended(contents, LineOf(lib, name, key)))
         == Parsed(lib, contents) + [OwnEntry(lib, |Lines(contents)| + 1, name, key)]
  {
    var line := LineOf(lib, name, key);
    LineRoundTrip(lib, |Lines(contents)| + 1, name, key);
    LinesAppended(contents, line);
    EntriesAppend(lib, Lines(contents), line);
  }

  // ---- looking a key up ----

  datatype Status = Match | RevokedAt(line: nat) | Mismatch(line: nat, knownType: string) | NotFound

  predicate Revokes(lib: Library, e: Entry, lookup: string, key: bytes) {
    e.marker == Revoked && e.key == key && HostMatches(lib, e.hosts, lookup)
  }

  /** An ordinary entry for the host. */
  predicate Names(lib: Library, e: Entry, lookup: string) {
    e.marker == Plain && HostMatches(lib, e.hosts, lookup)
  }

  function MismatchWith(lib: Library, e: Entry): Status { Mismatch(e.line, Or(KeyTypeOf(lib, e.key), e.keyType)) }

  /** What a file says: a revocation of the key, else the key among the host's entries, else
      the first of the host's entries. */
  function StatusIn(lib: Library, entries: seq<Entry>, lookup: string, key: bytes): Status {
    var revoked := First(entries, (e: Entry) => Revokes(lib, e, lookup, key));
    var named := First(entries, (e: Entry) => Names(lib, e, lookup));
    if revoked < |entries| then RevokedAt(entries[revoked].line)
    else if exists i :: 0 <= i < |entries| && Names(lib, entries[i], lookup) && entries[i].key == key then Match
    else if named < |entries| then MismatchWith(lib, entries[named])
    else NotFound
  }

  /** What a status points at: the first line that revokes the key, or the host's first entry and
      the type its key names, or else its line. */
  lemma StatusLines(lib: Library, entries: seq<Entry>, lookup: string, key: bytes)
    ensures match StatusIn(lib, entries, lookup, key)
      case RevokedAt(line) => exists i ::
        && 0 <= i < |entries| && entries[i].line == line && Revokes(lib, entries[i], lookup, key)
        && forall j :: 0 <= j < i ==> !Revokes(lib, entries[j], lookup, key)
      case Mismatch(line, kind) => exists i ::
        && 0 <= i < |entries| && entries[i].line == line && Names(lib, entries[i], lookup)
        && (forall j :: 0 <= j < i ==> !Names(lib, entries[j], lookup))
        && var told := KeyTypeOf(lib, entries[i].key); kind == if told.Some? then told.value else entries[i].keyType
      case _ => true
  {
    hide HostMatches, KeyTypeOf;
  }

  method CheckKnownHosts(lib: Library, contents: string, lookup: string, key: bytes) returns (s: Status)
    ensures s == StatusIn(lib, Parsed(lib, contents), lookup, key)
  {
    hide EntriesFit, HostMatches, KeyTypeOf, Lines, Parsed;
    var entries := ParseKnownHosts(lib, contents);
    ghost var named := First(entries, (e: Entry) => Names(lib, e, lookup));
    for i := 0 to |entries|
      invariant forall j :: 0 <= j < i ==> !Revokes(lib, entries[j], lookup, key)
    {
      var e := entries[i];
      var fits := HostFieldMatches(lib, e.hosts, lookup);
      if e.marker == Revoked && e.key == key && fits {
        return RevokedAt(e.line);
      }
    }
    var mismatch: Option<Status> := None;
    for i := 0 to |entries|
      invariant forall j :: 0 <= j < i && Names(lib, entries[j], lookup) ==> entries[j].key != key
      invariant mismatch.None? <==> i <= named
      invariant mismatch.Some? ==> mismatch.value == MismatchWith(lib, entries[named])
    {
      var e := entries[i];
      var fits := HostFieldMatches(lib, e.hosts, lookup);
      if e.marker != Plain || !fits { continue; }
      if e.key == key { return Match; }
      if mismatch.None? {
        mismatch := Some(MismatchWith(lib, e));
      }
    }
    s := Or(mismatch, NotFound);
  }
}
