/** Local file names for remote paths: portable, and told apart even where case is not. */
module PathEncoder {
  import opened Common
  import opened Text

  const MAX_ENCODED: nat := 200

  const SLASH: byte := 47
  const DOT: byte := 46

  // ---- escapes ----

  predicate IsPlain(b: byte) {
    || 97 <= b <= 122
    || 48 <= b <= 57
    || b == 95
    || b == 45
  }

  function HexDigit(n: nat): char
    requires n < 16
  {
    if n < 10 then '0' + n as char else 'A' + (n - 10) as char
  }

  function HexEscape(b: byte): string { "%" + [HexDigit(b / 16), HexDigit(b % 16)] }

  /** One byte of a name; dots pass only inside. */
  function Escape(c: bytes, i: nat): string
    requires i < |c|
  {
    if IsPlain(c[i]) || (c[i] == DOT && i != 0 && i != |c| - 1) then [c[i] as char] else HexEscape(c[i])
  }

  function EscapeFrom(c: bytes, i: nat): string
    requires i <= |c|
    decreases |c| - i
  {
    if i == |c| then "" else Escape(c, i) + EscapeFrom(c, i + 1)
  }

  /** The text before the first dot. */
  function Stem(s: string): string { if s == "" || s[0] == '.' then "" else [s[0]] + Stem(s[1..]) }

  predicate IsReserved(stem: string) {
    || stem in {"con", "prn", "aux", "nul"}
    || (|stem| == 4 && stem[..3] in {"com", "lpt"} && '0' <= stem[3] <= '9')
  }

  /** A device name gets its first letter escaped. */
  function Tweaked(out: string): string {
    if out != "" && IsReserved(Stem(out)) then HexEscape((out[0] as int) % 256) + out[1..] else out
  }

  function Short(c: bytes): string { Tweaked(EscapeFrom(c, 0)) }

  /** The name of a remote component; `hash` is the hexadecimal digest of the long form. */
  function Encoded(hash: bytes -> string, c: bytes): string {
    if |Short(c)| > MAX_ENCODED then "~" + hash(c) else Short(c)
  }

  method EncodeComponent(hash: bytes -> string, component: bytes) returns (out: string)
    ensures out == Encoded(hash, component)
  {
    hide EscapeFrom, HexEscape, Stem, IsReserved, IsPlain;
    var last := SatSub(|component|, 1);
    out := "";
    for i := 0 to |component|
      invariant out + EscapeFrom(component, i) == EscapeFrom(component, 0)
    {
      var b := component[i];
      var plain := IsPlain(b) || (b == DOT && i != 0 && i != last);
      var more := if plain then [b as char] else HexEscape(b);
      NextEscape(out, component, i);
      out := out + more;
    }
    AllEscaped(out, component);
    if IsReserved(Stem(out)) {
      ReservedStem(out);
      out := HexEscape((out[0] as int) % 256) + out[1..];
    }
    if |out| > MAX_ENCODED {
      out := "~" + hash(component);
    }
  }

  lemma NextEscape(out: string, c: bytes, i: nat)
    requires i < |c|
    ensures out + EscapeFrom(c, i) == (out + Escape(c, i)) + EscapeFrom(c, i + 1)
  {
  }

  lemma AllEscaped(out: string, c: bytes)
    requires out + EscapeFrom(c, |c|) == EscapeFrom(c, 0)
    ensures out == EscapeFrom(c, 0)
  {
  }

  // ---- the left inverse ----

  function HexValue(c: char): nat {
    if '0' <= c <= '9' then (c - '0') as int
    else if 'a' <= c <= 'f' then (c - 'a') as int + 10
    else if 'A' <= c <= 'F' then (c - 'A') as int + 10
    else 0
  }

  /** Reads a name back; it does not see the case of letters in escapes. */
  function Decoded(s: string): bytes {
    if s == "" then []
    else if s[0] == '%' && |s| >= 3 then [(HexValue(s[1]) * 16 + HexValue(s[2])) % 256] + Decoded(s[3..])
    else [(s[0] as int) % 256] + Decoded(s[1..])
  }

  lemma HexRead(n: nat)
    requires n < 16
    ensures HexValue(Lower(HexDigit(n))) == n
  {
  }

  lemma EscapeRead(b: byte, rest: string)
    ensures Decoded(ToLower(HexEscape(b) + rest)) == [b] + Decoded(ToLower(rest))
  {
    var s := ToLower(HexEscape(b) + rest);
    assert s[3..] == ToLower(rest);
    HexRead(b / 16);
    HexRead(b % 16);
    assert s[0] == '%' && s[1] == Lower(HexDigit(b / 16)) && s[2] == Lower(HexDigit(b % 16));
  }

  lemma PlainRead(b: byte, rest: string)
    requires IsPlain(b) || b == DOT
    ensures Decoded(ToLower([b as char] + rest)) == [b] + Decoded(ToLower(rest))
  {
    var s := ToLower([b as char] + rest);
    assert s[1..] == ToLower(rest);
    assert s[0] == b as char && s[0] != '%';
  }

  /** Folding the case of an escaped name loses nothing. */
  lemma {:induction false} DecodeEscapes(c: bytes, i: nat)
    requires i <= |c|
    ensures Decoded(ToLower(EscapeFrom(c, i))) == c[i..]
    decreases |c| - i
  {
    if i == |c| {
      assert ToLower("") == "";
    } else {
      hide Decoded, HexEscape, IsPlain;
      DecodeEscapes(c, i + 1);
      var rest := EscapeFrom(c, i + 1);
      if Escape(c, i) == HexEscape(c[i]) { EscapeRead(c[i], rest); } else { PlainRead(c[i], rest); }
      assert c[i..] == [c[i]] + c[i + 1..];
    }
  }

  /** What escaped text looks like: the first character of each piece. */
  predicate IsNameChar(ch: char) {
    || 'a' <= ch <= 'z'
    || '0' <= ch <= '9'
    || 'A' <= ch <= 'F'
    || ch in {'_', '-', '.', '%'}
  }

  ghost predicate IsName(s: string) { forall k :: 0 <= k < |s| ==> IsNameChar(s[k]) }

  /** One piece of a name. */
  lemma EscapeLooks(c: bytes, i: nat)
    requires i < |c|
    ensures var e := Escape(c, i);
      && e != "" && IsName(e) && CapitalsEscaped(e) && e[0] != '~'
      && (i == 0 ==> e[0] != '.') && (i == |c| - 1 ==> e[|e| - 1] != '.')
  {
  }

  lemma {:induction false} EscapedLooks(c: bytes, i: nat)
    requires i <= |c|
    ensures IsName(EscapeFrom(c, i)) && CapitalsEscaped(EscapeFrom(c, i))
    ensures i < |c| ==> EscapeFrom(c, i) != "" && EscapeFrom(c, i)[|EscapeFrom(c, i)| - 1] != '.'
    ensures i == 0 && c != [] ==> EscapeFrom(c, 0)[0] !in {'.', '~'}
    decreases |c| - i
  {
    hide Escape, IsNameChar;
    if i < |c| {
      EscapedLooks(c, i + 1);
      EscapeLooks(c, i);
      var e, rest := Escape(c, i), EscapeFrom(c, i + 1);
      assert EscapeFrom(c, i) == e + rest;
      assert i == |c| - 1 ==> rest == "";
      CapitalsJoin(e, rest);
    }
  }

  lemma CapitalsJoin(a: string, b: string)
    requires CapitalsEscaped(a) && CapitalsEscaped(b)
    ensures CapitalsEscaped(a + b)
  {
    var s := a + b;
    forall k | 0 <= k < |s|
      ensures EscapedAt(s, k)
    {
      if k >= |a| {
        assert EscapedAt(b, k - |a|);
      } else {
        assert EscapedAt(a, k);
      }
    }
  }

  /** Capital letters occur only in escapes. */
  ghost predicate CapitalsEscaped(s: string) { forall k :: 0 <= k < |s| ==> EscapedAt(s, k) }

  predicate EscapedAt(s: string, k: nat)
    requires k < |s|
  {
    'A' <= s[k] <= 'Z' ==> k > 0 && (s[k - 1] == '%' || (k > 1 && s[k - 2] == '%'))
  }

  lemma {:induction false} StemOf(s: string)
    ensures Stem(s) <= s && Stem(ToLower(s)) == ToLower(Stem(s))
  {
    if s != "" && s[0] != '.' {
      StemOf(s[1..]);
      assert ToLower(s)[1..] == ToLower(s[1..]);
    } else {
      assert ToLower("") == "";
    }
  }

  /** Folding case makes no new device name. */
  lemma NotReserved(s: string)
    requires CapitalsEscaped(s) && !IsReserved(Stem(s))
    ensures !IsReserved(Stem(ToLower(s)))
  {
    StemOf(s);
    var stem := Stem(s);
    if '%' in stem {
      var k :| 0 <= k < |stem| && stem[k] == '%';
      assert ToLower(stem)[k] == '%';
      NoPercent(ToLower(stem));
    } else {
      forall k | 0 <= k < |stem| ensures Lower(stem[k]) == stem[k] {
        assert stem[k] == s[k] && EscapedAt(s, k);
        assert k > 0 ==> stem[k - 1] == s[k - 1] && stem[k - 1] in stem;
        assert k > 1 ==> stem[k - 2] == s[k - 2] && stem[k - 2] in stem;
      }
      assert ToLower(stem) == stem;
    }
  }

  lemma NoPercent(stem: string)
    requires '%' in stem
    ensures !IsReserved(stem)
  {
  }

  /** Device names are letters and digits. */
  lemma ReservedStem(s: string)
    requires IsReserved(Stem(s))
    ensures s != "" && s[0] in {'c', 'p', 'a', 'n', 'l'}
  {
    if s != "" && s[0] != '.' { assert Stem(s)[0] == s[0]; }
  }

  /** The short form read back after case folding is the original name. */
  lemma ShortRoundTrip(c: bytes)
    ensures Decoded(ToLower(Short(c))) == c
  {
    var out := EscapeFrom(c, 0);
    DecodeEscapes(c, 0);
    assert c[0..] == c;
    if out != "" && IsReserved(Stem(out)) {
      ReservedStem(out);
      var b: byte := out[0] as int;
      EscapeRead(b, out[1..]);
      PlainRead(b, out[1..]);
      assert out == [b as char] + out[1..];
    }
  }

  /** The names of devices. */
  ghost predicate NamesDevice(stem: string) {
    || stem in {"con", "prn", "aux", "nul"}
    || exists d :: d in "0123456789" && (stem == "com" + [d] || stem == "lpt" + [d])
  }

  lemma DeviceNames(stem: string)
    ensures IsReserved(stem) <==> NamesDevice(stem)
  {
    if |stem| == 4 {
      var d := stem[3];
      assert stem == stem[..3] + [d];
      assert '0' <= d <= '9' ==> "0123456789"[d as int - '0' as int] == d;
    }
  }

  /** A folded name: no separator, no leading or trailing dot, never a device name, not the
      long form's mark. */
  ghost predicate Portable(s: string) {
    && s != "" && '/' !in s && s[0] != '.' && s[|s| - 1] != '.' && !NamesDevice(Stem(s))
  }

  lemma ShortLooks(c: bytes)
    requires c != []
    ensures Portable(ToLower(Short(c))) && Portable(Short(c)) && Short(c)[0] != '~'
  {
    hide EscapeFrom, IsReserved;
    var out := EscapeFrom(c, 0);
    EscapedLooks(c, 0);
    DeviceNames(Stem(out));
    DeviceNames(Stem(ToLower(out)));
    if IsReserved(Stem(out)) {
      ReservedStem(out);
      TweakedLooks(out);
    } else {
      NotReserved(out);
      FoldedLooks(out);
    }
  }

  lemma FoldedLooks(s: string)
    requires IsName(s) && s != "" && s[0] != '.' && s[|s| - 1] != '.'
    ensures '/' !in s && '/' !in ToLower(s) && ToLower(s)[0] != '.' && ToLower(s)[|s| - 1] != '.'
  {
  }

  lemma TweakedLooks(out: string)
    requires IsName(out) && out != "" && out[|out| - 1] != '.' && 'a' <= out[0] <= 'z'
    ensures var s := HexEscape((out[0] as int) % 256) + out[1..];
      Portable(s) && Portable(ToLower(s)) && s[0] != '~'
  {
    hide IsReserved;
    var e := HexEscape((out[0] as int) % 256);
    var s := e + out[1..];
    assert forall k :: 3 <= k < |s| ==> s[k] == out[k - 2];
    assert IsName(s);
    FoldedLooks(s);
    EscapedStem(s);
    EscapedStem(ToLower(s));
    DeviceNames(Stem(s));
    DeviceNames(Stem(ToLower(s)));
  }

  lemma EscapedStem(s: string)
    requires s != "" && s[0] == '%'
    ensures !IsReserved(Stem(s))
  {
    assert Stem(s)[0] == '%';
    NoPercent(Stem(s));
  }

  // ---- names and paths ----

  /** SHA-256 as it is used here: injective, written in lower-case hexadecimal. */
  ghost predicate IsDigest(hash: bytes -> string) {
    && (forall a, b :: hash(a) == hash(b) ==> a == b)
    && (forall a :: |hash(a)| == 64)
    && (forall a, k :: 0 <= k < |hash(a)| ==> '0' <= hash(a)[k] <= '9' || 'a' <= hash(a)[k] <= 'f')
  }

  /** Lower-case letters, digits, `_`, `-` and inner dots stay as they are, up to 200 of them, unless
      they would name a device. */
  lemma PlainNames(hash: bytes -> string, c: bytes, name: string)
    requires |name| == |c| <= 200 && !NamesDevice(Stem(name))
    requires forall i :: 0 <= i < |c| ==>
      && c[i] as int == name[i] as int
      && (|| 'a' <= name[i] <= 'z' || '0' <= name[i] <= '9' || name[i] == '_' || name[i] == '-'
          || (name[i] == '.' && 0 < i < |c| - 1))
    ensures Encoded(hash, c) == name
  {
    hide Stem, IsReserved;
    PlainFrom(c, 0, name);
    DeviceNames(Stem(name));
  }

  lemma {:induction false} PlainFrom(c: bytes, i: nat, name: string)
    requires i <= |c| == |name|
    requires forall i :: 0 <= i < |c| ==>
      && c[i] as int == name[i] as int
      && (|| 'a' <= name[i] <= 'z' || '0' <= name[i] <= '9' || name[i] == '_' || name[i] == '-'
          || (name[i] == '.' && 0 < i < |c| - 1))
    ensures EscapeFrom(c, i) == name[i..]
    decreases |c| - i
  {
    if i < |c| {
      PlainFrom(c, i + 1, name);
      assert Escape(c, i) == [name[i]];
      assert name[i..] == [name[i]] + name[i + 1..];
    }
  }

  /** Every name is portable also after case folding, and different components get names that
      differ by more than case. */
  lemma NamesDiffer(hash: bytes -> string, a: bytes, b: bytes)
    requires IsDigest(hash) && a != [] && b != []
    ensures Portable(Encoded(hash, a)) && Portable(ToLower(Encoded(hash, a))) && |Encoded(hash, a)| <= 200
    ensures ToLower(Encoded(hash, a)) == ToLower(Encoded(hash, b)) ==> a == b
  {
    hide Short, Decoded, Stem, IsReserved;
    Folded(hash, a);
    Folded(hash, b);
  }

  /** A folded name tells its form by its first character, and gives its component back. */
  lemma Folded(hash: bytes -> string, a: bytes)
    requires IsDigest(hash) && a != []
    ensures var s := Encoded(hash, a); var t := ToLower(s);
      && Portable(s) && Portable(t)
      && (t[0] == '~' <==> |Short(a)| > 200)
      && (if t[0] == '~' then t[1..] == hash(a) else Decoded(t) == a)
  {
    hide EscapeFrom, Decoded, IsReserved;
    ShortLooks(a);
    ShortRoundTrip(a);
    LongForm(hash, a);
    assert ToLower(Short(a))[0] == Lower(Short(a)[0]) != '~';
  }

  lemma LongForm(hash: bytes -> string, a: bytes)
    requires IsDigest(hash)
    ensures ToLower("~" + hash(a)) == "~" + hash(a) && Portable("~" + hash(a)) && ("~" + hash(a))[1..] == hash(a)
  {
    var s := "~" + hash(a);
    assert forall k :: 0 < k < |s| ==> s[k] == hash(a)[k - 1];
    assert Stem(s)[0] == '~';
  }

  /** `split('/')`. */
  function Split(p: bytes): (r: seq<bytes>)
    ensures r != []
    ensures forall i :: 0 <= i < |r| ==> SLASH !in r[i]
  {
    if p == [] then [[]]
    else if p[0] == SLASH then [[]] + Split(p[1..])
    else
      var rest := Split(p[1..]);
      [[p[0]] + rest[0]] + rest[1..]
  }

  predicate Kept(c: bytes) { c != [] && c != [DOT] }

  /** The components that make a path: empty ones and `.` mean nothing. */
  function Components(cs: seq<bytes>): (r: seq<bytes>)
    ensures forall i :: 0 <= i < |r| ==> Kept(r[i])
  {
    if cs == [] then []
    else
      var n := |cs| - 1;
      Components(cs[..n]) + (if Kept(cs[n]) then [cs[n]] else [])
  }

  /** What a path is made of, piece by piece: what stands between slashes, but not nothing and not
      a single dot. */
  lemma {:induction false} Pieces(piece: bytes, rest: bytes)
    requires forall i :: 0 <= i < |piece| ==> piece[i] as int != 47
    ensures var own := if |piece| == 0 || (|piece| == 1 && piece[0] as int == 46) then [] else [piece];
      && Components(Split(piece)) == own
      && Components(Split(piece + [47] + rest)) == own + Components(Split(rest))
  {
    SplitAt(piece, rest);
    ComponentsJoin([piece], Split(rest));
    assert Components([piece]) == if Kept(piece) then [piece] else [] by { assert [piece][..0] == []; }
  }

  lemma {:induction false} SplitAt(piece: bytes, rest: bytes)
    requires forall i :: 0 <= i < |piece| ==> piece[i] as int != 47
    ensures Split(piece) == [piece] && Split(piece + [47] + rest) == [piece] + Split(rest)
  {
    var all := piece + [47] + rest;
    if piece == [] {
      assert all[0] == 47 && all[1..] == rest;
    } else {
      SplitAt(piece[1..], rest);
      assert all[1..] == piece[1..] + [47] + rest && all[0] == piece[0];
      assert piece == [piece[0]] + piece[1..];
    }
  }

  lemma {:induction false} ComponentsJoin(a: seq<bytes>, b: seq<bytes>)
    ensures Components(a + b) == Components(a) + Components(b)
  {
    if b == [] {
      assert a + b == a;
    } else {
      var n := |b| - 1;
      assert (a + b)[..|a| + n] == a + b[..n];
      ComponentsJoin(a, b[..n]);
    }
  }

  function EncodedAll(hash: bytes -> string, cs: seq<bytes>): seq<string> {
    seq(|cs|, i requires 0 <= i < |cs| => Encoded(hash, cs[i]))
  }

  /** `encoded_components`. */
  method EncodedComponents(hash: bytes -> string, remotePath: bytes) returns (out: seq<string>)
    ensures out == EncodedAll(hash, Components(Split(remotePath)))
  {
    hide Encoded;
    out := [];
    var cs := Split(remotePath);
    for i := 0 to |cs|
      invariant out == EncodedAll(hash, Components(cs[..i]))
    {
      assert cs[..i + 1][..i] == cs[..i];
      if Kept(cs[i]) {
        var name := EncodeComponent(hash, cs[i]);
        out := out + [name];
      }
    }
    assert cs[..|cs|] == cs;
  }

  /** The same local path, even where case is not told apart, means the same components. */
  lemma PathsDiffer(hash: bytes -> string, p: bytes, q: bytes)
    requires IsDigest(hash)
    ensures var a, b := EncodedAll(hash, Components(Split(p))), EncodedAll(hash, Components(Split(q)));
      (|a| == |b| && (forall i :: 0 <= i < |a| ==> ToLower(a[i]) == ToLower(b[i])))
      <==> Components(Split(p)) == Components(Split(q))
  {
    var cs, ds := Components(Split(p)), Components(Split(q));
    var a, b := EncodedAll(hash, cs), EncodedAll(hash, ds);
    if |a| == |b| && forall i :: 0 <= i < |a| ==> ToLower(a[i]) == ToLower(b[i]) {
      forall i | 0 <= i < |cs| ensures cs[i] == ds[i] {
        assert Kept(cs[i]) && Kept(ds[i]) && ToLower(a[i]) == ToLower(b[i]);
        NamesDiffer(hash, cs[i], ds[i]);
      }
    }
  }
}
