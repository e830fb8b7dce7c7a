/** The `*` / `?` matcher of the known-hosts file: a greedy loop that remembers only the
    last `*`, against what a pattern means. */
module Glob {
  import opened Common

  /** What a pattern means: `*` stands for any text, `?` for any one character. */
  ghost predicate Matches(p: string, t: string)
    decreases |p|, |t|
  {
    if p == "" then t == ""
    else if p[0] == '*' then Matches(p[1..], t) || (t != "" && Matches(p, t[1..]))
    else t != "" && One(p[0], t[0]) && Matches(p[1..], t[1..])
  }

  /** A pattern character other than `*` against one character. */
  predicate One(pc: char, c: char) { pc == '?' || pc == c }

  predicate AllStars(p: string) { forall i :: 0 <= i < |p| ==> p[i] == '*' }

  // ---- facts about the meaning ----

  /** A leading `*` absorbs any prefix. */
  lemma {:induction false} StarAbsorbs(p: string, t: string)
    requires p != "" && p[0] == '*'
    ensures Matches(p, t) <==> exists k :: 0 <= k <= |t| && Matches(p[1..], t[k..])
    decreases |t|
  {
    if Matches(p[1..], t) {
      assert t[0..] == t;
    }
    if t != "" {
      StarAbsorbs(p, t[1..]);
      if Matches(p, t[1..]) {
        var k :| 0 <= k <= |t[1..]| && Matches(p[1..], t[1..][k..]);
        assert t[1..][k..] == t[k + 1..];
      }
      if k :| 0 <= k <= |t| && Matches(p[1..], t[k..]) && k > 0 {
        assert t[1..][k - 1..] == t[k..];
      }
    }
  }

  /** Nothing but stars matches the empty text. */
  lemma {:induction false} MatchesEmpty(p: string)
    ensures Matches(p, "") <==> AllStars(p)
  {
    if p != "" {
      MatchesEmpty(p[1..]);
      assert AllStars(p) <==> p[0] == '*' && AllStars(p[1..]) by {
        assert forall i :: 1 <= i < |p| ==> p[i] == p[1..][i - 1];
      }
    }
  }

  /** The literal part of a pattern (no star) against an equally long text. */
  ghost predicate Fits(lit: string, t: string) {
    |lit| == |t| && forall i :: 0 <= i < |lit| ==> lit[i] != '*' && One(lit[i], t[i])
  }

  /** A literal part that fits may be cut off both sides. */
  lemma {:induction false} CutFitting(lit: string, rest: string, t: string, u: string)
    requires Fits(lit, t)
    ensures Matches(lit + rest, t + u) <==> Matches(rest, u)
  {
    if lit == "" {
      assert lit + rest == rest && t + u == u;
    } else {
      CutFitting(lit[1..], rest, t[1..], u);
      assert (lit + rest)[1..] == lit[1..] + rest && (t + u)[1..] == t[1..] + u;
      assert (lit + rest)[0] == lit[0] && (t + u)[0] == t[0];
    }
  }

  /** A match of a literal part followed by more takes exactly its length. */
  lemma {:induction false} LiteralTakesItsLength(lit: string, rest: string, t: string)
    requires forall i :: 0 <= i < |lit| ==> lit[i] != '*'
    requires Matches(lit + rest, t)
    ensures |lit| <= |t| && Fits(lit, t[..|lit|]) && Matches(rest, t[|lit|..])
  {
    if lit == "" {
      assert lit + rest == rest && t[0..] == t;
    } else {
      assert (lit + rest)[1..] == lit[1..] + rest && (lit + rest)[0] == lit[0];
      LiteralTakesItsLength(lit[1..], rest, t[1..]);
      assert t[1..][..|lit| - 1] == t[..|lit|][1..];
      assert t[1..][|lit| - 1..] == t[|lit|..];
      forall i | 0 <= i < |lit|
        ensures One(lit[i], t[..|lit|][i])
      {
        assert i > 0 ==> One(lit[1..][i - 1], t[1..][..|lit| - 1][i - 1]);
      }
    }
  }

  // ---- the loop ----

  /** The position of the last `*` seen and of the text it has absorbed up to. */
  datatype Star = NoStar | At(sp: nat, st: nat)

  function StarRank(star: Star, n: nat): nat {
    if star.NoStar? || star.st > n then n + 1 else n - star.st
  }

  /** The loop of `glob_match`, from the middle of a run on. */
  function Scan(p: string, t: string, pi: nat, ti: nat, star: Star): bool
    requires pi <= |p| && ti <= |t|
    requires star.At? ==> star.sp < pi && star.st <= ti
    decreases StarRank(star, |t|), |t| - ti, |p| - pi
  {
    if ti == |t| then AllStars(p[pi..])
    else if pi < |p| && One(p[pi], t[ti]) then Scan(p, t, pi + 1, ti + 1, star)
    else if pi < |p| && p[pi] == '*' then Scan(p, t, pi + 1, ti, At(pi, ti))
    else if star.At? then Scan(p, t, star.sp + 1, star.st + 1, At(star.sp, star.st + 1))
    else false
  }

  method GlobMatch(p: string, t: string) returns (r: bool)
    ensures r == Scan(p, t, 0, 0, NoStar)
    ensures '*' !in t || '*' !in p ==> (r <==> Matches(p, t))
  {
    var pi, ti := 0, 0;
    var star := NoStar;
    while ti < |t|
      invariant 0 <= pi <= |p| && 0 <= ti <= |t|
      invariant star.At? ==> star.sp < pi && star.st <= ti
      invariant Scan(p, t, pi, ti, star) == Scan(p, t, 0, 0, NoStar)
      decreases StarRank(star, |t|), |t| - ti, |p| - pi
    {
      if pi < |p| && (p[pi] == '?' || p[pi] == t[ti]) {
        pi, ti := pi + 1, ti + 1;
      } else if pi < |p| && p[pi] == '*' {
        star := At(pi, ti);
        pi := pi + 1;
      } else if star.At? {
        pi, ti := star.sp + 1, star.st + 1;
        star := At(star.sp, star.st + 1);
      } else {
        if '*' !in t || '*' !in p { ScanIsMatching(p, t); }
        return false;
      }
    }
    ghost var end := pi;
    while pi < |p| && p[pi] == '*'
      invariant 0 <= end <= pi <= |p|
      invariant forall i :: end <= i < pi ==> p[i] == '*'
    {
      pi := pi + 1;
    }
    r := pi == |p|;
    assert AllStars(p[end..]) <==> r by {
      if !r { assert p[end..][pi - end] != '*'; }
    }
    if '*' !in t || '*' !in p { ScanIsMatching(p, t); }
  }

  // ---- the loop is right unless a `*` of the pattern can meet a `*` of the text ----

  /** What is known in the middle of the loop: since the last star, pattern and text have
      been walked side by side. */
  ghost predicate Walking(p: string, t: string, pi: nat, ti: nat, star: Star) {
    && pi <= |p| && ti <= |t|
    && (star.At? ==> star.sp < pi && star.st <= ti && p[star.sp] == '*' && Fits(p[star.sp + 1..pi], t[star.st..ti]))
  }

  /** What is left to decide. */
  ghost predicate Left(p: string, t: string, pi: nat, ti: nat, star: Star)
    requires Walking(p, t, pi, ti, star)
  {
    if star.NoStar? then Matches(p[pi..], t[ti..]) else Matches(p[star.sp..], t[star.st..])
  }

  lemma {:induction false} ScanDecides(p: string, t: string, pi: nat, ti: nat, star: Star)
    requires ('*' !in t || '*' !in p) && Walking(p, t, pi, ti, star)
    ensures Scan(p, t, pi, ti, star) <==> Left(p, t, pi, ti, star)
    decreases StarRank(star, |t|), |t| - ti, |p| - pi
  {
    if ti == |t| {
      AtTheEnd(p, t, pi, star);
    } else if pi < |p| && One(p[pi], t[ti]) {
      OneMore(p, t, pi, ti, star);
      ScanDecides(p, t, pi + 1, ti + 1, star);
    } else if pi < |p| && p[pi] == '*' {
      NewStar(p, t, pi, ti, star);
      ScanDecides(p, t, pi + 1, ti, At(pi, ti));
    } else if star.At? {
      MoveStar(p, t, pi, ti, star);
      ScanDecides(p, t, star.sp + 1, star.st + 1, At(star.sp, star.st + 1));
    }
  }

  /** Walking on over one fitting character. */
  lemma {:induction false} OneMore(p: string, t: string, pi: nat, ti: nat, star: Star)
    requires Walking(p, t, pi, ti, star) && pi < |p| && ti < |t| && One(p[pi], t[ti]) && p[pi] != '*'
    ensures Walking(p, t, pi + 1, ti + 1, star)
    ensures Left(p, t, pi + 1, ti + 1, star) <==> Left(p, t, pi, ti, star)
  {
    if star.At? {
      assert p[star.sp + 1..pi + 1] == p[star.sp + 1..pi] + [p[pi]];
      assert t[star.st..ti + 1] == t[star.st..ti] + [t[ti]];
    } else {
      assert p[pi..][1..] == p[pi + 1..] && t[ti..][1..] == t[ti + 1..];
    }
  }

  lemma {:induction false} AtTheEnd(p: string, t: string, pi: nat, star: Star)
    requires Walking(p, t, pi, |t|, star)
    ensures AllStars(p[pi..]) <==> Left(p, t, pi, |t|, star)
  {
    MatchesEmpty(p[pi..]);
    assert t[|t|..] == "";
    if star.At? {
      var lit, rest, tail := p[star.sp + 1..pi], p[pi..], t[star.st..];
      assert p[star.sp..][1..] == lit + rest;
      StarAbsorbs(p[star.sp..], tail);
      if AllStars(rest) {
        CutFitting(lit, rest, tail, "");
        assert tail + "" == tail && tail[0..] == tail;
      }
      if k :| 0 <= k <= |tail| && Matches(lit + rest, tail[k..]) {
        LiteralTakesItsLength(lit, rest, tail[k..]);
        assert tail[k..][|lit|..] == "";
      }
    }
  }

  /** A later star makes the earlier one superfluous: what the earlier one could still
      absorb, the later one can. */
  lemma {:induction false} NewStar(p: string, t: string, pi: nat, ti: nat, star: Star)
    requires Walking(p, t, pi, ti, star) && pi < |p| && p[pi] == '*'
    ensures Left(p, t, pi, ti, star) <==> Matches(p[pi..], t[ti..])
  {
    if star.At? {
      var lit, rest, tail := p[star.sp + 1..pi], p[pi..], t[star.st..];
      assert p[star.sp..][1..] == lit + rest;
      StarAbsorbs(p[star.sp..], tail);
      assert tail == t[star.st..ti] + t[ti..];
      CutFitting(lit, rest, t[star.st..ti], t[ti..]);
      assert tail[0..] == tail;
      if k :| 0 <= k <= |tail| && Matches(lit + rest, tail[k..]) {
        LiteralTakesItsLength(lit, rest, tail[k..]);
        var u := t[ti..];
        assert tail[k..][|lit|..] == u[k..];
        StarAbsorbs(rest, u[k..]);
        var j :| 0 <= j <= |u[k..]| && Matches(rest[1..], u[k..][j..]);
        assert u[k..][j..] == u[k + j..];
        StarAbsorbs(rest, u);
      }
    }
  }

  /** Where the walk fails, the star has to absorb one more character. */
  lemma {:induction false} MoveStar(p: string, t: string, pi: nat, ti: nat, star: Star)
    requires Walking(p, t, pi, ti, star) && star.At? && ti < |t|
    requires pi < |p| ==> !One(p[pi], t[ti]) && p[pi] != '*'
    ensures Left(p, t, pi, ti, star) <==> Matches(p[star.sp..], t[star.st + 1..])
  {
    var lit, rest, tail := p[star.sp + 1..pi], p[pi..], t[star.st..];
    assert p[star.sp..][1..] == lit + rest;
    assert tail == t[star.st..ti] + t[ti..];
    CutFitting(lit, rest, t[star.st..ti], t[ti..]);
    assert tail[1..] == t[star.st + 1..];
  }

  lemma {:induction false} ScanIsMatching(p: string, t: string)
    requires '*' !in t || '*' !in p
    ensures Scan(p, t, 0, 0, NoStar) <==> Matches(p, t)
  {
    ScanDecides(p, t, 0, 0, NoStar);
    assert p[0..] == p && t[0..] == t;
  }

  // ---- and on no others: a literal `*` is consumed without being remembered ----

  /** A text matches itself, also where its characters read as wildcards. */
  lemma {:induction false} SelfMatch(u: string, r: string, s: string)
    requires Matches(r, s)
    ensures Matches(u + r, u + s)
  {
    if u == "" {
      assert u + r == r && u + s == s;
    } else {
      SelfMatch(u[1..], r, s);
      var p, t := u + r, u + s;
      assert p[1..] == u[1..] + r && t[1..] == u[1..] + s && p[0] == t[0];
      assert p[0] == '*' ==> Matches(p, t[1..]);
    }
  }

  lemma {:induction false} ScanWalks(p: string, t: string, n: nat, i: nat)
    requires i <= n <= |p| && n <= |t| && forall j :: 0 <= j < n ==> p[j] == t[j]
    ensures Scan(p, t, i, i, NoStar) == Scan(p, t, n, n, NoStar)
    decreases n - i
  {
    if i < n {
      ScanWalks(p, t, n, i + 1);
    }
  }

  lemma {:induction false} ScanLiteral(p: string, t: string, pi: nat, ti: nat)
    requires pi <= |p| && ti <= |t| && forall j :: pi <= j < |p| ==> p[j] != '*'
    requires Scan(p, t, pi, ti, NoStar)
    ensures |p| - pi == |t| - ti
    decreases |p| - pi
  {
    if ti < |t| {
      ScanLiteral(p, t, pi + 1, ti + 1);
    }
  }

  lemma LastStar(s: string) returns (u: string, v: string)
    requires '*' in s
    ensures s == u + "*" + v && '*' !in v
    decreases |s|
  {
    var n := |s| - 1;
    if s[n] == '*' {
      u, v := s[..n], "";
    } else {
      assert s == s[..n] + [s[n]];
      u, v := LastStar(s[..n]);
      v := v + [s[n]];
    }
  }

  /** `glob_match` is right about a text for every pattern exactly when the text has no
      `*` (for instance, `*?` matches `*`, but the loop says no). */
  lemma {:induction false} RightTexts(t: string)
    ensures (forall p :: Scan(p, t, 0, 0, NoStar) <==> Matches(p, t)) <==> '*' !in t
  {
    if '*' in t {
      var u, v := LastStar(t);
      var p := u + ("*?" + v);
      MissedMatch(p, t, u, v);
    } else {
      forall p
        ensures Scan(p, t, 0, 0, NoStar) <==> Matches(p, t)
      {
        ScanIsMatching(p, t);
      }
    }
  }

  lemma {:induction false} MissedMatch(p: string, t: string, u: string, v: string)
    requires t == u + "*" + v && p == u + ("*?" + v) && '*' !in v
    ensures Matches(p, t) && !Scan(p, t, 0, 0, NoStar)
  {
    assert Matches("", "");
    SelfMatch(v, "", "");
    assert v + "" == v;
    var r, s := "*?" + v, "*" + v;
    assert r[1..][1..] == v && s[1..] == v;
    assert Matches(r[1..], s);
    SelfMatch(u, r, s);
    assert t == u + s;
    ScanWalks(p, t, |u| + 1, 0);
    if Scan(p, t, 0, 0, NoStar) {
      ScanLiteral(p, t, |u| + 1, |u| + 1);
    }
  }

  /** It is right about a pattern for every text exactly when the pattern has no `*`. */
  lemma {:induction false} RightPatterns(p: string)
    ensures (forall t :: Scan(p, t, 0, 0, NoStar) <==> Matches(p, t)) <==> '*' !in p
  {
    if '*' in p {
      var u, v := LastStar(p);
      var t := u + ("*x" + v);
      assert Matches("", "");
      SelfMatch(v, "", "");
      assert v + "" == v;
      var r, s := "*" + v, "*x" + v;
      assert r[1..] == v && s[1..][1..] == v;
      assert Matches(r, s[1..][1..]) && Matches(r, s[1..]) && Matches(r, s);
      SelfMatch(u, r, s);
      assert p == u + r;
      ScanWalks(p, t, |u| + 1, 0);
      if Scan(p, t, 0, 0, NoStar) {
        ScanLiteral(p, t, |u| + 1, |u| + 1);
      }
      assert !(Scan(p, t, 0, 0, NoStar) <==> Matches(p, t));
    } else {
      forall t
        ensures Scan(p, t, 0, 0, NoStar) <==> Matches(p, t)
      {
        ScanIsMatching(p, t);
      }
    }
  }
}
