/** Characters and texts: white space, case, trimming. */
module Text {

  /** Unicode white space, as `trim` and `split_whitespace` take it. */
  predicate IsSpace(c: char) {
    || '\t' <= c <= '\r' || c == ' ' || c == '\U{85}' || c == '\U{A0}' || c == '\U{1680}'
    || '\U{2000}' <= c <= '\U{200A}' || c == '\U{2028}' || c == '\U{2029}' || c == '\U{202F}'
    || c == '\U{205F}' || c == '\U{3000}'
  }

  /** White space is what Unicode calls so, by code point. */
  lemma WhiteSpace(c: char)
    ensures var spaces := {0x9, 0xA, 0xB, 0xC, 0xD, 0x20, 0x85, 0xA0, 0x1680, 0x2000, 0x2001, 0x2002, 0x2003, 0x2004,
        0x2005, 0x2006, 0x2007, 0x2008, 0x2009, 0x200A, 0x2028, 0x2029, 0x202F, 0x205F, 0x3000};
      IsSpace(c) <==> c as int in spaces
  {
  }

  predicate HasSpace(s: string) { exists i :: 0 <= i < |s| && IsSpace(s[i]) }

  /** A text without white space, as one field of a line. */
  predicate IsWord(s: string) { s != "" && !HasSpace(s) }

  /** ASCII lower case. */
  function Lower(c: char): char { if 'A' <= c <= 'Z' then c - 'A' + 'a' else c }

  /** The capitals and their small letters, one by one; no other character has another. */
  lemma LowerCase(i: nat, c: char)
    ensures i < 26 ==> Lower("ABCDEFGHIJKLMNOPQRSTUVWXYZ"[i]) == "abcdefghijklmnopqrstuvwxyz"[i]
    ensures c !in "ABCDEFGHIJKLMNOPQRSTUVWXYZ" ==> Lower(c) == c
  {
    if 'A' <= c <= 'Z' {
      assert "ABCDEFGHIJKLMNOPQRSTUVWXYZ"[c as int - 'A' as int] == c;
    }
  }

  function ToLower(s: string): (r: string)
    ensures |r| == |s| && forall i :: 0 <= i < |s| ==> r[i] == Lower(s[i])
  {
    seq(|s|, i requires 0 <= i < |s| => Lower(s[i]))
  }

  function IsBlank(): char -> bool { c => IsSpace(c) }

  function TrimStart(s: string, p: char -> bool): string { if s != "" && p(s[0]) then TrimStart(s[1..], p) else s }

  function TrimEnd(s: string, p: char -> bool): string
    decreases |s|
  {
    if s != "" && p(s[|s| - 1]) then TrimEnd(s[..|s| - 1], p) else s
  }

  function Trim(s: string): string { TrimEnd(TrimStart(s, IsBlank()), IsBlank()) }

  /** All characters at the start that are to go, and no others, go. */
  lemma {:induction false} TrimStartAt(lead: string, rest: string, p: char -> bool)
    requires (forall i :: 0 <= i < |lead| ==> p(lead[i])) && (rest == "" || !p(rest[0]))
    ensures TrimStart(lead + rest, p) == rest
  {
    if lead == "" {
      assert lead + rest == rest;
    } else {
      assert (lead + rest)[1..] == lead[1..] + rest;
      TrimStartAt(lead[1..], rest, p);
    }
  }

  lemma {:induction false} TrimEndAt(rest: string, trail: string, p: char -> bool)
    requires (forall i :: 0 <= i < |trail| ==> p(trail[i])) && (rest == "" || !p(rest[|rest| - 1]))
    ensures TrimEnd(rest + trail, p) == rest
    decreases |trail|
  {
    var n := |trail| - 1;
    if trail == "" {
      assert rest + trail == rest;
    } else {
      assert (rest + trail)[..|rest| + n] == rest + trail[..n];
      TrimEndAt(rest, trail[..n], p);
    }
  }

  /** Trimming takes the white space off both ends and nothing else. */
  lemma TrimOf(lead: string, text: string, trail: string)
    requires forall i :: 0 <= i < |lead| ==> IsSpace(lead[i])
    requires forall i :: 0 <= i < |trail| ==> IsSpace(trail[i])
    requires text != "" ==> !IsSpace(text[0]) && !IsSpace(text[|text| - 1])
    ensures Trim(lead + text + trail) == text
  {
    if text == "" {
      assert lead + text + trail == (lead + trail) + "";
      assert forall i :: 0 <= i < |lead + trail| ==> IsBlank()((lead + trail)[i]);
      TrimStartAt(lead + trail, "", IsBlank());
    } else {
      assert lead + text + trail == lead + (text + trail) && (text + trail)[0] == text[0];
      TrimStartAt(lead, text + trail, IsBlank());
      TrimEndAt(text, trail, IsBlank());
    }
  }
}
