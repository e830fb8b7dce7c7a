/** What the prompt hook reports through terminal output: the parser, fed in any chunks, and
    the hook's own sequences. */
module ShellEvents {
  import opened Common

  const ESC: byte := 0x1b
  const BEL: byte := 0x07
  const BACKSLASH: byte := 0x5c
  const BRACKET: byte := 0x5d
  const MAX_OSC_PAYLOAD: nat := 64 * 1024

  /** "6973;", the number of the private sequences. */
  const OSC_PREFIX: bytes := [54, 57, 55, 51, 59]

  datatype ShellEvent = Command(line: string) | Cwd(path: string) | Prompt(status: int)

  /** Text encodings: lossy decoding, encoding, and reading an exit status. */
  datatype Encoding = Encoding(decode: bytes -> string, encode: string -> bytes, number: string -> int)

  /** UTF-8: what was encoded is decoded, and bytes below 128 are the characters themselves. */
  ghost predicate IsUtf8(e: Encoding) {
    && (forall s :: e.decode(e.encode(s)) == s)
    && (forall s, b :: b in e.encode(s) && b < 128 ==> b as char in s)
  }

  // ---- the automaton, byte by byte ----

  datatype State = InText | InEscape | InOsc | InOscEscape

  datatype Parser = Parser(state: State, payload: bytes, overflow: bool)

  function AfterEscape(p: Parser, b: byte): Parser {
    if b == BRACKET then Parser(InOsc, [], false) else if b == ESC then p.(state := InEscape) else p.(state := InText)
  }

  /** `split_once(';')`, the second part empty without one. */
  function Cut(text: string): (string, string) {
    if text == "" then ("", "")
    else if text[0] == ';' then ("", text[1..])
    else ([text[0]] + Cut(text[1..]).0, Cut(text[1..]).1)
  }

  function Unescape(v: string): string {
    if v == "" then ""
    else if v[0] != '\\' then [v[0]] + Unescape(v[1..])
    else if |v| == 1 then "\\"
    else [if v[1] == 'n' then '\n' else v[1]] + Unescape(v[2..])
  }

  /** What a finished sequence reports. */
  function Finished(e: Encoding, p: Parser): seq<ShellEvent> {
    if p.overflow || !(OSC_PREFIX <= p.payload) then []
    else
      var (kind, value) := Cut(e.decode(p.payload[|OSC_PREFIX|..]));
      if kind == "cmd" then [Command(Unescape(value))]
      else if kind == "cwd" then [Cwd(value)]
      else if kind == "done" then [Prompt(e.number(value))]
      else []
  }

  function Step(e: Encoding, p: Parser, b: byte): (Parser, seq<ShellEvent>) {
    match p.state
    case InText => (if b == ESC then p.(state := InEscape) else p, [])
    case InEscape => (AfterEscape(p, b), [])
    case InOsc =>
      if b == BEL then (p.(state := InText), Finished(e, p))
      else if b == ESC then (p.(state := InOscEscape), [])
      else if |p.payload| < MAX_OSC_PAYLOAD then (p.(payload := p.payload + [b]), [])
      else (p.(overflow := true), [])
    case InOscEscape =>
      if b == BACKSLASH then (p.(state := InText), Finished(e, p)) else (AfterEscape(p, b), [])
  }

  /** A whole output, one byte at a time. */
  function Parsed(e: Encoding, p: Parser, data: bytes): (Parser, seq<ShellEvent>)
    decreases |data|
  {
    if data == [] then (p, [])
    else
      var (q, first) := Step(e, p, data[0]);
      var (r, rest) := Parsed(e, q, data[1..]);
      (r, first + rest)
  }

  /** Where output is split into chunks does not matter. */
  lemma {:induction false} Chunks(e: Encoding, p: Parser, a: bytes, b: bytes)
    ensures var (q, first) := Parsed(e, p, a); var (r, rest) := Parsed(e, q, b);
      Parsed(e, p, a + b) == (r, first + rest)
    decreases |a|
  {
    if a == [] {
      assert a + b == b;
      assert [] + Parsed(e, p, b).1 == Parsed(e, p, b).1;
    } else {
      var (q, first) := Step(e, p, a[0]);
      Chunks(e, q, a[1..], b);
      assert (a + b)[0] == a[0] && (a + b)[1..] == a[1..] + b;
      var (m, mid) := Parsed(e, q, a[1..]);
      var rest := Parsed(e, m, b).1;
      assert first + (mid + rest) == (first + mid) + rest;
    }
  }

  /** Outside sequences nothing happens up to the next escape. */
  lemma {:induction false} SkipText(e: Encoding, p: Parser, data: bytes)
    requires p.state.InText? && ESC !in data
    ensures Parsed(e, p, data) == (p, [])
  {
    if data != [] {
      assert data[0] in data && forall b :: b in data[1..] ==> b in data;
      SkipText(e, p, data[1..]);
      var none: seq<ShellEvent> := [];
      assert Step(e, p, data[0]) == (p, none) && none + none == none;
    }
  }

  class ShellEventParser {
    const encoding: Encoding
    var state: State
    var payload: bytes
    var overflow: bool

    function Now(): Parser reads this { Parser(state, payload, overflow) }

    constructor (encoding: Encoding)
      ensures this.encoding == encoding && Now() == Parser(InText, [], false)
    {
      this.encoding, state, payload, overflow := encoding, InText, [], false;
    }

    /** Feeds a chunk; in plain text it jumps to the next escape. */
    method Feed(data: bytes) returns (events: seq<ShellEvent>)
      modifies this
      ensures (Now(), events) == Parsed(encoding, old(Now()), data)
    {
      hide Finished;
      events := [];
      var i := 0;
      assert data[..0] == [];
      while i < |data|
        invariant i <= |data| && (Now(), events) == Parsed(encoding, old(Now()), data[..i])
        decreases |data| - i
      {
        ghost var start, was := i, Now();
        var b := data[i];
        i := i + 1;
        var more := [];
        match state {
          case InText =>
            if b == ESC { state := InEscape; } else {
              i := NextEscape(data, i);
              assert data[start..i] == [b] + data[start + 1..i];
            }
          case InEscape => SetAfterEscape(b);
          case InOsc =>
            if b == BEL {
              more := Finish();
              state := InText;
            } else if b == ESC {
              state := InOscEscape;
            } else if |payload| < MAX_OSC_PAYLOAD {
              payload := payload + [b];
            } else {
              overflow := true;
            }
          case InOscEscape =>
            if b == BACKSLASH {
              more := Finish();
              state := InText;
            } else {
              SetAfterEscape(b);
            }
        }
        events := events + more;
        Advanced(encoding, was, data, start, i, Now(), more);
        Chunks(encoding, old(Now()), data[..start], data[start..i]);
        assert data[..i] == data[..start] + data[start..i];
      }
      assert data[..i] == data;
    }

    method Finish() returns (events: seq<ShellEvent>)
      ensures events == Finished(encoding, Now())
    {
      events := [];
      if overflow { return; }
      if !(OSC_PREFIX <= payload) { return; }
      var (kind, value) := Cut(encoding.decode(payload[|OSC_PREFIX|..]));
      if kind == "cmd" { events := [Command(Unescape(value))]; }
      else if kind == "cwd" { events := [Cwd(value)]; }
      else if kind == "done" { events := [Prompt(encoding.number(value))]; }
    }

    method SetAfterEscape(b: byte)
      modifies this
      ensures Now() == AfterEscape(old(Now()), b)
    {
      if b == BRACKET {
        payload, overflow, state := [], false, InOsc;
      } else if b == ESC {
        state := InEscape;
      } else {
        state := InText;
      }
    }
  }

  /** The next escape at or after a position, or the end. */
  method NextEscape(data: bytes, from: nat) returns (i: nat)
    requires from <= |data|
    ensures from <= i <= |data| && ESC !in data[from..i] && (i < |data| ==> data[i] == ESC)
  {
    i := from;
    while i < |data| && data[i] != ESC
      invariant from <= i <= |data| && ESC !in data[from..i]
    {
      i := i + 1;
      assert data[from..i] == data[from..i - 1] + [data[i - 1]];
    }
  }

  /** One turn of the loop is one step, or a jump over text. */
  lemma Advanced(e: Encoding, p: Parser, data: bytes, start: nat, i: nat, q: Parser, more: seq<ShellEvent>)
    requires start < i <= |data|
    requires if p.state.InText? && data[start] != ESC then q == p && more == [] && ESC !in data[start..i]
             else i == start + 1 && (q, more) == Step(e, p, data[start])
    ensures Parsed(e, p, data[start..i]) == (q, more)
  {
    hide Finished;
    var part := data[start..i];
    assert part[0] == data[start] && part[1..] == data[start + 1..i];
    if p.state.InText? && data[start] != ESC {
      SkipText(e, p, part);
    } else {
      assert part[1..] == [];
      assert more + [] == more;
    }
  }

  // ---- what the hook writes ----

  /** The hook's escaping: backslashes doubled, line breaks as `\n`, BEL and ESC dropped. */
  function Escaped(line: string): string {
    if line == "" then ""
    else
      (if line[0] == '\\' then "\\\\" else if line[0] == '\n' then "\\n" else if IsMark(line[0]) then "" else [line[0]])
      + Escaped(line[1..])
  }

  predicate IsMark(c: char) { c as int == BEL as int || c as int == ESC as int }

  function Unmarked(line: string): string {
    if line == "" then "" else (if IsMark(line[0]) then "" else [line[0]]) + Unmarked(line[1..])
  }

  /** A command line comes back as it was, but for the marks. */
  lemma {:induction false} EscapeRoundTrip(line: string)
    ensures Unescape(Escaped(line)) == Unmarked(line)
  {
    if line != "" {
      EscapeRoundTrip(line[1..]);
      var rest := Escaped(line[1..]);
      if line[0] == '\\' {
        assert ("\\\\" + rest)[2..] == rest;
      } else if line[0] == '\n' {
        assert ("\\n" + rest)[2..] == rest;
      } else if IsMark(line[0]) {
        assert "" + rest == rest && "" + Unmarked(line[1..]) == Unmarked(line[1..]);
      } else {
        assert ([line[0]] + rest)[1..] == rest;
      }
    }
  }

  lemma {:induction false} NoMarks(line: string)
    ensures forall c :: c in Escaped(line) || c in Unmarked(line) ==> !IsMark(c)
    ensures (forall c :: c in line ==> !IsMark(c)) ==> Unmarked(line) == line
  {
    if line != "" {
      NoMarks(line[1..]);
      assert line == [line[0]] + line[1..];
    }
  }

  /** The two ways to end a sequence. */
  datatype Ending = ByBell | ByEscape

  function EndingBytes(end: Ending): bytes { if end.ByBell? then [0x07] else [0x1b, 0x5c] }

  /** A sequence with the hook's number: ESC ] 6973 ; text, and BEL or ESC \. */
  function Sequence(e: Encoding, text: string, end: Ending): bytes {
    [0x1b, 0x5d] + ([0x36, 0x39, 0x37, 0x33, 0x3b] + e.encode(text) + EndingBytes(end))
  }

  /** Inside a sequence bytes are collected up to the limit. */
  lemma {:induction false} Collect(e: Encoding, p: Parser, data: bytes)
    requires p.state.InOsc? && BEL !in data && ESC !in data && |p.payload| <= MAX_OSC_PAYLOAD
    ensures var (q, events) := Parsed(e, p, data);
      && events == [] && q.state.InOsc? && q.overflow == (p.overflow || |p.payload| + |data| > MAX_OSC_PAYLOAD)
      && (|p.payload| + |data| <= MAX_OSC_PAYLOAD ==> q.payload == p.payload + data)
    decreases |data|
  {
    hide Finished;
    if data == [] {
      assert p.payload + data == p.payload;
    } else {
      assert data[0] in data && forall b :: b in data[1..] ==> b in data;
      var q := Step(e, p, data[0]).0;
      Collect(e, q, data[1..]);
      assert [data[0]] + data[1..] == data;
      assert (p.payload + [data[0]]) + data[1..] == p.payload + data;
    }
  }

  /** From any state of the parser a sequence reports its text when it fits, else nothing. */
  lemma SequenceReported(e: Encoding, p: Parser, text: string, end: Ending)
    requires IsUtf8(e) && forall c :: c in text ==> !IsMark(c)
    ensures var (q, events) := Parsed(e, p, Sequence(e, text, end));
      && q.state.InText?
      && events == if 5 + |e.encode(text)| <= 65_536
           then Finished(e, Parser(InOsc, OSC_PREFIX + e.encode(text), false)) else []
  {
    var body := OSC_PREFIX + e.encode(text);
    forall b | b in body ensures b != BEL && b != ESC {
      if b in e.encode(text) && b < 128 { assert b as char in text; }
    }
    Opening(e, p);
    var q := Parser(InOsc, [], false);
    Collect(e, q, body);
    assert [] + body == body;
    var (r, none) := Parsed(e, q, body);
    Closing(e, r, end);
    Chunks(e, q, body, EndingBytes(end));
    Chunks(e, p, [ESC, BRACKET], body + EndingBytes(end));
    if r.overflow { assert Finished(e, r) == []; }
  }

  lemma OneByte(e: Encoding, p: Parser, b: byte)
    ensures Parsed(e, p, [b]) == Step(e, p, b)
  {
    hide Finished;
    assert [b][1..] == [];
    assert Step(e, p, b).1 + [] == Step(e, p, b).1;
  }

  lemma Opening(e: Encoding, p: Parser)
    ensures Parsed(e, p, [ESC, BRACKET]) == (Parser(InOsc, [], false), [])
  {
    hide Parsed, Finished;
    var q := Step(e, p, ESC).0;
    OneByte(e, p, ESC);
    OneByte(e, q, BRACKET);
    Chunks(e, p, [ESC], [BRACKET]);
    var none: seq<ShellEvent> := [];
    assert none + none == none && [ESC] + [BRACKET] == [ESC, BRACKET];
  }

  lemma Closing(e: Encoding, p: Parser, end: Ending)
    requires p.state.InOsc?
    ensures Parsed(e, p, EndingBytes(end)) == (p.(state := InText), Finished(e, p))
  {
    hide Parsed, Finished;
    if end.ByBell? {
      OneByte(e, p, BEL);
    } else {
      var q := Step(e, p, ESC).0;
      OneByte(e, p, ESC);
      OneByte(e, q, BACKSLASH);
      Chunks(e, p, [ESC], [BACKSLASH]);
      assert [ESC] + [BACKSLASH] == [ESC, BACKSLASH];
      EscapeKeeps(e, p, q);
      assert [] + Finished(e, p) == Finished(e, p);
    }
  }

  lemma EscapeKeeps(e: Encoding, p: Parser, q: Parser)
    requires q == p.(state := InOscEscape)
    ensures Finished(e, q) == Finished(e, p)
  {
  }

  lemma {:induction false} CutAt(kind: string, value: string)
    requires ';' !in kind
    ensures Cut(kind + ";" + value) == (kind, value)
  {
    if kind == "" {
      assert (kind + ";" + value)[1..] == value;
    } else {
      assert (kind + ";" + value)[1..] == kind[1..] + ";" + value;
      CutAt(kind[1..], value);
      assert kind == [kind[0]] + kind[1..];
    }
  }

  /** The hook's report at a prompt: the command line, if one was run, then the folder and the
      exit status. */
  function HookOutput(e: Encoding, line: Option<string>, path: string, status: string, end: Ending): bytes {
    (if line.Some? then Sequence(e, "cmd;" + Escaped(line.value), end) else [])
    + Sequence(e, "cwd;" + Unmarked(path), end) + Sequence(e, "done;" + status, end)
  }

  predicate Fits(e: Encoding, text: string) { 5 + |e.encode(text)| <= 65_536 }

  /** One sequence of the hook; other kinds report nothing. */
  lemma KindReported(e: Encoding, p: Parser, kind: string, value: string, end: Ending)
    requires IsUtf8(e) && ';' !in kind && forall c :: c in kind || c in value ==> !IsMark(c)
    ensures var (q, events) := Parsed(e, p, Sequence(e, kind + ";" + value, end));
      && q.state.InText?
      && events == if !Fits(e, kind + ";" + value) then []
                   else if kind == "cmd" then [Command(Unescape(value))]
                   else if kind == "cwd" then [Cwd(value)]
                   else if kind == "done" then [Prompt(e.number(value))]
                   else []
  {
    var text := kind + ";" + value;
    forall c | c in text ensures !IsMark(c) {
      assert c in kind || c == ';' || c in value;
    }
    SequenceReported(e, p, text, end);
    CutAt(kind, value);
    var payload := OSC_PREFIX + e.encode(text);
    assert payload[|OSC_PREFIX|..] == e.encode(text);
  }

  /** Whatever came before, the parser reports the prompt's command line, folder and status, in
      order: exactly those that fit the limit. */
  lemma PromptReported(e: Encoding, p: Parser, line: Option<string>, path: string, status: string, end: Ending)
    requires IsUtf8(e) && forall c :: c in status ==> !IsMark(c)
    ensures var (q, events) := Parsed(e, p, HookOutput(e, line, path, status, end));
      && q.state.InText?
      && events
         == (if line.Some? && Fits(e, "cmd;" + Escaped(line.value)) then [Command(Unmarked(line.value))] else [])
         + (if Fits(e, "cwd;" + Unmarked(path)) then [Cwd(Unmarked(path))] else [])
         + (if Fits(e, "done;" + status) then [Prompt(e.number(status))] else [])
  {
    hide Parsed, Fits, Finished, Sequence, Escaped, Unmarked, Unescape;
    NoMarks(path);
    var a, b, c := if line.Some? then Sequence(e, "cmd;" + Escaped(line.value), end) else [],
      Sequence(e, "cwd;" + Unmarked(path), end), Sequence(e, "done;" + status, end);
    if line.Some? {
      NoMarks(line.value);
      EscapeRoundTrip(line.value);
      assert "cmd" + ";" + Escaped(line.value) == "cmd;" + Escaped(line.value);
      KindReported(e, p, "cmd", Escaped(line.value), end);
    } else {
      NothingFed(e, p);
    }
    var q := Parsed(e, p, a).0;
    assert "cwd" + ";" + Unmarked(path) == "cwd;" + Unmarked(path) && "done" + ";" + status == "done;" + status;
    KindReported(e, q, "cwd", Unmarked(path), end);
    var r := Parsed(e, q, b).0;
    KindReported(e, r, "done", status, end);
    Chunks(e, p, a, b);
    Chunks(e, p, a + b, c);
  }

  lemma NothingFed(e: Encoding, p: Parser)
    ensures Parsed(e, p, []) == (p, [])
  {
  }
}
