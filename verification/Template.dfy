/** Rendering an action's command template: the one-pass machine over tags against the meaning
    of nested conditionals, and values that the shell reads as single words. */
module Template {
  import opened Common
  import opened Text

  // ---- fields and their values ----

  datatype FieldType = TextField | PathPicker | Number | Select | Checkbox

  /** A field; `default` is its default value with context variables expanded. */
  datatype Field = Field(id: string, fieldType: FieldType, required: bool, default: Option<string>)

  datatype ActionError = MissingRequired(id: string) | Invalid(id: string) | MissingContext | UnexpectedEndIf
    | UnexpectedElse | Unsupported(stmt: string) | MissingEndIf

  predicate IsTruthy(v: string) { !(v == "" || v == "false" || v == "0") }

  /** A field's value: the parameter, else the default; required, checked, normalized. */
  function EffectiveValue(f: Field, params: map<string, string>, valid: (Field, string) -> bool): Result<string,
      ActionError>
  {
    var v := Trim(if f.id in params then params[f.id] else Or(f.default, ""));
    if f.required && v == "" then Err(MissingRequired(f.id))
    else if !valid(f, v) then Err(Invalid(f.id))
    else if f.fieldType.Checkbox? then Ok(if v == "true" || v == "1" then "true" else "false")
    else Ok(v)
  }

  /** What a field was given: its parameter, or else its default, without white space around it. */
  function Given(f: Field, params: map<string, string>): string {
    if f.id in params then Trim(params[f.id]) else if f.default.Some? then Trim(f.default.value) else ""
  }

  /** What was given is there if it has to be, and passes the field's checks. */
  predicate Accepted(f: Field, params: map<string, string>, valid: (Field, string) -> bool) {
    !(f.required && Given(f, params) == "") && valid(f, Given(f, params))
  }

  /** A field's value is what was given; a checkbox is either true or false. */
  predicate HasValue(f: Field, params: map<string, string>, v: string) {
    if f.fieldType != Checkbox then v == Given(f, params)
    else if Given(f, params) in {"true", "1"} then v == "true"
    else v == "false"
  }

  /** A missing value is reported before one that fails its checks. */
  predicate HasError(f: Field, params: map<string, string>, valid: (Field, string) -> bool, e: ActionError) {
    if f.required && Given(f, params) == "" then e == MissingRequired(f.id)
    else !valid(f, Given(f, params)) && e == Invalid(f.id)
  }

  lemma EffectiveMeaning(f: Field, params: map<string, string>, valid: (Field, string) -> bool)
    ensures var r := EffectiveValue(f, params, valid);
      && (r.Ok? <==> Accepted(f, params, valid))
      && (r.Ok? ==> HasValue(f, params, r.value))
      && (r.Err? ==> HasError(f, params, valid, r.error))
  {
    assert Trim("") == "";
  }

  ghost predicate AllEffective(fields: seq<Field>, params: map<string, string>, valid: (Field, string) -> bool) {
    forall i :: 0 <= i < |fields| ==> Accepted(fields[i], params, valid)
  }

  predicate LastOfItsId(fields: seq<Field>, i: nat)
    requires i < |fields|
  {
    forall j :: i < j < |fields| ==> fields[j].id != fields[i].id
  }

  /** The last field of an id gives its value, and nothing else does. */
  ghost predicate ValuesOf(fields: seq<Field>, params: map<string, string>, values: map<string, string>) {
    LastWins(fields, params, values) && OnlyFields(fields, values)
  }

  ghost predicate LastWins(fields: seq<Field>, params: map<string, string>, values: map<string, string>) {
    forall i :: 0 <= i < |fields| && LastOfItsId(fields, i) ==>
      fields[i].id in values && HasValue(fields[i], params, values[fields[i].id])
  }

  ghost predicate OnlyFields(fields: seq<Field>, values: map<string, string>) {
    forall id :: id in values ==> exists i :: 0 <= i < |fields| && fields[i].id == id
  }

  /** The error of the first bad field. */
  ghost predicate FirstBad(fields: seq<Field>, params: map<string, string>, valid: (Field, string) -> bool,
      e: ActionError)
  {
    exists i ::
      && 0 <= i < |fields| && !Accepted(fields[i], params, valid) && HasError(fields[i], params, valid, e)
      && AllEffective(fields[..i], params, valid)
  }

  lemma NoValues(params: map<string, string>)
    ensures ValuesOf([], params, map[])
  {
  }

  lemma OneMoreValue(fields: seq<Field>, f: Field, params: map<string, string>, values: map<string, string>, v: string)
    requires ValuesOf(fields, params, values) && HasValue(f, params, v)
    ensures ValuesOf(fields + [f], params, values[f.id := v])
  {
    hide HasValue, LastOfItsId;
    var all, more := fields + [f], values[f.id := v];
    assert all[|fields|] == f;
    forall i | 0 <= i < |all| && LastOfItsId(all, i)
      ensures all[i].id in more && HasValue(all[i], params, more[all[i].id])
    {
      if i < |fields| { StillLast(fields, f, i); }
    }
    OneMoreId(fields, f, values, more);
  }

  lemma StillLast(fields: seq<Field>, f: Field, i: nat)
    requires i < |fields| && LastOfItsId(fields + [f], i)
    ensures LastOfItsId(fields, i) && fields[i].id != f.id && (fields + [f])[i] == fields[i]
  {
    var all := fields + [f];
    assert all[|fields|] == f;
    assert forall j :: i <= j < |fields| ==> all[j] == fields[j];
  }

  lemma OneMoreId(fields: seq<Field>, f: Field, values: map<string, string>, more: map<string, string>)
    requires OnlyFields(fields, values) && more.Keys == values.Keys + {f.id}
    ensures OnlyFields(fields + [f], more)
  {
    var all := fields + [f];
    assert all[|fields|] == f;
    forall id | id in more ensures exists i :: 0 <= i < |all| && all[i].id == id {
      if id != f.id {
        var i :| 0 <= i < |fields| && fields[i].id == id;
        assert all[i] == fields[i];
      }
    }
  }

  method EffectiveValues(fields: seq<Field>, params: map<string, string>, valid: (Field, string) -> bool)
    returns (r: Result<map<string, string>, ActionError>)
    ensures r.Ok? <==> AllEffective(fields, params, valid)
    ensures r.Ok? ==> ValuesOf(fields, params, r.value)
    ensures r.Err? ==> FirstBad(fields, params, valid, r.error)
  {
    hide EffectiveValue, ValuesOf, Accepted, HasValue, HasError;
    var values: map<string, string> := map[];
    NoValues(params);
    for n := 0 to |fields|
      invariant AllEffective(fields[..n], params, valid) && ValuesOf(fields[..n], params, values)
    {
      EffectiveMeaning(fields[n], params, valid);
      var v := EffectiveValue(fields[n], params, valid);
      if v.Err? { return Err(v.error); }
      OneMoreValue(fields[..n], fields[n], params, values, v.value);
      values := values[fields[n].id := v.value];
      assert fields[..n + 1] == fields[..n] + [fields[n]];
    }
    assert fields[..|fields|] == fields;
    r := Ok(values);
  }

  // ---- shell words ----

  /** `sh_quote`: single quotes, with `'` written as `'\''`. */
  function Escaped(v: string): string {
    if v == "" then "" else (if v[0] == '\'' then "'\\''" else [v[0]]) + Escaped(v[1..])
  }

  function ShQuote(v: string): string { "'" + Escaped(v) + "'" }

  predicate IsPlainChar(c: char) {
    || 'a' <= c <= 'z'
    || 'A' <= c <= 'Z'
    || '0' <= c <= '9'
    || c in {'-', '_', '.', ',', ':', '=', '+', '@', '%', '/'}
  }

  function QuoteIfNeeded(v: string): string {
    if v != "" && forall i :: 0 <= i < |v| ==> IsPlainChar(v[i]) then v else ShQuote(v)
  }

  /** Just the words of letters, digits and the ten signs stay bare. */
  lemma BareWords(v: string)
    ensures var bare := v != "" && forall i :: 0 <= i < |v| ==>
          || 'a' <= v[i] <= 'z' || 'A' <= v[i] <= 'Z' || '0' <= v[i] <= '9'
          || v[i] in {'-', '_', '.', ',', ':', '=', '+', '@', '%', '/'};
      QuoteIfNeeded(v) == if bare then v else "'" + Escaped(v) + "'"
  {
  }

  function Numeric(v: string): string {
    if v == "" then "" else (if '0' <= v[0] <= '9' || v[0] in {'.', '-'} then [v[0]] else "") + Numeric(v[1..])
  }

  function RenderField(f: Field, v: string): string {
    match f.fieldType
    case TextField => ShQuote(v)
    case PathPicker => ShQuote(v)
    case Number => Numeric(v)
    case Select => QuoteIfNeeded(v)
    case Checkbox => v
  }

  /** Prepends a character to what the rest reads as. */
  function Prepend(c: char, rest: Option<string>): Option<string> {
    if rest.None? then None else Some([c] + rest.value)
  }

  /** Characters that end a word or are expanded unless quoted (section 2.2 of the POSIX shell
      command language). */
  predicate IsSpecial(c: char) {
    c in {'|', '&', ';', '<', '>', '(', ')', '$', '`', '\\', '"', '\'', ' ', '\t', '\n', '*', '?', '[', '#', '~'}
  }

  /** How a POSIX shell reads text as part of one word: quotes are taken off, and anything that
      would end the word or be expanded makes it none. */
  function ReadWord(s: string, quoted: bool): Option<string> {
    if s == "" then if quoted then None else Some("")
    else if s[0] == '\'' then ReadWord(s[1..], !quoted)
    else if quoted then Prepend(s[0], ReadWord(s[1..], true))
    else if s[0] == '\\' then if |s| < 2 then None else Prepend(s[1], ReadWord(s[2..], false))
    else if IsSpecial(s[0]) then None
    else Prepend(s[0], ReadWord(s[1..], false))
  }

  lemma ReadOne(c: char, tail: string)
    ensures ReadWord((if c == '\'' then "'\\''" else [c]) + tail, true) == Prepend(c, ReadWord(tail, true))
  {
    if c == '\'' {
      var a, b := "\\''" + tail, "'" + tail;
      assert "'\\''" + tail == "'" + a && ("'" + a)[1..] == a && a[2..] == b && b[1..] == tail;
      assert ReadWord(b, false) == ReadWord(tail, true);
      assert ReadWord(a, false) == Prepend('\'', ReadWord(b, false));
    } else {
      var s := [c] + tail;
      assert s[0] == c && s[1..] == tail;
    }
  }

  lemma {:induction false} ReadEscaped(v: string)
    ensures ReadWord(Escaped(v) + "'", true) == Some(v)
  {
    if v == "" {
      assert Escaped(v) + "'" == "'";
      assert "'"[1..] == "";
    } else {
      hide ReadWord;
      ReadEscaped(v[1..]);
      var piece := if v[0] == '\'' then "'\\''" else [v[0]];
      ReadOne(v[0], Escaped(v[1..]) + "'");
      assert Escaped(v) + "'" == piece + (Escaped(v[1..]) + "'");
      assert v == [v[0]] + v[1..];
    }
  }

  lemma ReadQuoted(v: string)
    ensures ReadWord(ShQuote(v), false) == Some(v)
  {
    ReadEscaped(v);
    assert ShQuote(v)[1..] == Escaped(v) + "'";
  }

  lemma {:induction false} ReadPlain(v: string)
    requires forall i :: 0 <= i < |v| ==> IsPlainChar(v[i])
    ensures ReadWord(v, false) == Some(v)
  {
    if v != "" {
      ReadPlain(v[1..]);
      assert v == [v[0]] + v[1..];
    }
  }

  /** Of a number its digits, points and signs stay, and nothing else. */
  lemma {:induction false} NumericPlain(v: string)
    ensures forall i :: 0 <= i < |Numeric(v)| ==> Numeric(v)[i] in "0123456789.-" && IsPlainChar(Numeric(v)[i])
    ensures (forall i :: 0 <= i < |v| ==> v[i] in "0123456789.-") ==> Numeric(v) == v
  {
    if v != "" {
      NumericPlain(v[1..]);
      assert v == [v[0]] + v[1..];
      assert v[0] in "0123456789.-" <==> '0' <= v[0] <= '9' || v[0] in {'.', '-'} by { NumericChar(v[0]); }
    }
  }

  lemma NumericChar(c: char)
    ensures c in "0123456789.-" <==> '0' <= c <= '9' || c in {'.', '-'}
  {
  }

  /** Whatever a value holds, the shell reads it as (part of) one word with that very text. */
  lemma FieldIsOneWord(f: Field, v: string)
    requires f.fieldType.Checkbox? ==> v == "true" || v == "false"
    ensures ReadWord(RenderField(f, v), false) == Some(if f.fieldType.Number? then Numeric(v) else v)
  {
    ReadQuoted(v);
    hide ReadWord, ShQuote, Escaped;
    NumericPlain(v);
    ReadPlain(Numeric(v));
    if forall i :: 0 <= i < |v| ==> IsPlainChar(v[i]) { ReadPlain(v); }
  }

  // ---- tokens ----

  datatype Test = Truthy | Equals(rhs: string) | Differs(rhs: string)

  /** A template scanned into text, `${variable}`, `{{field}}` and `{% tag %}` pieces. */
  datatype Token =
    | Plain(text: string)
    | Variable(name: string, raw: string)
    | Placeholder(id: string, raw: string)
    | IfTag(negate: bool, id: string, test: Test)
    | ElseTag
    | EndIfTag
    | OtherTag(stmt: string)

  predicate IsLeaf(t: Token) { t.Plain? || t.Variable? || t.Placeholder? || t.OtherTag? }

  /** What tokens are rendered with: context variables (unknown ones are left to the shell),
      rendered fields, and the raw values that conditions test. */
  datatype Env = Env(
    variable: string -> Result<Option<string>, ActionError>,
    field: string -> Option<string>,
    values: map<string, string>)

  predicate Holds(env: Env, t: Token)
    requires t.IfTag?
  {
    var v := if t.id in env.values then env.values[t.id] else "";
    var r := match t.test case Truthy => IsTruthy(v) case Equals(x) => v == x case Differs(x) => v != x;
    r != t.negate
  }

  /** The text of a piece; an unsupported tag is an error even where nothing is shown. */
  function Shown(env: Env, t: Token, active: bool): Result<string, ActionError>
    requires IsLeaf(t)
  {
    if t.OtherTag? then Err(Unsupported(t.stmt))
    else if !active then Ok("")
    else
      match t
      case Plain(s) => Ok(s)
      case Placeholder(id, raw) => Ok(Or(env.field(id), raw))
      case Variable(name, raw) =>
        match env.variable(name)
        case Err(e) => Err(e)
        case Ok(v) => Ok(Or(v, raw))
  }

  // ---- the one-pass machine ----

  /** An open conditional: whether its current branch shows, and whether one was taken. */
  datatype Open = Open(active: bool, taken: bool)

  predicate Active(stack: seq<Open>) { forall i :: 0 <= i < |stack| ==> stack[i].active }

  /** The machine from the middle of a scan on. */
  function Run(env: Env, tokens: seq<Token>, out: string, stack: seq<Open>): Result<string, ActionError> {
    if tokens == [] then if stack == [] then Ok(out) else Err(MissingEndIf)
    else
      var t, rest := tokens[0], tokens[1..];
      var n := |stack| - 1;
      match t
      case EndIfTag => if stack == [] then Err(UnexpectedEndIf) else Run(env, rest, out, stack[..n])
      case ElseTag =>
        if stack == [] then Err(UnexpectedElse) else Run(env, rest, out, stack[..n] + [Open(!stack[n].taken, true)])
      case IfTag(_, _, _) => Run(env, rest, out, stack + [Open(Holds(env, t), Holds(env, t))])
      case _ =>
        var s := Shown(env, t, Active(stack));
        if s.Err? then s else Run(env, rest, out + s.value, stack)
  }

  // ---- nested conditionals ----

  /** Pieces and conditionals in order; a conditional has branches parted by `else`. */
  datatype Block = End | Piece(token: Token, next: Block) | If(cond: Token, branches: Branches, next: Block)

  datatype Branches = Closed(last: Block) | Else(first: Block, others: Branches)

  predicate WellFormed(b: Block) {
    match b
    case End => true
    case Piece(t, next) => IsLeaf(t) && WellFormed(next)
    case If(cond, branches, next) => cond.IfTag? && WellFormedAll(branches) && WellFormed(next)
  }

  predicate WellFormedAll(bs: Branches) {
    match bs
    case Closed(b) => WellFormed(b)
    case Else(b, others) => WellFormed(b) && WellFormedAll(others)
  }

  /** Joining two results; the first error wins. */
  function Then(a: Result<string, ActionError>, b: Result<string, ActionError>): Result<string, ActionError> {
    if a.Err? then a else if b.Err? then b else Ok(a.value + b.value)
  }

  /** What a condition asks of the values, an absent one being empty. */
  predicate Met(values: map<string, string>, cond: Token)
    requires cond.IfTag?
  {
    var v := if cond.id in values then values[cond.id] else "";
    match cond.test
    case Equals(rhs) => cond.negate <==> v != rhs
    case Differs(rhs) => cond.negate <==> v == rhs
    case Truthy => cond.negate <==> v == "" || v == "false" || v == "0"
  }

  lemma HoldsMeaning(env: Env, cond: Token)
    requires cond.IfTag?
    ensures Holds(env, cond) <==> Met(env.values, cond)
  {
  }

  /** The meaning of a block: the first branch when the condition holds, the second (`else`)
      when it does not, and no branch after a second `else`. */
  function Eval(env: Env, b: Block, active: bool): Result<string, ActionError>
    requires WellFormed(b)
  {
    match b
    case End => Ok("")
    case Piece(t, next) => Then(Shown(env, t, active), Eval(env, next, active))
    case If(cond, branches, next) =>
      var met := Met(env.values, cond);
      Then(EvalBranches(env, branches, active, met, met), Eval(env, next, active))
  }

  function EvalBranches(env: Env, bs: Branches, outer: bool, shows: bool, taken: bool): Result<string, ActionError>
    requires WellFormedAll(bs)
  {
    match bs
    case Closed(b) => Eval(env, b, outer && shows)
    case Else(b, others) => Then(Eval(env, b, outer && shows), EvalBranches(env, others, outer, !taken, true))
  }

  /** The tokens of a block. */
  function Flatten(b: Block): seq<Token> {
    match b
    case End => []
    case Piece(t, next) => [t] + Flatten(next)
    case If(cond, branches, next) => [cond] + (FlattenBranches(branches) + Flatten(next))
  }

  function FlattenBranches(bs: Branches): seq<Token> {
    match bs
    case Closed(b) => Flatten(b) + [EndIfTag]
    case Else(b, others) => Flatten(b) + ([ElseTag] + FlattenBranches(others))
  }

  // ---- the machine computes the meaning ----

  /** Continuing a scan after a part was rendered. */
  function Continue(env: Env, part: Result<string, ActionError>, tokens: seq<Token>, out: string,
      stack: seq<Open>): Result<string, ActionError>
  {
    if part.Err? then part else Run(env, tokens, out + part.value, stack)
  }

  /** A block is rendered where the open conditionals allow it, and the scan goes on after it. */
  lemma {:induction false} RunBlock(env: Env, b: Block, rest: seq<Token>, out: string, stack: seq<Open>)
    requires WellFormed(b)
    ensures Run(env, Flatten(b) + rest, out, stack) == Continue(env, Eval(env, b, Active(stack)), rest, out, stack)
    decreases b
  {
    match b
    case End =>
      assert [] + rest == rest && out + "" == out;
    case Piece(t, next) =>
      var s := Shown(env, t, Active(stack));
      assert ([t] + Flatten(next)) + rest == [t] + (Flatten(next) + rest);
      if s.Ok? {
        RunBlock(env, next, rest, out + s.value, stack);
        var e := Eval(env, next, Active(stack));
        assert e.Ok? ==> (out + s.value) + e.value == out + (s.value + e.value);
      }
    case If(cond, branches, next) =>
      var tail := Flatten(next) + rest;
      assert Flatten(b) + rest == [cond] + (FlattenBranches(branches) + tail);
      var h := Met(env.values, cond);
      HoldsMeaning(env, cond);
      RunBranches(env, branches, tail, out, stack, h, h);
      var s := EvalBranches(env, branches, Active(stack), h, h);
      if s.Ok? {
        RunBlock(env, next, rest, out + s.value, stack);
        var e := Eval(env, next, Active(stack));
        assert e.Ok? ==> (out + s.value) + e.value == out + (s.value + e.value);
      }
  }

  lemma {:induction false} RunBranches(env: Env, bs: Branches, rest: seq<Token>, out: string, stack: seq<Open>,
      shows: bool, taken: bool)
    requires WellFormedAll(bs)
    ensures Run(env, FlattenBranches(bs) + rest, out, stack + [Open(shows, taken)])
         == Continue(env, EvalBranches(env, bs, Active(stack), shows, taken), rest, out, stack)
    decreases bs
  {
    var open := stack + [Open(shows, taken)];
    OneMoreOpen(stack, Open(shows, taken));
    match bs
    case Closed(b) =>
      assert FlattenBranches(bs) + rest == Flatten(b) + ([EndIfTag] + rest);
      RunBlock(env, b, [EndIfTag] + rest, out, open);
      assert ([EndIfTag] + rest)[1..] == rest && open[..|open| - 1] == stack;
    case Else(b, others) =>
      var tail := FlattenBranches(others) + rest;
      assert FlattenBranches(bs) + rest == Flatten(b) + ([ElseTag] + tail);
      RunBlock(env, b, [ElseTag] + tail, out, open);
      assert ([ElseTag] + tail)[1..] == tail && open[..|open| - 1] == stack;
      var s := Eval(env, b, Active(stack) && shows);
      if s.Ok? {
        RunBranches(env, others, rest, out + s.value, stack, !taken, true);
        var e := EvalBranches(env, others, Active(stack), !taken, true);
        assert e.Ok? ==> (out + s.value) + e.value == out + (s.value + e.value);
      }
  }

  lemma OneMoreOpen(stack: seq<Open>, o: Open)
    ensures Active(stack + [o]) == (Active(stack) && o.active)
  {
    assert (stack + [o])[|stack|] == o;
    assert forall i :: 0 <= i < |stack| ==> (stack + [o])[i] == stack[i];
  }

  /** The one pass over nested tags gives what the nested blocks mean. */
  lemma NestedMeaning(env: Env, b: Block)
    requires WellFormed(b)
    ensures Run(env, Flatten(b), "", []) == Eval(env, b, true)
  {
    RunBlock(env, b, [], "", []);
    assert Flatten(b) + [] == Flatten(b);
    var e := Eval(env, b, true);
    assert e.Ok? ==> "" + e.value == e.value;
  }

  // ---- which templates nest ----

  /** Reading a block back from tokens: it ends at an `else` or `endif` of an outer
      conditional or at the end; None when a conditional is left open. */
  function Parse(ts: seq<Token>): (r: Option<(Block, seq<Token>)>)
    ensures r.Some? ==> |r.value.1| <= |ts|
    decreases |ts|, 0
  {
    if ts == [] || ts[0].ElseTag? || ts[0].EndIfTag? then Some((End, ts))
    else if ts[0].IfTag? then
      match ParseBranches(ts[1..])
      case None => None
      case Some((bs, rest)) =>
        match Parse(rest)
        case None => None
        case Some((next, more)) => Some((If(ts[0], bs, next), more))
    else
      match Parse(ts[1..])
      case None => None
      case Some((next, more)) => Some((Piece(ts[0], next), more))
  }

  function ParseBranches(ts: seq<Token>): (r: Option<(Branches, seq<Token>)>)
    ensures r.Some? ==> |r.value.1| < |ts|
    decreases |ts|, 1
  {
    match Parse(ts)
    case None => None
    case Some((b, rest)) =>
      if rest == [] then None
      else if rest[0].EndIfTag? then Some((Closed(b), rest[1..]))
      else if rest[0].ElseTag? then
        match ParseBranches(rest[1..])
        case None => None
        case Some((others, more)) => Some((Else(b, others), more))
      else None
  }

  lemma {:induction false} ParseSound(ts: seq<Token>)
    requires Parse(ts).Some?
    ensures var (b, rest) := Parse(ts).value;
      WellFormed(b) && ts == Flatten(b) + rest && (rest == [] || rest[0].ElseTag? || rest[0].EndIfTag?)
    decreases |ts|, 0
  {
    if ts == [] || ts[0].ElseTag? || ts[0].EndIfTag? {
      assert ts == [] + ts;
    } else if ts[0].IfTag? {
      BranchesSound(ts[1..]);
      var (bs, rest) := ParseBranches(ts[1..]).value;
      ParseSound(rest);
      var (next, more) := Parse(rest).value;
      Joined(ts, FlattenBranches(bs), Flatten(next), more);
    } else {
      ParseSound(ts[1..]);
      var (next, more) := Parse(ts[1..]).value;
      Joined(ts, [], Flatten(next), more);
      assert [] + Flatten(next) == Flatten(next);
    }
  }

  lemma Joined(ts: seq<Token>, a: seq<Token>, b: seq<Token>, c: seq<Token>)
    requires ts != [] && ts[1..] == a + (b + c)
    ensures ts == ([ts[0]] + (a + b)) + c
  {
  }

  lemma {:induction false} BranchesSound(ts: seq<Token>)
    requires ParseBranches(ts).Some?
    ensures var (bs, rest) := ParseBranches(ts).value; WellFormedAll(bs) && ts == FlattenBranches(bs) + rest
    decreases |ts|, 1
  {
    hide Flatten, Parse, WellFormed, FlattenBranches;
    ParseSound(ts);
    var (b, rest) := Parse(ts).value;
    if rest[0].EndIfTag? {
      BranchTokens(Closed(b), rest[1..]);
      assert rest == [EndIfTag] + rest[1..];
    } else {
      BranchesSound(rest[1..]);
      var (others, more) := ParseBranches(rest[1..]).value;
      BranchTokens(Else(b, others), more);
      assert rest == [ElseTag] + rest[1..];
    }
  }

  lemma {:induction false} ParseFlatten(b: Block, rest: seq<Token>)
    requires WellFormed(b) && (rest == [] || rest[0].ElseTag? || rest[0].EndIfTag?)
    ensures Parse(Flatten(b) + rest) == Some((b, rest))
    decreases b
  {
    hide ParseBranches, FlattenBranches, WellFormedAll;
    match b
    case End =>
      assert [] + rest == rest;
    case Piece(t, next) =>
      ParseFlatten(next, rest);
      PieceTokens(t, next, rest);
      ParsePiece(t, next, rest);
    case If(cond, branches, next) =>
      ParseFlatten(next, rest);
      ParseFlattenBranches(branches, Flatten(next) + rest);
      IfTokens(cond, branches, next, rest);
      ParseIf(cond, branches, next, rest);
  }

  lemma PieceTokens(t: Token, next: Block, rest: seq<Token>)
    ensures Flatten(Piece(t, next)) + rest == [t] + (Flatten(next) + rest)
  {
  }

  lemma ParsePiece(t: Token, next: Block, rest: seq<Token>)
    requires !t.IfTag? && !t.ElseTag? && !t.EndIfTag? && Parse(Flatten(next) + rest) == Some((next, rest))
    ensures Parse([t] + (Flatten(next) + rest)) == Some((Piece(t, next), rest))
  {
    hide Flatten;
    assert ([t] + (Flatten(next) + rest))[1..] == Flatten(next) + rest;
  }

  lemma IfTokens(cond: Token, branches: Branches, next: Block, rest: seq<Token>)
    ensures Flatten(If(cond, branches, next)) + rest == [cond] + (FlattenBranches(branches) + (Flatten(next) + rest))
  {
    hide FlattenBranches;
  }

  lemma ParseIf(cond: Token, branches: Branches, next: Block, rest: seq<Token>)
    requires cond.IfTag? && Parse(Flatten(next) + rest) == Some((next, rest))
    requires ParseBranches(FlattenBranches(branches) + (Flatten(next) + rest))
      == Some((branches, Flatten(next) + rest))
    ensures Parse([cond] + (FlattenBranches(branches) + (Flatten(next) + rest)))
      == Some((If(cond, branches, next), rest))
  {
    hide Flatten, FlattenBranches, ParseBranches;
    var ts := FlattenBranches(branches) + (Flatten(next) + rest);
    assert ([cond] + ts)[1..] == ts;
  }

  lemma {:induction false} ParseFlattenBranches(bs: Branches, rest: seq<Token>)
    requires WellFormedAll(bs)
    ensures ParseBranches(FlattenBranches(bs) + rest) == Some((bs, rest))
    decreases bs
  {
    hide Flatten, FlattenBranches, Parse;
    BranchTokens(bs, rest);
    match bs
    case Closed(b) =>
      ParseFlatten(b, [EndIfTag] + rest);
      assert ([EndIfTag] + rest)[1..] == rest;
    case Else(b, others) =>
      var tail := [ElseTag] + (FlattenBranches(others) + rest);
      ParseFlatten(b, tail);
      ParseFlattenBranches(others, rest);
      assert tail[1..] == FlattenBranches(others) + rest;
  }

  lemma BranchTokens(bs: Branches, rest: seq<Token>)
    ensures FlattenBranches(bs) + rest == match bs
      case Closed(b) => Flatten(b) + ([EndIfTag] + rest)
      case Else(b, others) => Flatten(b) + ([ElseTag] + (FlattenBranches(others) + rest))
  {
  }

  /** The tags of a template nest. */
  ghost predicate Nests(ts: seq<Token>) { exists b :: WellFormed(b) && Flatten(b) == ts }

  lemma NestsIsParsed(ts: seq<Token>)
    ensures Nests(ts) <==> Parse(ts).Some? && Parse(ts).value.1 == []
  {
    if b :| WellFormed(b) && Flatten(b) == ts {
      ParseFlatten(b, []);
      assert Flatten(b) + [] == ts;
    }
    if Parse(ts).Some? && Parse(ts).value.1 == [] {
      ParseSound(ts);
      var b := Parse(ts).value.0;
      assert Flatten(b) + [] == Flatten(b);
    }
  }

  predicate IsNestingError(e: ActionError) { e.UnexpectedEndIf? || e.UnexpectedElse? || e.MissingEndIf? }

  /** Nothing but nesting can go wrong: every tag is supported, every variable available. */
  ghost predicate Renderable(env: Env, ts: seq<Token>) {
    forall t, active :: t in ts && IsLeaf(t) ==> Shown(env, t, active).Ok?
  }

  lemma {:induction false} EvalOk(env: Env, b: Block, active: bool)
    requires WellFormed(b) && Renderable(env, Flatten(b))
    ensures Eval(env, b, active).Ok?
    decreases b
  {
    match b
    case End =>
    case Piece(t, next) =>
      assert t in Flatten(b) && forall x :: x in Flatten(next) ==> x in Flatten(b);
      EvalOk(env, next, active);
    case If(cond, branches, next) =>
      assert forall x :: x in FlattenBranches(branches) || x in Flatten(next) ==> x in Flatten(b);
      EvalOk(env, next, active);
      EvalBranchesOk(env, branches, active, Met(env.values, cond), Met(env.values, cond));
  }

  lemma {:induction false} EvalBranchesOk(env: Env, bs: Branches, outer: bool, shows: bool, taken: bool)
    requires WellFormedAll(bs) && Renderable(env, FlattenBranches(bs))
    ensures EvalBranches(env, bs, outer, shows, taken).Ok?
    decreases bs
  {
    match bs
    case Closed(b) =>
      assert forall x :: x in Flatten(b) ==> x in FlattenBranches(bs);
      EvalOk(env, b, outer && shows);
    case Else(b, others) =>
      assert forall x :: x in Flatten(b) || x in FlattenBranches(others) ==> x in FlattenBranches(bs);
      EvalOk(env, b, outer && shows);
      EvalBranchesOk(env, others, outer, !taken, true);
  }

  /** A scan whose conditionals are left open ends in an error. */
  lemma {:induction false} Unclosed(env: Env, ts: seq<Token>, out: string, stack: seq<Open>)
    requires Parse(ts).None?
    ensures Run(env, ts, out, stack).Err?
    decreases |ts|, 0
  {
    if ts[0].IfTag? {
      var h := Holds(env, ts[0]);
      if ParseBranches(ts[1..]).None? {
        UnclosedBranches(env, ts[1..], out, stack, Open(h, h));
      } else {
        BranchesSound(ts[1..]);
        var (bs, rest) := ParseBranches(ts[1..]).value;
        RunBranches(env, bs, rest, out, stack, h, h);
        var s := EvalBranches(env, bs, Active(stack), h, h);
        if s.Ok? { Unclosed(env, rest, out + s.value, stack); }
      }
    } else {
      var s := Shown(env, ts[0], Active(stack));
      if s.Ok? { Unclosed(env, ts[1..], out + s.value, stack); }
    }
  }

  lemma {:induction false} UnclosedBranches(env: Env, ts: seq<Token>, out: string, stack: seq<Open>, o: Open)
    requires ParseBranches(ts).None?
    ensures Run(env, ts, out, stack + [o]).Err?
    decreases |ts|, 1
  {
    var open := stack + [o];
    if Parse(ts).None? {
      Unclosed(env, ts, out, open);
    } else {
      ParseSound(ts);
      var (b, rest) := Parse(ts).value;
      RunBlock(env, b, rest, out, open);
      var s := Eval(env, b, Active(open));
      if s.Ok? && rest != [] {
        assert open[..|open| - 1] == stack;
        UnclosedBranches(env, rest[1..], out + s.value, stack, Open(!o.taken, true));
      }
    }
  }

  lemma {:induction false} OnlyNesting(env: Env, ts: seq<Token>, out: string, stack: seq<Open>)
    requires Renderable(env, ts) && Run(env, ts, out, stack).Err?
    ensures IsNestingError(Run(env, ts, out, stack).error)
    decreases |ts|
  {
    if ts != [] {
      var t, rest, n := ts[0], ts[1..], |stack| - 1;
      assert forall x :: x in rest ==> x in ts;
      if t.EndIfTag? {
        if stack != [] { OnlyNesting(env, rest, out, stack[..n]); }
      } else if t.ElseTag? {
        if stack != [] { OnlyNesting(env, rest, out, stack[..n] + [Open(!stack[n].taken, true)]); }
      } else if t.IfTag? {
        OnlyNesting(env, rest, out, stack + [Open(Holds(env, t), Holds(env, t))]);
      } else {
        OnlyNesting(env, rest, out + Shown(env, t, Active(stack)).value, stack);
      }
    }
  }

  /** With supported tags and available variables, rendering fails exactly when the tags do not
      nest, with a nesting error. */
  lemma FailsIffNotNested(env: Env, ts: seq<Token>)
    requires Renderable(env, ts)
    ensures Run(env, ts, "", []).Ok? <==> Nests(ts)
    ensures Run(env, ts, "", []).Err? ==> IsNestingError(Run(env, ts, "", []).error)
  {
    NestsIsParsed(ts);
    if Run(env, ts, "", []).Err? { OnlyNesting(env, ts, "", []); }
    if Parse(ts).None? {
      Unclosed(env, ts, "", []);
    } else {
      ParseSound(ts);
      var (b, rest) := Parse(ts).value;
      RunBlock(env, b, rest, "", []);
      if rest == [] {
        assert Flatten(b) + [] == Flatten(b) == ts;
        EvalOk(env, b, true);
      }
    }
  }

  /** Branches after a second `else` show nothing, whatever follows the conditional. */
  lemma {:induction false} ThirdBranchIsDead(env: Env, cond: Token, first: Block, second: Block, others: Branches,
      next: Block)
    requires cond.IfTag? && WellFormed(first) && WellFormed(second) && WellFormedAll(others) && WellFormed(next)
    requires Renderable(env, Flatten(first)) && Renderable(env, Flatten(second))
    requires Renderable(env, FlattenBranches(others)) && Renderable(env, Flatten(next))
    ensures var chosen := if Met(env.values, cond) then first else second;
      && Eval(env, chosen, true).Ok? && Eval(env, next, true).Ok?
      && Eval(env, If(cond, Else(first, Else(second, others)), next), true)
        == Ok(Eval(env, chosen, true).value + Eval(env, next, true).value)
  {
    Hidden(env, first);
    Hidden(env, second);
    HiddenBranches(env, others);
    EvalOk(env, first, true);
    EvalOk(env, second, true);
    EvalOk(env, next, true);
    var h := Met(env.values, cond);
    var e := Eval(env, if h then first else second, true).value;
    assert e + "" == e && "" + e == e && "" + "" == "";
    assert EvalBranches(env, Else(second, others), true, !h, true) == if h then Ok("") else Ok(e);
    assert EvalBranches(env, Else(first, Else(second, others)), true, h, h) == Ok(e);
  }

  /** A conditional with this condition shows the first or else the second branch. */
  ghost predicate Picks(env: Env, cond: Token, first: Block, second: Block, next: Block, takeFirst: bool)
    requires cond.IfTag? && WellFormed(first) && WellFormed(second) && WellFormed(next)
  {
    && Eval(env, If(cond, Else(first, Closed(second)), next), true)
      == Then(Eval(env, if takeFirst then first else second, true), Eval(env, next, true))
    && Eval(env, If(cond, Closed(first), next), true)
      == Then(if takeFirst then Eval(env, first, true) else Ok(""), Eval(env, next, true))
  }

  /** Which branch shows, by the value of the condition's field: `==` and `!=` compare it, a bare
      name asks for more than "", "false" and "0", and `not` exchanges the branches. */
  lemma BranchShown(env: Env, id: string, rhs: string, first: Block, second: Block, next: Block)
    requires WellFormed(first) && WellFormed(second) && WellFormed(next)
    requires Renderable(env, Flatten(first)) && Renderable(env, Flatten(second))
    ensures var v := if id in env.values then env.values[id] else "";
      && Picks(env, IfTag(false, id, Equals(rhs)), first, second, next, v == rhs)
      && Picks(env, IfTag(true, id, Equals(rhs)), first, second, next, v != rhs)
      && Picks(env, IfTag(false, id, Differs(rhs)), first, second, next, v != rhs)
      && Picks(env, IfTag(true, id, Differs(rhs)), first, second, next, v == rhs)
      && Picks(env, IfTag(false, id, Truthy), first, second, next, v != "" && v != "false" && v != "0")
      && Picks(env, IfTag(true, id, Truthy), first, second, next, v == "" || v == "false" || v == "0")
  {
    PicksMet(env, IfTag(false, id, Equals(rhs)), first, second, next);
    PicksMet(env, IfTag(true, id, Equals(rhs)), first, second, next);
    PicksMet(env, IfTag(false, id, Differs(rhs)), first, second, next);
    PicksMet(env, IfTag(true, id, Differs(rhs)), first, second, next);
    PicksMet(env, IfTag(false, id, Truthy), first, second, next);
    PicksMet(env, IfTag(true, id, Truthy), first, second, next);
  }

  lemma PicksMet(env: Env, cond: Token, first: Block, second: Block, next: Block)
    requires cond.IfTag? && WellFormed(first) && WellFormed(second) && WellFormed(next)
    requires Renderable(env, Flatten(first)) && Renderable(env, Flatten(second))
    ensures Picks(env, cond, first, second, next, Met(env.values, cond))
  {
    Hidden(env, first);
    Hidden(env, second);
    EvalOk(env, first, true);
    EvalOk(env, second, true);
    var met := Met(env.values, cond);
    var e := Eval(env, if met then first else second, true).value;
    assert e + "" == e && "" + e == e;
    assert EvalBranches(env, Closed(second), true, !met, true) == if met then Ok("") else Ok(e);
    assert EvalBranches(env, Else(first, Closed(second)), true, met, met) == Ok(e);
  }

  lemma {:induction false} Hidden(env: Env, b: Block)
    requires WellFormed(b) && Renderable(env, Flatten(b))
    ensures Eval(env, b, false) == Ok("")
    decreases b
  {
    assert "" + "" == "";
    match b
    case End =>
    case Piece(t, next) =>
      assert t in Flatten(b) && forall x :: x in Flatten(next) ==> x in Flatten(b);
      assert Shown(env, t, false).Ok?;
      Hidden(env, next);
    case If(cond, branches, next) =>
      assert forall x :: x in FlattenBranches(branches) || x in Flatten(next) ==> x in Flatten(b);
      Hidden(env, next);
      HiddenIn(env, branches, Met(env.values, cond), Met(env.values, cond));
  }

  lemma {:induction false} HiddenIn(env: Env, bs: Branches, shows: bool, taken: bool)
    requires WellFormedAll(bs) && Renderable(env, FlattenBranches(bs))
    ensures EvalBranches(env, bs, false, shows, taken) == Ok("")
    decreases bs
  {
    assert "" + "" == "";
    match bs
    case Closed(b) =>
      assert forall x :: x in Flatten(b) ==> x in FlattenBranches(bs);
      Hidden(env, b);
    case Else(b, others) =>
      assert forall x :: x in Flatten(b) || x in FlattenBranches(others) ==> x in FlattenBranches(bs);
      Hidden(env, b);
      HiddenIn(env, others, !taken, true);
  }

  lemma {:induction false} HiddenBranches(env: Env, bs: Branches)
    requires WellFormedAll(bs) && Renderable(env, FlattenBranches(bs))
    ensures EvalBranches(env, bs, true, false, true) == Ok("")
    decreases bs
  {
    assert "" + "" == "";
    match bs
    case Closed(b) =>
      assert forall x :: x in Flatten(b) ==> x in FlattenBranches(bs);
      Hidden(env, b);
    case Else(b, others) =>
      assert forall x :: x in Flatten(b) || x in FlattenBranches(others) ==> x in FlattenBranches(bs);
      Hidden(env, b);
      HiddenBranches(env, others);
  }

  // ---- rendering ----

  /** The loop of `render_command`. */
  method Render(env: Env, tokens: seq<Token>) returns (r: Result<string, ActionError>)
    ensures var raw := Run(env, tokens, "", []); r == if raw.Err? then raw else Ok(Trim(raw.value))
    ensures forall b :: WellFormed(b) && Flatten(b) == tokens ==>
      r == if Eval(env, b, true).Err? then Eval(env, b, true) else Ok(Trim(Eval(env, b, true).value))
    ensures Renderable(env, tokens) ==> (r.Ok? <==> Nests(tokens))
  {
    forall b | WellFormed(b) && Flatten(b) == tokens
      ensures Run(env, tokens, "", []) == Eval(env, b, true)
    {
      NestedMeaning(env, b);
    }
    if Renderable(env, tokens) { FailsIffNotNested(env, tokens); }
    r := Scan(env, tokens);
    if r.Ok? { r := Ok(Trim(r.value)); }
  }

  method Scan(env: Env, tokens: seq<Token>) returns (r: Result<string, ActionError>)
    ensures r == Run(env, tokens, "", [])
  {
    var out := "";
    var stack: seq<Open> := [];
    for i := 0 to |tokens|
      invariant Run(env, tokens[i..], out, stack) == Run(env, tokens, "", [])
    {
      assert tokens[i..][0] == tokens[i] && tokens[i..][1..] == tokens[i + 1..];
      var n := |stack| - 1;
      var t := tokens[i];
      if t.EndIfTag? {
        if stack == [] { return Err(UnexpectedEndIf); }
        stack := stack[..n];
      } else if t.ElseTag? {
        if stack == [] { return Err(UnexpectedElse); }
        stack := stack[..n] + [Open(!stack[n].taken, true)];
      } else if t.IfTag? {
        stack := stack + [Open(Holds(env, t), Holds(env, t))];
      } else {
        var s := Shown(env, t, Active(stack));
        if s.Err? { return s; }
        out := out + s.value;
      }
    }
    if stack != [] { return Err(MissingEndIf); }
    r := Ok(out);
  }

  /** The text of a placeholder: the last field of that id, rendered. */
  function FieldText(fields: seq<Field>, values: map<string, string>, id: string): Option<string> {
    if fields == [] then None
    else
      var f := fields[|fields| - 1];
      if f.id == id then Some(RenderField(f, if id in values then values[id] else ""))
      else FieldText(fields[..|fields| - 1], values, id)
  }

  function EnvOf(fields: seq<Field>, values: map<string, string>,
      variable: string -> Result<Option<string>, ActionError>): Env
  {
    Env(variable, id => FieldText(fields, values, id), values)
  }

  /** Where a field's placeholder stands, the shell reads one word, the field's value; where no
      field has the name, the placeholder stays. Plain text stays as it is. */
  lemma Substituted(fields: seq<Field>, params: map<string, string>, values: map<string, string>,
      variable: string -> Result<Option<string>, ActionError>, id: string, raw: string)
    requires ValuesOf(fields, params, values)
    ensures var env := EnvOf(fields, values, variable);
      && Eval(env, Piece(Plain(raw), End), true) == Ok(raw)
      && ((forall i :: 0 <= i < |fields| ==> fields[i].id != id) ==>
          Eval(env, Piece(Placeholder(id, raw), End), true) == Ok(raw))
      && forall i :: 0 <= i < |fields| && LastOfItsId(fields, i) && fields[i].id == id ==>
          var shown := Eval(env, Piece(Placeholder(id, raw), End), true);
          && shown.Ok?
          && ReadWord(shown.value, false)
            == Some(if fields[i].fieldType.Number? then Numeric(values[id]) else values[id])
  {
    var env := EnvOf(fields, values, variable);
    assert raw + "" == raw;
    if forall i :: 0 <= i < |fields| ==> fields[i].id != id { NoFieldText(fields, values, id); }
    forall i | 0 <= i < |fields| && LastOfItsId(fields, i) && fields[i].id == id
      ensures var shown := Eval(env, Piece(Placeholder(id, raw), End), true);
        && shown.Ok?
        && ReadWord(shown.value, false) == Some(if fields[i].fieldType.Number? then Numeric(values[id]) else values[id])
    {
      LastFieldText(fields, values, i);
      FieldIsOneWord(fields[i], values[id]);
      var word := RenderField(fields[i], values[id]);
      assert word + "" == word;
    }
  }

  lemma {:induction false} LastFieldText(fields: seq<Field>, values: map<string, string>, i: nat)
    requires i < |fields| && LastOfItsId(fields, i) && fields[i].id in values
    ensures FieldText(fields, values, fields[i].id) == Some(RenderField(fields[i], values[fields[i].id]))
    decreases |fields|
  {
    hide RenderField;
    if i < |fields| - 1 { LastFieldText(fields[..|fields| - 1], values, i); }
  }

  lemma {:induction false} NoFieldText(fields: seq<Field>, values: map<string, string>, id: string)
    requires forall i :: 0 <= i < |fields| ==> fields[i].id != id
    ensures FieldText(fields, values, id) == None
  {
    if fields != [] { NoFieldText(fields[..|fields| - 1], values, id); }
  }

  /** A checkbox given "true" or "1" shows the first branch of a test of its name, any other
      accepted value the second. */
  lemma CheckboxBranch(fields: seq<Field>, params: map<string, string>, values: map<string, string>,
      variable: string -> Result<Option<string>, ActionError>, i: nat, first: Block, second: Block, next: Block)
    requires ValuesOf(fields, params, values)
    requires i < |fields| && LastOfItsId(fields, i) && fields[i].fieldType.Checkbox? && fields[i].id in params
    requires WellFormed(first) && WellFormed(second) && WellFormed(next)
    requires var env := EnvOf(fields, values, variable);
      Renderable(env, Flatten(first)) && Renderable(env, Flatten(second))
    ensures var env, given := EnvOf(fields, values, variable), Trim(params[fields[i].id]);
      Picks(env, IfTag(false, fields[i].id, Truthy), first, second, next, given == "true" || given == "1")
  {
    hide Picks, Renderable, Trim;
    BranchShown(EnvOf(fields, values, variable), fields[i].id, "", first, second, next);
  }

  /** `render_command`: the template with the effective values of its fields, each substituted
      as a shell word. It fails without a file where one is needed, with the first bad field, or
      as the template does, in this order. */
  method RenderCommand(fields: seq<Field>, params: map<string, string>, valid: (Field, string) -> bool,
      variable: string -> Result<Option<string>, ActionError>, needsFiles: bool, selected: nat, tokens: seq<Token>)
    returns (r: Result<string, ActionError>, values: map<string, string>)
    ensures needsFiles && selected == 0 ==> r == Err(MissingContext)
    ensures !(needsFiles && selected == 0) && !AllEffective(fields, params, valid) ==>
      r.Err? && FirstBad(fields, params, valid, r.error)
    ensures !(needsFiles && selected == 0) && AllEffective(fields, params, valid) ==>
      && ValuesOf(fields, params, values)
      && var env := EnvOf(fields, values, variable);
        && (forall b :: WellFormed(b) && Flatten(b) == tokens ==>
              r == if Eval(env, b, true).Err? then Eval(env, b, true) else Ok(Trim(Eval(env, b, true).value)))
        && (r.Ok? <==> Run(env, tokens, "", []).Ok?)
        && (r.Err? ==> r == Run(env, tokens, "", []))
        && (Renderable(env, tokens) ==> (r.Ok? <==> Nests(tokens)))
  {
    values := map[];
    if needsFiles && selected == 0 { return Err(MissingContext), values; }
    var effective := EffectiveValues(fields, params, valid);
    if effective.Err? { return Err(effective.error), values; }
    values := effective.value;
    r := Render(EnvOf(fields, values, variable), tokens);
  }
}
