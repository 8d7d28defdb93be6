/**
 ${NAME} expansion in a config document (config/expand.go). Characters stand for
 the bytes the source scans.
 */
module EnvExpansion {
  import opened Prelude

  /** Each error names the variable and its line, never a value. */
  datatype Error =
    | Unterminated(line: nat)
    | NotAName(name: string, line: nat)
    | Unset(name: string, line: nat)
    | ManyLines(name: string, line: nat)

  datatype Result = Expanded(text: string) | Failed(error: Error)

  type Env = map<string, string>

  function Newlines(s: string): nat {
    if s == "" then 0 else (if s[0] == '\n' then 1 else 0) + Newlines(s[1..])
  }

  predicate Letter(c: char) {
    'A' <= c <= 'Z' || 'a' <= c <= 'z' || c == '_'
  }

  predicate ValidName(name: string) {
    name != "" && forall i :: 0 <= i < |name| ==> Letter(name[i]) || (i > 0 && '0' <= name[i] <= '9')
  }

  /** bytes.IndexByte: the first '}' in s, or -1. */
  function Closing(s: string): (end: int)
    ensures -1 <= end < |s|
    ensures end >= 0 ==> s[end] == '}' && '}' !in s[..end]
    ensures end < 0 ==> '}' !in s
  {
    if s == "" then -1
    else if s[0] == '}' then 0
    else
      var end := Closing(s[1..]);
      if end < 0 then -1 else
        assert s[..end + 1] == [s[0]] + s[1..][..end];
        end + 1
  }

  predicate Usable(env: Env, name: string) {
    name in env && env[name] != "" && '\n' !in env[name] && '\r' !in env[name]
  }

  /** Why a named reference is refused, in the order the source asks. */
  function Refusal(env: Env, name: string, line: nat): Option<Error> {
    if name !in env || env[name] == "" then Some(Unset(name, line))
    else if '\n' in env[name] || '\r' in env[name] then Some(ManyLines(name, line))
    else None
  }

  // ----------------------------------------------------------- the scanner

  /** What the scanner makes of the text in front of it. */
  datatype Token = Plain(c: char) | Escaped | Ref(name: string) | Broken(error: Error)

  /** The token at the front of s, which starts on the given line; environment values play no part. */
  function Front(s: string, line: nat): Token
    requires s != ""
  {
    if s[0] != '$' then Plain(s[0])
    else if "$${" <= s then Escaped
    else if !("${" <= s) then Plain('$')
    else
      var end := Closing(s[2..]);
      if end < 0 then Broken(Unterminated(line))
      else if !ValidName(s[2..][..end]) then Broken(NotAName(s[2..][..end], line))
      else Ref(s[2..][..end])
  }

  /** The text a token was read from. */
  function Spelling(t: Token): string {
    match t
    case Plain(c) => [c]
    case Escaped => "$$"
    case Ref(name) => "${" + name + "}"
    case Broken(_) => ""
  }

  /** The text a token becomes. */
  function Meaning(t: Token, env: Env, line: nat): Result {
    match t
    case Plain(c) => Expanded([c])
    case Escaped => Expanded("$")
    case Ref(name) => if Refusal(env, name, line).Some? then Failed(Refusal(env, name, line).value) else Expanded(env[name])
    case Broken(error) => Failed(error)
  }

  lemma {:induction false} RefIsPrefix(s: string, line: nat)
    requires s != "" && Front(s, line).Ref?
    ensures Spelling(Front(s, line)) <= s && '\n' !in Spelling(Front(s, line))
  {
    var name := Front(s, line).name;
    var end := Closing(s[2..]);
    assert name == s[2..2 + end];
    assert Spelling(Front(s, line)) == s[..end + 3];
  }

  lemma {:induction false} FrontIsPrefix(s: string, line: nat)
    requires s != "" && !Front(s, line).Broken?
    ensures Spelling(Front(s, line)) <= s && Spelling(Front(s, line)) != ""
    ensures Newlines(Spelling(Front(s, line))) == if s[0] == '\n' then 1 else 0
  {
    var t := Front(s, line);
    if t.Ref? {
      RefIsPrefix(s, line);
      NoNewlines(Spelling(t));
    } else if t.Escaped? {
      NoNewlines("$$");
    } else {
      assert [s[0]][1..] == "";
    }
  }

  lemma FrontIsNonempty(s: string, line: nat)
    requires s != ""
    ensures !Front(s, line).Broken? ==> |Spelling(Front(s, line))| > 0
  {
  }

  lemma {:induction false} NoNewlines(s: string)
    requires '\n' !in s
    ensures Newlines(s) == 0
  {
    if s != "" { NoNewlines(s[1..]); }
  }

  lemma {:induction false} NewlinesConcat(a: string, b: string)
    ensures Newlines(a + b) == Newlines(a) + Newlines(b)
  {
    if a == "" {
      assert a + b == b;
    } else {
      assert (a + b)[1..] == a[1..] + b;
      NewlinesConcat(a[1..], b);
    }
  }

  function Then(text: string, rest: Result): Result {
    if rest.Expanded? then Expanded(text + rest.text) else rest
  }

  /** The tokens of s up to and including the first broken one. */
  function Tokens(s: string, line: nat): seq<(Token, nat)>
    decreases |s|, 1
  {
    if s == "" then []
    else
      FrontFits(s, line);
      TokensFrom(Front(s, line), s, line)
  }

  /** A token at the front of s, and those of what follows it. */
  function TokensFrom(t: Token, s: string, line: nat): seq<(Token, nat)>
    requires Fits(t, s)
    decreases |s|, 0
  {
    if t.Broken? then [(t, line)]
    else [(t, line)] + Tokens(s[|Spelling(t)|..], line + Newlines(Spelling(t)))
  }

  predicate Fits(t: Token, s: string) {
    t.Broken? || 0 < |Spelling(t)| <= |s|
  }

  lemma FrontFits(s: string, line: nat)
    requires s != ""
    ensures Fits(Front(s, line), s)
  {
    if !Front(s, line).Broken? {
      FrontIsPrefix(s, line);
    }
  }

  /** Each token in turn becomes its text; the first that cannot is the error. */
  function Render(tokens: seq<(Token, nat)>, env: Env): Result {
    if tokens == [] then Expanded("")
    else
      var text := Meaning(tokens[0].0, env, tokens[0].1);
      if text.Failed? then text else Then(text.text, Render(tokens[1..], env))
  }

  /** What s, starting on the given line, expands to. */
  function Output(s: string, line: nat, env: Env): Result {
    Render(Tokens(s, line), env)
  }

  lemma {:induction false} TokensBegin(s: string, line: nat, t: Token)
    requires s != "" && t == Front(s, line)
    ensures Fits(t, s) && Tokens(s, line) == TokensFrom(t, s, line)
  {
    FrontFits(s, line);
  }

  lemma {:induction false} TokensFollow(t: Token, s: string, line: nat, s': string, line': nat) returns (rest: seq<(Token, nat)>)
    requires Fits(t, s) && !t.Broken? && s' == s[|Spelling(t)|..] && line' == line + Newlines(Spelling(t))
    ensures rest == Tokens(s', line') && TokensFrom(t, s, line) == [(t, line)] + rest
  {
    rest := Tokens(s', line');
  }

  /** Past a front token that is not broken, the tokens are those of what follows. */
  lemma {:induction false} TokensGoOn(s: string, line: nat, t: Token, s': string, line': nat) returns (rest: seq<(Token, nat)>)
    requires s != "" && t == Front(s, line) && !t.Broken?
    requires |Spelling(t)| <= |s| && s' == s[|Spelling(t)|..] && line' == line + Newlines(Spelling(t))
    ensures rest == Tokens(s', line') && Tokens(s, line) == [(t, line)] + rest
  {
    TokensBegin(s, line, t);
    rest := TokensFollow(t, s, line, s', line');
  }

  lemma {:induction false} TokensStep(s: string, line: nat)
    requires s != "" && !Front(s, line).Broken?
    ensures var t := Front(s, line);
            var n := |Spelling(t)|;
            && n <= |s| && s == Spelling(t) + s[n..]
            && Tokens(s, line) == [(t, line)] + Tokens(s[n..], line + Newlines(Spelling(t)))
  {
    var t := Front(s, line);
    FrontIsPrefix(s, line);
    var rest := TokensGoOn(s, line, t, s[|Spelling(t)|..], line + Newlines(Spelling(t)));
  }

  lemma {:induction false} RenderStep(x: (Token, nat), rest: seq<(Token, nat)>, env: Env)
    ensures var m := Meaning(x.0, env, x.1);
            Render([x] + rest, env) == if m.Failed? then m else Then(m.text, Render(rest, env))
  {
    assert ([x] + rest)[1..] == rest;
  }

  /** A front token that becomes some text: what follows is expanded by itself. */
  lemma {:induction false} OutputGoesOn(s: string, line: nat, env: Env, t: Token, m: Result, s': string, line': nat)
    requires s != "" && t == Front(s, line) && m == Meaning(t, env, line) && m.Expanded?
    requires |Spelling(t)| <= |s| && s' == s[|Spelling(t)|..] && line' == line + Newlines(Spelling(t))
    ensures Output(s, line, env) == Then(m.text, Output(s', line', env))
  {
    var rest := TokensGoOn(s, line, t, s', line');
    RenderStep((t, line), rest, env);
  }

  /** A front token that cannot be expanded is the error. */
  lemma OutputFails(s: string, line: nat, env: Env)
    requires s != "" && Meaning(Front(s, line), env, line).Failed?
    ensures Output(s, line, env) == Meaning(Front(s, line), env, line)
  {
    var t := Front(s, line);
    if t.Broken? {
      assert Tokens(s, line) == [(t, line)] + [];
      RenderStep((t, line), [], env);
    } else {
      TokensStep(s, line);
      RenderStep((t, line), Tokens(s[|Spelling(t)|..], line + Newlines(Spelling(t))), env);
    }
  }

  /** The front token becomes its text; what follows is expanded by itself. */
  lemma OutputStep(s: string, line: nat, env: Env)
    requires s != ""
    ensures var t := Front(s, line);
            var m := Meaning(t, env, line);
            if m.Failed? then Output(s, line, env) == m
            else |Spelling(t)| <= |s| && Output(s, line, env) ==
                 Then(m.text, Output(s[|Spelling(t)|..], line + Newlines(Spelling(t)), env))
  {
    var t := Front(s, line);
    var m := Meaning(t, env, line);
    if m.Failed? {
      OutputFails(s, line, env);
    } else {
      FrontIsPrefix(s, line);
      OutputGoesOn(s, line, env, t, m, s[|Spelling(t)|..], line + Newlines(Spelling(t)));
    }
  }

  /** Expansion: scan once, then render. */
  function Expand(data: string, env: Env): Result {
    Output(data, 1, env)
  }

  // ----------------------------------------------------------- the program

  method ValidEnvName(name: string) returns (ok: bool)
    ensures ok <==> ValidName(name)
  {
    if name == "" {
      return false;
    }
    for i := 0 to |name|
      invariant forall j :: 0 <= j < i ==> Letter(name[j]) || (j > 0 && '0' <= name[j] <= '9')
    {
      var c := name[i];
      if Letter(c) {
      } else if '0' <= c <= '9' && i > 0 {
      } else {
        return false;
      }
    }
    ok := true;
  }

  function LineOf(data: string, idx: nat): nat
    requires idx <= |data|
  {
    Newlines(data[..idx]) + 1
  }

  /** Moving past a token moves the line by its newlines. */
  lemma {:induction false} LineMoves(data: string, i: nat, text: string)
    requires i <= |data| && text <= data[i..]
    ensures i + |text| <= |data| && LineOf(data, i + |text|) == LineOf(data, i) + Newlines(text)
  {
    assert data[..i + |text|] == data[..i] + text;
    NewlinesConcat(data[..i], text);
  }

  lemma Onward(data: string, i: nat, n: nat)
    requires i + n <= |data|
    ensures data[i..][n..] == data[i + n..]
  {
  }

  lemma {:induction false} NoDollars(s: string, line: nat, env: Env)
    requires '$' !in s
    ensures Output(s, line, env) == Expanded(s)
    decreases |s|
  {
    if s != "" {
      OutputStep(s, line, env);
      assert [s[0]] + s[1..] == s;
      NoDollars(s[1..], line + Newlines([s[0]]), env);
    }
  }

  lemma ThenTwice(a: string, b: string, r: Result, rest: Result)
    requires r == Then(b, rest)
    ensures Then(a, r) == Then(a + b, rest)
  {
    if rest.Expanded? {
      assert a + (b + rest.text) == a + b + rest.text;
    }
  }

  /** The token at byte i, as the loop tests for it. */
  lemma FrontAt(data: string, i: nat)
    requires i < |data|
    ensures var t := Front(data[i..], LineOf(data, i));
            if data[i] != '$' then t == Plain(data[i])
            else if i + 2 < |data| && data[i + 1] == '$' && data[i + 2] == '{' then t == Escaped
            else if i + 1 >= |data| || data[i + 1] != '{' then t == Plain('$')
            else
              var end := Closing(data[i + 2..]);
              if end < 0 then t == Broken(Unterminated(LineOf(data, i)))
              else if !ValidName(data[i + 2..][..end]) then t == Broken(NotAName(data[i + 2..][..end], LineOf(data, i)))
              else t == Ref(data[i + 2..][..end]) && |Spelling(t)| == end + 3
  {
    assert i + 1 < |data| ==> data[i..][2..] == data[i + 2..] || i + 2 > |data|;
  }

  /** One turn of the loop, at a token that becomes some text: from `s` on to what follows it. */
  lemma Advance(s: string, line: nat, env: Env, out: string, t: Token, m: Result, s': string, line': nat)
    requires s != "" && t == Front(s, line) && m == Meaning(t, env, line) && m.Expanded?
    requires |Spelling(t)| <= |s| && s' == s[|Spelling(t)|..] && line' == line + Newlines(Spelling(t))
    ensures Then(out, Output(s, line, env)) == Then(out + m.text, Output(s', line', env))
  {
    OutputGoesOn(s, line, env, t, m, s', line');
    ThenTwice(out, m.text, Output(s, line, env), Output(s', line', env));
  }

  /** Where the token after the one at byte i stands. */
  lemma NextAt(data: string, i: nat, t: Token)
    requires i < |data| && t == Front(data[i..], LineOf(data, i)) && !t.Broken?
    ensures i + |Spelling(t)| <= |data| && data[i..][|Spelling(t)|..] == data[i + |Spelling(t)|..]
    ensures LineOf(data, i + |Spelling(t)|) == LineOf(data, i) + Newlines(Spelling(t))
  {
    FrontIsPrefix(data[i..], LineOf(data, i));
    LineMoves(data, i, Spelling(t));
    Onward(data, i, |Spelling(t)|);
  }

  /** The same at byte i. */
  lemma AdvanceAt(data: string, i: nat, env: Env, out: string, t: Token, m: Result)
    requires i < |data| && t == Front(data[i..], LineOf(data, i)) && m == Meaning(t, env, LineOf(data, i)) && m.Expanded?
    ensures i + |Spelling(t)| <= |data|
    ensures Then(out, Output(data[i..], LineOf(data, i), env)) ==
            Then(out + m.text, Output(data[i + |Spelling(t)|..], LineOf(data, i + |Spelling(t)|), env))
  {
    NextAt(data, i, t);
    var i' := i + |Spelling(t)|;
    Advance(data[i..], LineOf(data, i), env, out, t, m, data[i'..], LineOf(data, i'));
  }

  /** The last turn of the loop, at a token that cannot be expanded. */
  lemma Stops(data: string, i: nat, env: Env, out: string, m: Result)
    requires i < |data| && m == Meaning(Front(data[i..], LineOf(data, i)), env, LineOf(data, i)) && m.Failed?
    ensures Then(out, Output(data[i..], LineOf(data, i), env)) == m
  {
    OutputFails(data[i..], LineOf(data, i), env);
  }

  /** The loop's body: the text of the token at byte i, and where the next one starts. */
  method Turn(data: string, i: nat, env: Env) returns (piece: Result, next: nat)
    requires i < |data|
    ensures var t := Front(data[i..], LineOf(data, i));
            piece == Meaning(t, env, LineOf(data, i)) && (piece.Expanded? ==> next == i + |Spelling(t)|)
  {
    FrontAt(data, i);
    if data[i] != '$' {
      return Expanded([data[i]]), i + 1;
    }
    if i + 2 < |data| && data[i + 1] == '$' && data[i + 2] == '{' {
      return Expanded("$"), i + 2;
    }
    if i + 1 >= |data| || data[i + 1] != '{' {
      return Expanded("$"), i + 1;
    }
    var end := Closing(data[i + 2..]);
    if end < 0 {
      return Failed(Unterminated(LineOf(data, i))), i;
    }
    var name, line := data[i + 2..][..end], LineOf(data, i);
    var valid := ValidEnvName(name);
    if !valid {
      return Failed(NotAName(name, line)), i;
    }
    if name !in env || env[name] == "" {
      return Failed(Unset(name, line)), i;
    }
    if '\n' in env[name] || '\r' in env[name] {
      return Failed(ManyLines(name, line)), i;
    }
    return Expanded(env[name]), i + 2 + end + 1;
  }

  /** What was written so far, and what is left from byte i on, make up the document's expansion. */
  ghost predicate Upto(data: string, i: nat, env: Env, out: string) {
    i <= |data| && Then(out, Output(data[i..], LineOf(data, i), env)) == Expand(data, env)
  }

  /** One turn: the text of a token written, or the error the expansion ends with. */
  method WriteToken(data: string, i: nat, env: Env, out: string) returns (failed: Option<Result>, out': string, next: nat)
    requires i < |data| && Upto(data, i, env, out)
    ensures failed.Some? ==> failed.value == Expand(data, env)
    ensures failed.None? ==> i < next && Upto(data, next, env, out')
  {
    FrontIsNonempty(data[i..], LineOf(data, i));
    var piece;
    piece, next := Turn(data, i, env);
    if piece.Failed? {
      Stops(data, i, env, out, piece);
      return Some(piece), out, i;
    }
    AdvanceAt(data, i, env, out, Front(data[i..], LineOf(data, i)), piece);
    failed, out' := None, out + piece.text;
  }

  /** The scanning loop computes exactly the rendering of the document's tokens. */
  method ExpandEnv(data: string, env: Env) returns (r: Result)
    ensures r == Expand(data, env)
  {
    assert data[0..] == data && data[..0] == "";
    if '$' !in data {
      NoDollars(data, 1, env);
      return Expanded(data);
    }
    var out := "";
    var i := 0;
    while i < |data|
      invariant Upto(data, i, env, out)
      decreases |data| - i
    {
      var failed;
      failed, out, i := WriteToken(data, i, env, out);
      if failed.Some? {
        return failed.value;
      }
    }
    assert data[i..] == "";
    r := Expanded(out);
  }

  // ------------------------------------------------------------ properties

  /** The printer: each "${" written as "$${". */
  function Escape(text: string): string {
    if text == "" then ""
    else (if "${" <= text then "$$" else [text[0]]) + Escape(text[1..])
  }

  /** An escaped text starts with a brace exactly when the text does, and never with "${". */
  lemma {:induction false} EscapeFront(text: string)
    ensures Escape(text) != "" <==> text != ""
    ensures text != "" ==> Escape(text)[0] == text[0]
    ensures !("${" <= Escape(text))
  {
    if "$" <= text && |text| > 1 && !("${" <= text) {
      assert Escape(text) == "$" + Escape(text[1..]);
      assert Escape(text[1..])[0] == text[1];
    }
  }

  /** The scanner takes the front of an escaped text for one character of the text. */
  lemma {:induction false} EscapedFront(text: string, line: nat)
    requires text != ""
    ensures var t := Front(Escape(text), line);
            && t == (if "${" <= text then Escaped else Plain(text[0]))
            && |Spelling(t)| <= |Escape(text)| && Escape(text)[|Spelling(t)|..] == Escape(text[1..])
  {
    var e, rest := Escape(text), Escape(text[1..]);
    EscapeFront(text[1..]);
    if "${" <= text {
      assert e == "$$" + rest && rest[0] == '{';
      assert e[2..] == rest;
    } else {
      assert e == [text[0]] + rest && e[1..] == rest;
      assert "$${" <= e ==> "${" <= rest;
    }
  }

  /** One character of an escaped text is expanded to that character. */
  lemma EscapedStep(text: string, line: nat, env: Env) returns (line': nat)
    requires text != ""
    ensures Output(Escape(text), line, env) == Then([text[0]], Output(Escape(text[1..]), line', env))
  {
    EscapedFront(text, line);
    EscapeFront(text);
    OutputStep(Escape(text), line, env);
    line' := line + Newlines(Spelling(Front(Escape(text), line)));
  }

  lemma {:induction false} InvertsEscape(text: string, line: nat, env: Env, r: Result)
    requires r == Output(Escape(text), line, env)
    ensures r == Expanded(text)
    decreases |text|
  {
    if text != "" {
      var line' := EscapedStep(text, line, env);
      InvertsEscape(text[1..], line', env, Output(Escape(text[1..]), line', env));
      assert [text[0]] + text[1..] == text;
    }
  }

  /** Expansion inverts escaping, for every text and environment, through any run of dollars. */
  lemma {:induction false} ExpandInvertsEscape(text: string, line: nat, env: Env)
    ensures Output(Escape(text), line, env) == Expanded(text)
  {
    InvertsEscape(text, line, env, Output(Escape(text), line, env));
  }

  function Spelled(ts: seq<(Token, nat)>): string {
    if ts == [] then "" else Spelling(ts[0].0) + Spelled(ts[1..])
  }

  lemma {:induction false} SpelledStep(x: (Token, nat), rest: seq<(Token, nat)>)
    ensures Spelled([x] + rest) == Spelling(x.0) + Spelled(rest)
  {
    assert ([x] + rest)[1..] == rest;
  }

  /** `ts` spells `s`, or breaks off in it. */
  ghost predicate Spells(ts: seq<(Token, nat)>, s: string) {
    Spelled(ts) <= s && (Spelled(ts) == s || (ts != [] && ts[|ts| - 1].0.Broken?))
  }

  lemma SpellsMore(x: (Token, nat), rest: seq<(Token, nat)>, s: string, tail: string)
    requires s == Spelling(x.0) + tail && Spells(rest, tail)
    ensures Spells([x] + rest, s)
  {
    SpelledStep(x, rest);
    assert Spelled(rest) == tail[..|Spelled(rest)|];
    if rest != [] {
      assert ([x] + rest)[|rest|] == rest[|rest| - 1];
    }
  }

  lemma SpellsBroken(x: (Token, nat), s: string)
    requires x.0.Broken?
    ensures Spells([x], s)
  {
    SpelledStep(x, []);
    assert [x] + [] == [x];
  }

  /** Where the scanner goes next, and from which line. */
  lemma {:induction false} ScanStep(s: string, line: nat) returns (t: Token, tail: string, line': nat)
    requires s != "" && !Front(s, line).Broken?
    ensures |tail| < |s| && s == Spelling(t) + tail && Tokens(s, line) == [(t, line)] + Tokens(tail, line')
  {
    t := Front(s, line);
    FrontIsPrefix(s, line);
    tail, line' := s[|Spelling(t)|..], line + Newlines(Spelling(t));
    var rest := TokensGoOn(s, line, t, tail, line');
  }

  lemma {:induction false} ScannedWhole(s: string, line: nat, ts: seq<(Token, nat)>)
    requires ts == Tokens(s, line)
    ensures Spells(ts, s)
    decreases |s|
  {
    if s == "" {
      assert ts == [];
    } else if Front(s, line).Broken? {
      SpellsBroken((Front(s, line), line), s);
    } else {
      var t, tail, line' := ScanStep(s, line);
      ScannedWhole(tail, line', Tokens(tail, line'));
      SpellsMore((t, line), Tokens(tail, line'), s, tail);
    }
  }

  /** The document is scanned once and whole: up to the first broken token, the tokens' spellings are its text. */
  lemma {:induction false} TokensSpellDocument(s: string, line: nat)
    ensures var ts := Tokens(s, line);
            Spelled(ts) <= s && (Spelled(ts) == s || (ts != [] && ts[|ts| - 1].0.Broken?))
  {
    ScannedWhole(s, line, Tokens(s, line));
  }

  /** Expansion keeps the lines: the result has as many newlines as the document. */
  lemma {:induction false} ExpansionKeepsLines(s: string, line: nat, env: Env)
    ensures Output(s, line, env).Expanded? ==> Newlines(Output(s, line, env).text) == Newlines(s)
    decreases |s|
  {
    if s != "" && Output(s, line, env).Expanded? {
      var t := Front(s, line);
      var m := Meaning(t, env, line);
      OutputStep(s, line, env);
      FrontIsPrefix(s, line);
      var tail, line' := s[|Spelling(t)|..], line + Newlines(Spelling(t));
      ExpansionKeepsLines(tail, line', env);
      assert s == Spelling(t) + tail;
      NewlinesConcat(Spelling(t), tail);
      NewlinesConcat(m.text, Output(tail, line', env).text);
      MeaningKeepsLines(s, line, env);
    }
  }

  lemma MeaningKeepsLines(s: string, line: nat, env: Env)
    requires s != "" && Meaning(Front(s, line), env, line).Expanded?
    ensures Newlines(Meaning(Front(s, line), env, line).text) == Newlines(Spelling(Front(s, line)))
  {
    var t := Front(s, line);
    FrontIsPrefix(s, line);
    if t.Ref? {
      NoNewlines(env[t.name]);
    } else if t.Escaped? {
      NoNewlines("$");
    }
  }

  /** Expansion succeeds exactly when the document scans and every variable it names is usable. */
  lemma {:induction false} SucceedsExactlyWhen(ts: seq<(Token, nat)>, env: Env)
    ensures Render(ts, env).Expanded? <==>
            forall i :: 0 <= i < |ts| ==> !ts[i].0.Broken? && (ts[i].0.Ref? ==> Usable(env, ts[i].0.name))
  {
    if ts != [] {
      SucceedsExactlyWhen(ts[1..], env);
      assert forall i :: 0 < i < |ts| ==> ts[i] == ts[1..][i - 1];
    }
  }

  /** Only the variables a document names can change what it expands to, or whether it does. */
  lemma {:induction false} DependsOnNamedOnly(ts: seq<(Token, nat)>, a: Env, b: Env)
    requires forall i :: 0 <= i < |ts| && ts[i].0.Ref? ==>
                         (ts[i].0.name in a <==> ts[i].0.name in b) && (ts[i].0.name in a ==> a[ts[i].0.name] == b[ts[i].0.name])
    ensures Render(ts, a) == Render(ts, b)
  {
    if ts != [] {
      DependsOnNamedOnly(ts[1..], a, b);
    }
  }

  // ---------------------------------------------- what each construct becomes
  //
  // Together these say what every document expands to: it is empty, or begins with a reference,
  // an unfinished one, an escape, or any other character.

  lemma NothingExpands(line: nat, env: Env)
    ensures Output("", line, env) == Expanded("")
  {
  }

  lemma {:induction false} ClosingOf(name: string, b: string)
    requires '}' !in name
    ensures Closing(name + "}" + b) == |name|
  {
    var s := name + "}" + b;
    if name == "" {
      assert s[0] == '}';
    } else {
      assert s[1..] == name[1..] + "}" + b;
      ClosingOf(name[1..], b);
    }
  }

  lemma {:induction false} ReferenceFront(name: string, b: string, line: nat)
    requires '}' !in name
    ensures var s := "${" + name + "}" + b;
            && Front(s, line) == (if ValidName(name) then Ref(name) else Broken(NotAName(name, line)))
            && s[|name| + 3..] == b
  {
    var s := "${" + name + "}" + b;
    assert s[2..] == name + "}" + b;
    ClosingOf(name, b);
    assert s[2..][..|name|] == name;
    assert s[0] == '$' && s[1] == '{';
  }

  /** `${NAME}` becomes the variable's value; a name that is none, a variable that is not set, or a value with a line break is the error. */
  lemma {:induction false} ReferenceBecomesValue(name: string, b: string, line: nat, env: Env)
    requires '}' !in name
    ensures Output("${" + name + "}" + b, line, env) ==
            if !ValidName(name) then Failed(NotAName(name, line))
            else if name !in env || env[name] == "" then Failed(Unset(name, line))
            else if '\n' in env[name] || '\r' in env[name] then Failed(ManyLines(name, line))
            else Then(env[name], Output(b, line, env))
  {
    var s := "${" + name + "}" + b;
    ReferenceFront(name, b, line);
    OutputStep(s, line, env);
    if ValidName(name) {
      assert |Spelling(Ref(name))| == |name| + 3;
      NameHasNoNewline(name);
      NoNewlines(Spelling(Ref(name)));
    }
  }

  lemma NameHasNoNewline(name: string)
    requires ValidName(name)
    ensures '\n' !in Spelling(Ref(name))
  {
  }

  /** `${` that nothing closes is the error. */
  lemma {:induction false} UnfinishedFails(b: string, line: nat, env: Env)
    requires '}' !in b
    ensures Output("${" + b, line, env) == Failed(Unterminated(line))
  {
    var s := "${" + b;
    assert s[2..] == b && s[0] == '$' && s[1] == '{';
    OutputStep(s, line, env);
  }

  /** Any character that begins neither `${` nor `$${` is copied, dollars among them. */
  lemma {:induction false} OthersAreCopied(c: char, b: string, line: nat, env: Env)
    requires c == '$' ==> !("{" <= b) && !("${" <= b)
    ensures Output([c] + b, line, env) == Then([c], Output(b, if c == '\n' then line + 1 else line, env))
  {
    var s := [c] + b;
    assert s[1..] == b && (s[0] == '$' && |s| > 1 ==> s[1] == b[0]);
    assert "${" <= s ==> "{" <= b;
    assert "$${" <= s ==> "${" <= b;
    OutputStep(s, line, env);
    assert Newlines([c]) == if c == '\n' then 1 else 0 by {
      assert [c][1..] == "";
    }
  }

  /** `$${` becomes a literal `${`. */
  lemma {:induction false} EscapeBecomesLiteral(b: string, line: nat, env: Env)
    ensures Output("$${" + b, line, env) == Then("${", Output(b, line, env))
  {
    var s := "$${" + b;
    assert s[2..] == "{" + b && s[0] == '$' && "$${" <= s;
    OutputStep(s, line, env);
    NoNewlines("$$");
    OthersAreCopied('{', b, line, env);
    assert "{" + b == ['{'] + b;
    ThenTwice("$", "{", Output("{" + b, line, env), Output(b, line, env));
  }

  const CAPITALS := "ABCDEFGHIJKLMNOPQRSTUVWXYZ"
  const SMALLS := "abcdefghijklmnopqrstuvwxyz"
  const DIGITS := "0123456789"

  /** The characters a name may be made of, digits aside. */
  predicate Plainly(c: char) {
    c in CAPITALS || c in SMALLS || c == '_'
  }

  lemma Alphabet(c: char)
    ensures Plainly(c) <==> Letter(c)
    ensures c in DIGITS <==> '0' <= c <= '9'
  {
    assert forall j :: 0 <= j < 26 ==> CAPITALS[j] as int == 'A' as int + j;
    assert forall j :: 0 <= j < 26 ==> SMALLS[j] as int == 'a' as int + j;
    assert forall j :: 0 <= j < 10 ==> DIGITS[j] as int == '0' as int + j;
    if 'A' <= c <= 'Z' {
      assert CAPITALS[c as int - 'A' as int] == c;
    } else if 'a' <= c <= 'z' {
      assert SMALLS[c as int - 'a' as int] == c;
    } else if '0' <= c <= '9' {
      assert DIGITS[c as int - '0' as int] == c;
    }
  }

  /** A name is letters, underscores and digits, at least one of them, and does not begin with a digit. */
  lemma NamesArePlain(name: string)
    ensures ValidName(name) <==>
            name != "" && name[0] !in DIGITS && forall c :: c in name ==> Plainly(c) || c in DIGITS
  {
    forall c
      ensures (Plainly(c) <==> Letter(c)) && (c in DIGITS <==> '0' <= c <= '9')
    {
      Alphabet(c);
    }
    if ValidName(name) {
      forall c | c in name
        ensures Plainly(c) || c in DIGITS
      {
        var i :| 0 <= i < |name| && name[i] == c;
      }
    }
  }

  /** Text without a dollar is copied, and what follows is expanded from the line it stands on. */
  lemma {:induction false} TextIsCopied(a: string, b: string, line: nat, env: Env)
    requires '$' !in a
    ensures Output(a + b, line, env) == Then(a, Output(b, line + Newlines(a), env))
    decreases |a|
  {
    if a == "" {
      assert a + b == b;
      var rest := Output(b, line, env);
      assert rest.Expanded? ==> "" + rest.text == rest.text;
    } else {
      var c, tail := a[0], a[1..];
      assert a == [c] + tail && a + b == [c] + (tail + b);
      var line' := if c == '\n' then line + 1 else line;
      OthersAreCopied(c, tail + b, line, env);
      TextIsCopied(tail, b, line', env);
      ThenTwice([c], tail, Output(tail + b, line', env), Output(b, line' + Newlines(tail), env));
    }
  }

  /** Lines count from one: a broken reference is reported on the line it stands on. */
  lemma {:induction false} ErrorsNameTheirLine(a: string, b: string, env: Env)
    requires '$' !in a && '}' !in b
    ensures Expand(a + "${" + b, env) == Failed(Unterminated(1 + Newlines(a)))
  {
    assert a + "${" + b == a + ("${" + b);
    TextIsCopied(a, "${" + b, 1, env);
    UnfinishedFails(b, 1 + Newlines(a), env);
  }
}
