/** Colour markup: the doubled-brace codes of the data files, the escape sequences of the terminal,
    and going from either to the other. A string is its bytes. */
module Colour {
  import opened Options
  import opened Sequences
  import opened Texts
  import opened ColourCodes

  const ESC: char := 0x1B as char

  // ----- from the data's codes to tokens, and to the terminal -------------

  datatype Token = Text(text: string) | Code(code: string)

  datatype Level = Off | On

  predicate HasPrefix(s: string, p: string) {
    |p| <= |s| && s[..|p|] == p
  }

  predicate Closes(s: string, j: int) {
    0 <= j && j + 2 <= |s| && s[j] == '}' && s[j + 1] == '}'
  }

  /** Where "}}" first is in s, or -1. */
  function Closing(s: string): (k: int)
    ensures k == -1 || Closes(s, k)
    ensures forall j | Closes(s, j) :: 0 <= k <= j
  {
    if |s| < 2 then -1
    else if s[0] == '}' && s[1] == '}' then 0
    else
      assert forall j | Closes(s, j) :: Closes(s[1..], j - 1);
      if Closing(s[1..]) < 0 then -1 else Closing(s[1..]) + 1
  }

  function Flush(text: string): seq<Token> {
    if text == "" then [] else [Text(text)]
  }

  predicate IsCode(inner: string) {
    HasPrefix(inner, "sgr:") || CodeOf(inner).Some?
  }

  /** The tokens of s, when `text` has been gathered before it. */
  function Tokens(text: string, s: string): seq<Token>
    decreases |s|
  {
    if s == "" then Flush(text)
    else
      var k := if HasPrefix(s, "{{") then Closing(s[2..]) else -1;
      if k < 0 then Tokens(text + [s[0]], s[1..])
      else
        var inner, rest := s[2..2 + k], s[k + 4..];
        if inner == "lbrace" then Tokens(text + "{{", rest)
        else if IsCode(inner) then Flush(text) + [Code(inner)] + Tokens("", rest)
        else Tokens(text + s[..k + 4], rest)
  }

  lemma Drops(s: string, i: nat, k: nat)
    requires i + k <= |s|
    ensures s[i..][k..] == s[i + k..] && s[i..][..k] == s[i..i + k]
    ensures forall j | 0 <= j <= k :: s[i..][j..k] == s[i + j..i + k]
  {
  }

  /** One turn of the scanner: what is gathered, what is finished, and how much is read. */
  method NextToken(s: string, text: string) returns (done: seq<Token>, gathered: string, read: nat)
    requires s != ""
    ensures 0 < read <= |s| && done + Tokens(gathered, s[read..]) == Tokens(text, s)
  {
    hide CodeOf, IsCode;
    var end := if HasPrefix(s, "{{") then Closing(s[2..]) else -1;
    if end < 0 {
      return [], text + [s[0]], 1;
    }
    var inner := s[2..2 + end];
    read := end + 4;
    if inner == "lbrace" {
      return [], text + "{{", read;
    }
    if IsCode(inner) {
      return Flush(text) + [Code(inner)], "", read;
    }
    return [], text + s[..read], read;
  }

  method ParseColour(s: string) returns (out: seq<Token>)
    ensures out == Tokens("", s)
  {
    hide *;
    out := [];
    var text, i := "", 0;
    assert s[0..] == s;
    while i < |s|
      invariant 0 <= i <= |s|
      invariant out + Tokens(text, s[i..]) == Tokens("", s)
    {
      var done, gathered, read := NextToken(s[i..], text);
      Drops(s, i, read);
      Associates(out, done, Tokens(gathered, s[i + read..]));
      out, text, i := out + done, gathered, i + read;
    }
    assert s[i..] == "";
    TokensEnd(text);
    out := out + Flush(text);
  }

  lemma TokensEnd(text: string)
    ensures Tokens(text, "") == Flush(text)
  {
  }

  function SgrParam(code: string): Option<string> {
    if HasPrefix(code, "sgr:") then Some(code[4..]) else CodeOf(code)
  }

  function Escape(params: string): string {
    [ESC, '['] + params + "m"
  }

  function Shown(t: Token, level: Level): string {
    match t
    case Text(text) => text
    case Code(code) =>
      match SgrParam(code)
      case None => ""
      case Some(sgr) => if level == Off then "" else Escape(sgr)
  }

  function Rendered(tokens: seq<Token>, level: Level): string {
    if tokens == [] then "" else Shown(tokens[0], level) + Rendered(tokens[1..], level)
  }

  method RenderANSI(tokens: seq<Token>, level: Level) returns (b: string)
    ensures b == Rendered(tokens, level)
  {
    hide Rendered, Shown;
    b := "";
    RenderedEnd(level);
    assert tokens[0..] == tokens;
    for i := 0 to |tokens|
      invariant b + Rendered(tokens[i..], level) == Rendered(tokens, level)
    {
      RenderedStep(tokens, i, level);
      Associates(b, Shown(tokens[i], level), Rendered(tokens[i + 1..], level));
      b := b + Shown(tokens[i], level);
    }
    assert tokens[|tokens|..] == [];
  }

  lemma RenderedStep(tokens: seq<Token>, i: nat, level: Level)
    requires i < |tokens|
    ensures Rendered(tokens[i..], level) == Shown(tokens[i], level) + Rendered(tokens[i + 1..], level)
  {
    assert tokens[i..][1..] == tokens[i + 1..];
  }

  lemma RenderedEnd(level: Level)
    ensures Rendered([], level) == ""
  {
  }

  /** PromoteANSI. */
  method PromoteANSI(s: string) returns (r: string)
    ensures r == Promoted(s)
  {
    var tokens := ParseColour(s);
    r := RenderANSI(tokens, On);
  }

  function Promoted(s: string): string {
    Rendered(Tokens("", s), On)
  }

  function Stripped(s: string): string {
    Rendered(Tokens("", s), Off)
  }

  /** Strip writes the text of every token, and a code has none. */
  method Strip(s: string) returns (b: string)
    ensures b == Stripped(s)
  {
    hide Tokens, Shown, Rendered;
    var tokens := ParseColour(s);
    b := "";
    RenderedEnd(Off);
    assert tokens[0..] == tokens;
    for i := 0 to |tokens|
      invariant b + Rendered(tokens[i..], Off) == Rendered(tokens, Off)
    {
      RenderedStep(tokens, i, Off);
      Associates(b, Shown(tokens[i], Off), Rendered(tokens[i + 1..], Off));
      ShownOff(tokens[i]);
      if tokens[i].Text? {
        b := b + tokens[i].text;
      }
    }
    assert tokens[|tokens|..] == [];
  }

  lemma ShownOff(t: Token)
    ensures Shown(t, Off) == if t.Text? then t.text else ""
  {
  }

  // ----- from the terminal's sequences to codes ---------------------------

  /** The length of the sequence s begins with, or 0. */
  function SequenceAt(s: string): (n: nat)
    ensures n <= |s| && (n > 0 ==> n >= 3)
    ensures n > 0 ==> s[0] == ESC && s[1] == '[' && s[n - 1] == 'm' && 'm' !in s[..n - 1]
    ensures n > 0 ==> s == Escape(s[2..n - 1]) + s[n..]
  {
    if |s| >= 2 && s[0] == ESC && s[1] == '[' && 'm' in s then IndexOf(s, 'm') + 1 else 0
  }

  /** What is written for a sequence with these parameters. */
  function Written(params: string): string {
    match NameOf(Normal(params))
    case Some(name) => "{{" + name + "}}"
    case None => "{{sgr:" + params + "}}"
  }

  function Demoted(s: string): string {
    if s == "" then ""
    else
      var n := SequenceAt(s);
      if n == 0 then [s[0]] + Demoted(s[1..]) else Written(s[2..n - 1]) + Demoted(s[n..])
  }

  /** What a turn of the loop writes and reads. */
  method NextDemoted(s: string) returns (w: string, read: nat)
    requires s != ""
    ensures 0 < read <= |s| && w + Demoted(s[read..]) == Demoted(s)
  {
    hide Normal, NameOf;
    var n := SequenceAt(s);
    if n == 0 {
      return [s[0]], 1;
    }
    var params := s[2..n - 1];
    var normal := NormaliseSGR(params);
    match NameOf(normal) {
      case Some(name) => return "{{" + name + "}}", n;
      case None => return "{{sgr:" + params + "}}", n;
    }
  }

  method DemoteANSI(s: string) returns (b: string)
    ensures b == Demoted(s)
  {
    hide *;
    b := "";
    var i := 0;
    assert s[0..] == s;
    while i < |s|
      invariant 0 <= i <= |s|
      invariant b + Demoted(s[i..]) == Demoted(s)
    {
      var w, read := NextDemoted(s[i..]);
      Drops(s, i, read);
      Associates(b, w, Demoted(s[i + read..]));
      b, i := b + w, i + read;
    }
    assert s[i..] == "";
    DemotedEnd();
  }

  lemma DemotedEnd()
    ensures Demoted("") == ""
  {
  }
}
