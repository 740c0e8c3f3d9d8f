/** From the terminal's sequences to the data's codes and back: which text survives, exactly. */
module ColourRoundTrip {
  import opened Options
  import opened Sequences
  import opened Texts
  import opened ColourCodes
  import opened Colour

  /** A sequence's parameters as screen.h spells them, when it has a name for them. */
  function Canonical(params: string): string {
    if NameOf(Normal(params)).Some? then Normal(params) else params
  }

  /** s with each of its sequences respelled, or left as it is. */
  function Target(s: string, exact: bool): string {
    if s == "" then ""
    else
      var n := SequenceAt(s);
      if n == 0 then [s[0]] + Target(s[1..], exact)
      else Escape(if exact then s[2..n - 1] else Canonical(s[2..n - 1])) + Target(s[n..], exact)
  }

  function Respelled(s: string): string {
    Target(s, false)
  }

  /** s without its sequences. */
  function Bare(s: string): string {
    if s == "" then ""
    else
      var n := SequenceAt(s);
      if n == 0 then [s[0]] + Bare(s[1..]) else Bare(s[n..])
  }

  /** How much of s comes before its first sequence. */
  function Quiet(s: string): (q: nat)
    ensures q <= |s|
  {
    if s == "" || SequenceAt(s) > 0 then 0 else Quiet(s[1..]) + 1
  }

  /** What can be between the codes of a sequence: no "}}", and no brace that makes one with them. */
  predicate Clean(params: string) {
    Closing(params + "}}") == |params|
  }

  /** Between doubled braces this is neither a code nor the word for a doubled brace. */
  predicate Ordinary(span: string) {
    span != "lbrace" && !IsCode(span)
  }

  /** Whether s comes back respelled or, when exact, as it is. Parameters must be clean and, when
      exact, spelt as screen.h does. A brace that stands before a sequence, or before another brace
      with a sequence after them and no "}}" between, is lost; so is a doubled brace whose "}}" makes
      a code or the word for a doubled brace of it. */
  predicate Returns(s: string, exact: bool) {
    if s == "" then true
    else
      var n := SequenceAt(s);
      if n > 0 then
        && Clean(s[2..n - 1]) && (exact ==> Canonical(s[2..n - 1]) == s[2..n - 1])
        && Returns(s[n..], exact)
      else if s[0] != '{' then Returns(s[1..], exact)
      else
        var q := Quiet(s);
        if q == 1 then |s| == 1
        else if s[1] != '{' then Returns(s[1..], exact)
        else
          var k := Closing(s[2..q]);
          if k < 0 then q == |s| && Returns(s[1..], exact)
          else Ordinary(s[2..2 + k]) && Returns(s[k + 4..], exact)
  }

  predicate Survives(s: string) {
    Returns(s, false)
  }

  // ----- the scanner, one step at a time ----------------------------------

  function Seen(d: string, level: Level): string {
    Rendered(Tokens("", d), level)
  }

  /** Where the doubled brace d begins with is closed, or -1. */
  function ClosedAt(d: string): int {
    if HasPrefix(d, "{{") then Closing(d[2..]) else -1
  }

  lemma FlushShown(text: string, ts: seq<Token>, level: Level)
    ensures Rendered(Flush(text) + ts, level) == text + Rendered(ts, level)
  {
    if text != "" {
      assert (Flush(text) + ts)[1..] == ts;
    } else {
      assert Flush(text) + ts == ts;
    }
  }

  lemma CodeShown(text: string, code: string, ts: seq<Token>, level: Level)
    ensures Rendered(Flush(text) + [Code(code)] + ts, level) == text + (Shown(Code(code), level) + Rendered(ts, level))
  {
    hide Shown;
    assert Flush(text) + [Code(code)] + ts == Flush(text) + ([Code(code)] + ts);
    FlushShown(text, [Code(code)] + ts, level);
    assert ([Code(code)] + ts)[1..] == ts;
  }

  lemma TokensStep(text: string, d: string)
    requires d != ""
    ensures ClosedAt(d) < 0 ==> Tokens(text, d) == Tokens(text + [d[0]], d[1..])
    ensures ClosedAt(d) >= 0 ==>
              var k := ClosedAt(d);
              && k + 4 <= |d|
              && Tokens(text, d) ==
                 if d[2..2 + k] == "lbrace" then Tokens(text + "{{", d[k + 4..])
                 else if IsCode(d[2..2 + k]) then Flush(text) + [Code(d[2..2 + k])] + Tokens("", d[k + 4..])
                 else Tokens(text + d[..k + 4], d[k + 4..])
  {
    hide IsCode, Flush, Closing, HasPrefix;
    PrefixFits(d);
  }

  lemma PrefixFits(d: string)
    ensures HasPrefix(d, "{{") ==> |d| >= 2
  {
  }

  /** What has been gathered is shown first, and changes nothing after. */
  lemma {:induction false} TextFirst(text: string, d: string, level: Level)
    ensures Rendered(Tokens(text, d), level) == text + Seen(d, level)
    decreases |d|, 0
  {
    hide Tokens, Rendered, IsCode, Closing, HasPrefix, Shown, Flush;
    if d == "" {
      NothingSeen(text, level);
      NothingSeen("", level);
    } else {
      TokensStep(text, d);
      TokensStep("", d);
      var k := ClosedAt(d);
      if k < 0 {
        TextTwice(text, [d[0]], d[1..], level);
      } else if d[2..2 + k] == "lbrace" {
        TextTwice(text, "{{", d[k + 4..], level);
      } else if IsCode(d[2..2 + k]) {
        CodeShown(text, d[2..2 + k], Tokens("", d[k + 4..]), level);
        CodeShown("", d[2..2 + k], Tokens("", d[k + 4..]), level);
        assert forall t: string :: "" + t == t;
      } else {
        TextTwice(text, d[..k + 4], d[k + 4..], level);
      }
    }
  }

  lemma {:induction false} TextTwice(text: string, more: string, d: string, level: Level)
    ensures Rendered(Tokens(text + more, d), level) == text + Rendered(Tokens("" + more, d), level)
    decreases |d|, 1
  {
    TextFirst(text + more, d, level);
    TextFirst("" + more, d, level);
    assert "" + more == more;
    Associates(text, more, Seen(d, level));
  }

  lemma NothingSeen(text: string, level: Level)
    ensures Rendered(Tokens(text, ""), level) == text
  {
    FlushShown(text, [], level);
    assert Flush(text) + [] == Flush(text);
  }

  /** What the scanner shows of d: a character, or a code, or a span that is none. */
  lemma SeenStep(d: string, level: Level)
    requires d != ""
    ensures ClosedAt(d) < 0 ==> Seen(d, level) == [d[0]] + Seen(d[1..], level)
    ensures ClosedAt(d) >= 0 ==>
              var k := ClosedAt(d);
              && k + 4 <= |d|
              && Seen(d, level) ==
                 (if d[2..2 + k] == "lbrace" then "{{"
                  else if IsCode(d[2..2 + k]) then Shown(Code(d[2..2 + k]), level)
                  else d[..k + 4]) + Seen(d[k + 4..], level)
  {
    hide Rendered, IsCode, Closing, HasPrefix, Shown, Flush, Tokens;
    TokensStep("", d);
    var k := ClosedAt(d);
    if k < 0 {
      TextFirst("" + [d[0]], d[1..], level);
      assert "" + [d[0]] == [d[0]];
    } else if d[2..2 + k] == "lbrace" {
      TextFirst("" + "{{", d[k + 4..], level);
      assert "" + "{{" == "{{";
    } else if IsCode(d[2..2 + k]) {
      CodeShown("", d[2..2 + k], Tokens("", d[k + 4..]), level);
      assert forall t: string :: "" + t == t;
    } else {
      TextFirst("" + d[..k + 4], d[k + 4..], level);
      assert "" + d[..k + 4] == d[..k + 4];
    }
  }

  // ----- one sequence -----------------------------------------------------

  lemma {:induction false} SplitHas(s: string, c: char) returns (i: nat)
    requires c in s && c != ';'
    ensures i < |Split(s)| && c in Split(s)[i]
    decreases |s|
  {
    hide Split, IndexOf;
    SplitStep(s);
    var k := IndexOf(s, ';');
    i := 0;
    if k < |s| && c !in s[..k] {
      CutAt(s, k);
      i := SplitHas(s[k + 1..], c);
      i := i + 1;
    } else if k == |s| {
      assert s[..k] == s;
    }
  }

  lemma SplitStep(s: string)
    ensures var k := IndexOf(s, ';');
      Split(s) == if k == |s| then [s] else [s[..k]] + Split(s[k + 1..])
  {
    hide IndexOf;
  }

  lemma CutAt(s: string, k: nat)
    requires k < |s|
    ensures forall c :: c in s ==> c in s[..k] || c == s[k] || c in s[k + 1..]
  {
    assert s == s[..k] + [s[k]] + s[k + 1..];
  }

  lemma NumbersHaveNoBrace(p: string)
    requires Atoi(p).Some?
    ensures '}' !in p
  {
    assert p == [p[0]] + p[1..];
  }

  /** What has a name holds no brace. */
  lemma NamedIsPlain(params: string)
    requires NameOf(Normal(params)).Some?
    ensures '}' !in params
  {
    if '}' in params {
      if Numbers(Split(params)).Some? {
        var i := SplitHas(params, '}');
        assert Split(params)[i] in Split(params);
        NumbersHaveNoBrace(Split(params)[i]);
      } else {
        NamedPlain(Normal(params));
      }
    }
  }

  lemma NamedPlain(sgr: string)
    requires NameOf(sgr).Some?
    ensures '}' !in sgr
  {
    hide Normal, NAMED;
    var n :| n in NAMED && n.name == NameOf(sgr).value && Normal(n.sgr) == sgr;
    Rows(n);
  }

  /** A name that is found can be read back, and names the code it was found for. */
  lemma NameIsUsable(sgr: string)
    requires NameOf(sgr).Some?
    ensures var name := NameOf(sgr).value;
      && CodeOf(name) == Some(sgr) && '}' !in name && name != "lbrace" && !HasPrefix(name, "sgr:")
    ensures 'm' !in sgr
  {
    hide Normal, NAMED;
    var name := NameOf(sgr).value;
    var n :| n in NAMED && n.name == name && Normal(n.sgr) == sgr;
    Rows(n);
    var code := CodeOf(name);
    assert code.Some?;
    Rows(Named(name, code.value));
    NamesDiffer(n, Named(name, code.value));
  }

  lemma CleanIs(p: string)
    ensures Clean(p) <==> forall j :: 0 <= j < |p| ==> !Closes(p + "}}", j)
    ensures '}' !in p ==> Clean(p)
  {
    assert Closes(p + "}}", |p|);
    assert forall j | 0 <= j < |p| :: (p + "}}")[j] == p[j];
  }

  /** What is written around inner is closed where inner ends, when inner is clean. */
  lemma ClosedAround(inner: string, rest: string)
    requires Clean(inner)
    ensures ClosedAt("{{" + inner + "}}" + rest) == |inner|
    ensures var d := "{{" + inner + "}}" + rest; d[2..2 + |inner|] == inner && d[|inner| + 4..] == rest
  {
    var d, e := "{{" + inner + "}}" + rest, inner + "}}" + rest;
    assert d[..2] == "{{" && d[2..] == e;
    CleanIs(inner);
    assert Closes(e, |inner|);
    forall j | 0 <= j < |inner| ensures !Closes(e, j) {
      assert (inner + "}}")[j] == e[j] && (inner + "}}")[j + 1] == e[j + 1];
      assert !Closes(inner + "}}", j);
    }
  }

  lemma SgrIsClean(params: string)
    ensures Clean("sgr:" + params) <==> Clean(params)
  {
    var p, q := params + "}}", "sgr:" + params + "}}";
    CleanIs(params);
    CleanIs("sgr:" + params);
    assert q == "sgr:" + p;
    forall j | 0 <= j < |params| ensures Closes(p, j) <==> Closes(q, j + 4) {
      assert p[j] == q[j + 4] && p[j + 1] == q[j + 5];
    }
    forall j | 0 <= j < 4 ensures !Closes(q, j) {
      assert q[j] == "sgr:"[j];
    }
    forall j | 4 <= j < |params| + 4 ensures Closes(q, j) <==> Closes(p, j - 4) {
    }
  }

  /** A sequence with clean parameters is read back as one code, which shows it respelled. */
  lemma WrittenSeen(params: string, rest: string, level: Level)
    requires Clean(params)
    ensures Seen(Written(params) + rest, level) ==
            (if level == On then Escape(Canonical(params)) else "") + Seen(rest, level)
  {
    hide *;
    WrittenIs(params);
    match NameOf(Normal(params))
    case Some(name) =>
      NamedCode(params, level);
      CodeSeen(name, rest, level);
    case None =>
      var code := "sgr:" + params;
      SgrCode(params, level);
      CodeSeen(code, rest, level);
  }

  lemma WrittenIs(params: string)
    ensures match NameOf(Normal(params))
            case Some(name) => Written(params) == "{{" + name + "}}" && Canonical(params) == Normal(params)
            case None => Written(params) == "{{" + ("sgr:" + params) + "}}" && Canonical(params) == params
  {
    hide NameOf, Normal;
    assert NameOf(Normal(params)).None? ==> "{{sgr:" + params + "}}" == "{{" + ("sgr:" + params) + "}}";
  }

  lemma NamedCode(params: string, level: Level)
    requires NameOf(Normal(params)).Some?
    ensures var name := NameOf(Normal(params)).value;
      && Clean(name) && IsCode(name) && name != "lbrace"
      && Shown(Code(name), level) == if level == On then Escape(Normal(params)) else ""
  {
    hide Normal, CodeOf, NameOf, NAMED, Clean;
    NameIsUsable(Normal(params));
    CleanIs(NameOf(Normal(params)).value);
  }

  lemma SgrCode(params: string, level: Level)
    requires Clean(params)
    ensures var code := "sgr:" + params;
      && Clean(code) && IsCode(code) && code != "lbrace"
      && Shown(Code(code), level) == if level == On then Escape(params) else ""
  {
    hide Clean;
    var code := "sgr:" + params;
    assert code[..4] == "sgr:" && code[4..] == params && code[0] == 's';
    SgrIsClean(params);
  }

  lemma CodeSeen(code: string, rest: string, level: Level)
    requires Clean(code) && IsCode(code) && code != "lbrace"
    ensures Seen("{{" + code + "}}" + rest, level) == Shown(Code(code), level) + Seen(rest, level)
  {
    hide Seen, Shown, IsCode, Clean, ClosedAt;
    ClosedAround(code, rest);
    SeenStep("{{" + code + "}}" + rest, level);
  }

  lemma DirtyIs(params: string)
    requires !Clean(params)
    ensures 0 <= Closing(params + "}}") < |params| && params[Closing(params + "}}")] == '}'
    ensures Canonical(params) == params && Written(params) == "{{sgr:" + params + "}}"
  {
    hide NameOf, Normal;
    CleanIs(params);
    if NameOf(Normal(params)).Some? { NamedIsPlain(params); }
    assert Closes(params + "}}", |params|);
  }

  /** One whose parameters are not clean is cut short. */
  lemma DirtySeen(params: string, rest: string)
    requires !Clean(params)
    ensures var k := Closing(params + "}}");
      && 0 <= k < |params|
      && exists t :: Seen(Written(params) + rest, On) == Escape(params[..k]) + t
  {
    hide *;
    DirtyIs(params);
    var k := Closing(params + "}}");
    var d := Written(params) + rest;
    ClosedEarly(params, rest, k);
    var inner := "sgr:" + params[..k];
    OpensAt("sgr:" + params + "}}" + rest);
    assert d == "{{" + ("sgr:" + params + "}}" + rest);
    assert d[2..k + 6] == inner && inner[0] == 's';
    SeenStep(d, On);
    SgrShown(params[..k]);
  }

  lemma TwoBraces(s: string)
    requires |s| > 1 && s[0] == '{' == s[1]
    ensures s[..2] == "{{"
  {
  }

  lemma OpensAt(e: string)
    ensures ClosedAt("{{" + e) == Closing(e) && ("{{" + e)[2..] == e
  {
    assert ("{{" + e)[..2] == "{{" && ("{{" + e)[2..] == e;
  }

  lemma SgrShown(params: string)
    ensures IsCode("sgr:" + params) && Shown(Code("sgr:" + params), On) == Escape(params)
  {
    var code := "sgr:" + params;
    assert code[..4] == "sgr:" && code[4..] == params;
  }

  lemma ClosedEarly(params: string, rest: string, k: int)
    requires k == Closing(params + "}}") && 0 <= k < |params|
    ensures Closing("sgr:" + params + "}}" + rest) == k + 4
  {
    var p, e := params + "}}", "sgr:" + params + "}}" + rest;
    assert forall j | 0 <= j < |p| :: e[j + 4] == p[j];
    assert forall j | 0 <= j < 4 :: e[j] == "sgr:"[j] != '}';
    assert Closes(p, k) && Closes(e, k + 4);
    assert forall j | 4 <= j < k + 4 :: Closes(e, j) ==> Closes(p, j - 4);
  }

  // ----- the text between -------------------------------------------------

  /** What goes through the data's form and out again. */
  function Back(s: string): string {
    Seen(Demoted(s), On)
  }

  lemma {:induction false} QuietPrefix(s: string, j: nat, exact: bool)
    requires j <= Quiet(s)
    ensures Demoted(s) == s[..j] + Demoted(s[j..]) && Target(s, exact) == s[..j] + Target(s[j..], exact)
    ensures Bare(s) == s[..j] + Bare(s[j..]) && Quiet(s[j..]) == Quiet(s) - j
  {
    hide *;
    if j == 0 {
      NothingCut(s);
    } else {
      QuietStep(s, exact);
      QuietPrefix(s[1..], j - 1, exact);
      CutAgain(s, j);
      OneMore(s, j, Demoted(s), Demoted(s[j..]));
      OneMore(s, j, Target(s, exact), Target(s[j..], exact));
      OneMore(s, j, Bare(s), Bare(s[j..]));
    }
  }

  lemma NothingCut(s: string)
    ensures s[0..] == s && forall t: string :: s[..0] + t == t
  {
  }

  lemma CutAgain(s: string, j: nat)
    requires 0 < j <= |s|
    ensures s[1..][j - 1..] == s[j..] && s[1..][..j - 1] == s[1..j]
  {
  }

  lemma OneMore(s: string, j: nat, whole: string, rest: string)
    requires 0 < j <= |s| && whole == [s[0]] + (s[1..j] + rest)
    ensures whole == s[..j] + rest
  {
    assert s[..j] == [s[0]] + s[1..j];
  }

  lemma QuietStep(s: string, exact: bool)
    requires Quiet(s) > 0
    ensures SequenceAt(s) == 0 && s != "" && Quiet(s[1..]) == Quiet(s) - 1
    ensures Demoted(s) == [s[0]] + Demoted(s[1..]) && Target(s, exact) == [s[0]] + Target(s[1..], exact)
    ensures Bare(s) == [s[0]] + Bare(s[1..])
  {
  }

  /** Nothing that begins with a brace is shown as anything but a brace or a sequence. */
  lemma BraceSeen(d: string)
    requires d != "" && d[0] == '{'
    ensures Seen(d, On) != "" && (Seen(d, On)[0] == '{' || Seen(d, On)[0] == ESC)
    ensures ClosedAt(d) >= 0 ==> Seen(d, On)[0] == ESC || (|Seen(d, On)| > 1 && Seen(d, On)[1] == '{')
  {
    hide Seen, Closing, IsCode, Shown;
    SeenStep(d, On);
    var k := ClosedAt(d);
    if k >= 0 {
      assert d[..2] == "{{";
      if IsCode(d[2..2 + k]) { CodeIsShown(d[2..2 + k]); }
    }
  }

  lemma CodeIsShown(code: string)
    requires IsCode(code)
    ensures Shown(Code(code), On) != "" && Shown(Code(code), On)[0] == ESC
  {
  }

  lemma WrittenBegins(s: string)
    requires SequenceAt(s) > 0
    ensures |Demoted(s)| > 1 && Demoted(s)[0] == '{' == Demoted(s)[1] && exists j :: Closes(Demoted(s), j)
  {
    hide NameOf, Normal, SequenceAt;
    var w := Written(s[2..SequenceAt(s) - 1]);
    assert w[0] == '{' == w[1] && Closes(w, |w| - 2);
    assert Closes(Demoted(s), |w| - 2);
  }

  /** Text with neither brace nor escape at its head comes from that text, in its place. */
  lemma {:induction false} Aligned(s: string, w: string, x: string)
    requires Back(s) == w + x && forall c | c in w :: c != '{' && c != ESC
    ensures |w| <= Quiet(s) && s[..|w|] == w && Back(s[|w|..]) == x
    decreases |w|
  {
    hide *;
    if w == "" {
      NothingCut(s);
      assert w + x == x;
    } else {
      FirstOff(w, x);
      AlignedOne(s);
      QuietOn(s);
      Aligned(s[1..], w[1..], x);
      FirstBack(s, w);
    }
  }

  lemma FirstOff(w: string, x: string)
    requires w != "" && forall c | c in w :: c != '{' && c != ESC
    ensures w + x != "" && (w + x)[0] == w[0] && w[0] != '{' && w[0] != ESC && (w + x)[1..] == w[1..] + x
    ensures forall c | c in w[1..] :: c != '{' && c != ESC
  {
    assert w[0] in w && forall c | c in w[1..] :: c in w;
  }

  lemma FirstBack(s: string, w: string)
    requires s != "" && w != "" && s[0] == w[0] && |w| - 1 <= |s[1..]| && s[1..][..|w| - 1] == w[1..]
    ensures s[..|w|] == w && s[1..][|w| - 1..] == s[|w|..]
  {
    assert w == [w[0]] + w[1..];
  }

  lemma QuietOn(s: string)
    requires s != "" && SequenceAt(s) == 0
    ensures Quiet(s) == Quiet(s[1..]) + 1
  {
  }

  lemma AlignedOne(s: string)
    requires Back(s) != "" && Back(s)[0] != '{' && Back(s)[0] != ESC
    ensures s != "" && SequenceAt(s) == 0 && s[0] == Back(s)[0] && Back(s[1..]) == Back(s)[1..]
  {
    hide Seen, SequenceAt, Written;
    EmptySeen();
    if s != "" && (SequenceAt(s) > 0 || s[0] == '{') {
      BracesFirst(s);
    } else {
      Unopened(s);
      LiteralSeen(s);
    }
  }

  lemma EmptySeen()
    ensures Back("") == ""
  {
    NothingSeen("", On);
  }

  /** A brace or a sequence shows a brace or a sequence. */
  lemma BracesFirst(s: string)
    requires s != "" && (SequenceAt(s) > 0 || s[0] == '{')
    ensures Back(s) != "" && (Back(s)[0] == '{' || Back(s)[0] == ESC)
  {
    hide Seen, SequenceAt, Written;
    if SequenceAt(s) > 0 {
      WrittenBegins(s);
    }
    BraceSeen(Demoted(s));
  }

  lemma Unopened(s: string)
    requires s != "" && SequenceAt(s) == 0 && s[0] != '{'
    ensures ClosedAt(Demoted(s)) < 0
  {
    var d := Demoted(s);
    assert |d| > 1 ==> d[..2][0] == d[0] == s[0];
  }

  lemma LiteralSeenAt(s: string, level: Level)
    requires s != "" && SequenceAt(s) == 0 && ClosedAt(Demoted(s)) < 0
    ensures Seen(Demoted(s), level) == [s[0]] + Seen(Demoted(s[1..]), level)
  {
    hide Seen, SequenceAt, Written, ClosedAt;
    SeenStep(Demoted(s), level);
  }

  lemma LiteralSeen(s: string)
    requires s != "" && SequenceAt(s) == 0 && ClosedAt(Demoted(s)) < 0
    ensures Back(s) == [s[0]] + Back(s[1..])
  {
    hide Seen, Demoted;
    LiteralSeenAt(s, On);
  }

  const LBRACE := "lbrace}}"

  /** The rest of a word for a doubled brace never comes back after the brace it stands for. */
  lemma {:induction false} NeverCatchesUp(s: string, exact: bool)
    ensures Back(s) != LBRACE + Target(s, exact)
    decreases |s|
  {
    hide Back, Target, Quiet;
    if Back(s) == LBRACE + Target(s, exact) {
      Aligned(s, LBRACE, Target(s, exact));
      QuietPrefix(s, |LBRACE|, exact);
      NeverCatchesUp(s[|LBRACE|..], exact);
      assert false;
    }
  }

  // ----- what comes back --------------------------------------------------

  lemma EscapesEqual(a: string, b: string, x: string, y: string)
    requires 'm' !in a && 'm' !in b
    ensures Escape(a) + x == Escape(b) + y <==> a == b && x == y
  {
    hide Escape, SequenceAt;
    SequenceOf(a, x);
    SequenceOf(b, y);
  }

  /** A string that starts with a sequence starts with exactly that one. */
  lemma SequenceOf(params: string, rest: string)
    requires 'm' !in params
    ensures SequenceAt(Escape(params) + rest) == |params| + 3
    ensures var s := Escape(params) + rest; s[2..|params| + 2] == params && s[|params| + 3..] == rest
  {
    var s := Escape(params) + rest;
    assert s[..|params| + 2] == [ESC, '['] + params && s[|params| + 2] == 'm';
    FirstAt(s, 'm', |params| + 2);
  }

  lemma CanonicalEnds(params: string)
    requires 'm' !in params
    ensures 'm' !in Canonical(params)
  {
    if NameOf(Normal(params)).Some? {
      NameIsUsable(Normal(params));
    }
  }

  lemma SequenceReturns(s: string, exact: bool)
    requires SequenceAt(s) > 0
    requires Back(s[SequenceAt(s)..]) == Target(s[SequenceAt(s)..], exact) <==> Returns(s[SequenceAt(s)..], exact)
    ensures Back(s) == Target(s, exact) <==> Returns(s, exact)
  {
    hide *;
    var n := SequenceAt(s);
    var p, rest := s[2..n - 1], s[n..];
    NoM(s);
    CanonicalEnds(p);
    SequenceParts(s, exact);
    BackIs(s);
    BackIs(rest);
    if Clean(p) {
      WrittenSeen(p, Demoted(rest), On);
      EscapesEqual(Canonical(p), if exact then p else Canonical(p), Back(rest), Target(rest, exact));
    } else {
      DirtyIs(p);
      DirtySeen(p, Demoted(rest));
      var k := Closing(p + "}}");
      var t :| Back(s) == Escape(p[..k]) + t;
      EscapesEqual(p[..k], p, t, Target(rest, exact));
    }
  }

  lemma SequenceParts(s: string, exact: bool)
    requires SequenceAt(s) > 0
    ensures var n := SequenceAt(s); var p, rest := s[2..n - 1], s[n..];
      && Demoted(s) == Written(p) + Demoted(rest)
      && Target(s, exact) == Escape(if exact then p else Canonical(p)) + Target(rest, exact)
      && (Returns(s, exact) <==> Clean(p) && (exact ==> Canonical(p) == p) && Returns(rest, exact))
  {
    hide Escape, Canonical, Clean, Written, SequenceAt;
    NoM(s);
  }

  lemma NoM(s: string)
    requires SequenceAt(s) > 0
    ensures 'm' !in s[2..SequenceAt(s) - 1] && s[0] == ESC && s != ""
  {
    var n := SequenceAt(s);
    assert forall i | 2 <= i < n - 1 :: s[i] in s[..n - 1];
  }

  lemma SequenceBegins(s: string, exact: bool)
    requires SequenceAt(s) > 0
    ensures Target(s, exact) != "" && Target(s, exact)[0] == ESC
  {
  }

  /** A brace just before a sequence is lost. */
  lemma BraceBeforeSequence(s: string, exact: bool)
    requires |s| > 1 && s[0] == '{' && SequenceAt(s) == 0 && SequenceAt(s[1..]) > 0
    ensures Back(s) != Target(s, exact)
  {
    hide Seen, SequenceAt, Written, Closing, ClosedAt;
    var d, rest := Demoted(s), Demoted(s[1..]);
    WrittenBegins(s[1..]);
    var j :| Closes(rest, j);
    assert d == [s[0]] + rest;
    DoubledOpens(d, j + 1);
    BraceSeen(d);
    SequenceBegins(s[1..], exact);
    assert Target(s, exact)[1] == ESC;
  }

  /** Before "}}" a doubled brace is closed. */
  lemma DoubledOpens(d: string, j: int)
    requires |d| > 1 && d[0] == '{' && d[1] == '{' && Closes(d, j)
    ensures 0 <= ClosedAt(d) <= j - 2
  {
    TwoBraces(d);
    assert Closes(d[2..], j - 2);
  }

  /** What a closed doubled brace shows. */
  lemma SpanSeen(d: string, k: int)
    requires d != "" && k == ClosedAt(d) >= 0
    ensures k + 4 <= |d|
    ensures d[2..2 + k] == "lbrace" ==> Seen(d, On) == "{{" + Seen(d[k + 4..], On)
    ensures d[2..2 + k] != "lbrace" && IsCode(d[2..2 + k]) ==> Seen(d, On) != "" && Seen(d, On)[0] == ESC
    ensures d[2..2 + k] != "lbrace" && !IsCode(d[2..2 + k]) ==> Seen(d, On) == d[..k + 4] + Seen(d[k + 4..], On)
  {
    hide Seen, Closing, ClosedAt, IsCode, Shown;
    SeenStep(d, On);
    if IsCode(d[2..2 + k]) { CodeIsShown(d[2..2 + k]); }
  }

  /** A doubled brace with no "}}" before the next sequence closes past where that begins. */
  lemma DoubledBeforeSequence(s: string, exact: bool)
    requires |s| > 1 && Quiet(s) > 1 && s[0] == '{' == s[1] && Quiet(s) < |s| && Closing(s[2..Quiet(s)]) < 0
    ensures Back(s) != Target(s, exact)
  {
    hide Seen, SequenceAt, Written, Closing, ClosedAt, Quiet, IsCode, Demoted, Target;
    var q := Quiet(s);
    var d := Demoted(s);
    var k := DoubledLate(s);
    QuietPrefix(s, q, exact);
    QuietStops(s);
    SequenceBegins(s[q..], exact);
    SpanSeen(d, k);
    assert d[2..2 + k][q - 2] == d[q] == '{' == d[..k + 4][q];
    assert Target(s, exact)[q] == ESC && Target(s, exact)[0] == s[..q][0] == '{';
  }

  lemma DoubledLate(s: string) returns (k: int)
    requires |s| > 1 && Quiet(s) > 1 && s[0] == '{' == s[1] && Quiet(s) < |s| && Closing(s[2..Quiet(s)]) < 0
    ensures Quiet(s) < |Demoted(s)| && Demoted(s)[Quiet(s)] == '{'
    ensures k == ClosedAt(Demoted(s)) && k > Quiet(s) - 2
  {
    hide Seen, SequenceAt, Written, Closing, Quiet, Demoted;
    var q := Quiet(s);
    var after := Demoted(s[q..]);
    QuietPrefix(s, q, true);
    QuietStops(s);
    WrittenBegins(s[q..]);
    assert s[..q][2..] == s[2..q];
    k := LateIn(s[..q], after);
  }

  lemma LateIn(a: string, b: string) returns (k: int)
    requires |a| > 1 && a[0] == '{' == a[1] && Closing(a[2..]) < 0 && |b| > 1 && b[0] == '{' && exists j :: Closes(b, j)
    ensures (a + b)[|a|] == '{' && k == ClosedAt(a + b) && k > |a| - 2
  {
    hide Closing;
    var d := a + b;
    var j :| Closes(b, j);
    assert Closes(d, |a| + j);
    DoubledOpens(d, |a| + j);
    k := ClosedAt(d);
    assert d[2..] == a[2..] + b;
    ClosesLate(a[2..], b, k);
  }

  lemma ClosesLate(a: string, b: string, k: int)
    requires Closing(a) < 0 && Closing(a + b) == k >= 0 && |b| > 0 && b[0] == '{'
    ensures k > |a|
  {
    var s := a + b;
    assert s[|a|] == '{' && Closes(s, k);
    assert k + 2 <= |a| ==> Closes(a, k);
  }

  lemma ClosesEarly(a: string, b: string)
    requires Closing(a) >= 0
    ensures Closing(a + b) == Closing(a)
  {
    var k, s := Closing(a), a + b;
    assert Closes(s, k);
    assert forall j | Closes(s, j) && j < k :: Closes(a, j);
  }

  /** A doubled brace closed before the next sequence: lost if a code or the word for a doubled
      brace is between, and otherwise text like any other. */
  lemma DoubledClosed(s: string, exact: bool)
    requires |s| > 1 && Quiet(s) > 1 && s[0] == '{' == s[1] && Closing(s[2..Quiet(s)]) >= 0
    ensures var k := Closing(s[2..Quiet(s)]);
      && k + 4 <= Quiet(s)
      && (Back(s) == Target(s, exact) <==>
          Ordinary(s[2..2 + k]) && Back(s[k + 4..]) == Target(s[k + 4..], exact))
  {
    hide *;
    var k := Closing(s[2..Quiet(s)]);
    DoubledEarly(s);
    var rest := s[k + 4..];
    TargetCut(s, k + 4, exact);
    SpanSeen(Demoted(s), k);
    BackIs(s);
    BackIs(rest);
    NeverCatchesUp(rest, exact);
    SpanReturned(s, k, Back(s), Back(rest), Target(rest, exact));
  }

  lemma SpanReturned(s: string, k: nat, back: string, rest: string, target: string)
    requires k + 4 <= |s| && s[..k + 4] == "{{" + s[2..2 + k] + "}}" && rest != LBRACE + target
    requires s[2..2 + k] == "lbrace" ==> back == "{{" + rest
    requires s[2..2 + k] != "lbrace" && IsCode(s[2..2 + k]) ==> back != "" && back[0] == ESC
    requires s[2..2 + k] != "lbrace" && !IsCode(s[2..2 + k]) ==> back == s[..k + 4] + rest
    ensures back == s[..k + 4] + target <==> Ordinary(s[2..2 + k]) && rest == target
  {
    hide IsCode;
    if s[2..2 + k] == "lbrace" {
      WordLost(s, rest, target);
    } else if IsCode(s[2..2 + k]) {
      CodeLost(s, k, back, target);
    } else {
      SamePrefix(s[..k + 4], rest, target);
    }
  }

  lemma TargetCut(s: string, j: nat, exact: bool)
    requires j <= Quiet(s)
    ensures Target(s, exact) == s[..j] + Target(s[j..], exact)
  {
    hide *;
    QuietPrefix(s, j, exact);
  }

  lemma BackIs(s: string)
    ensures Back(s) == Seen(Demoted(s), On)
  {
  }

  lemma CodeLost(s: string, k: nat, back: string, target: string)
    requires k + 4 <= |s| && s[..k + 4] == "{{" + s[2..2 + k] + "}}" && back != "" && back[0] == ESC
    ensures back != s[..k + 4] + target
  {
    assert (s[..k + 4] + target)[0] == ("{{" + s[2..2 + k] + "}}")[0] == '{';
  }

  lemma WordLost(s: string, back: string, target: string)
    requires |s| >= 10 && s[..10] == "{{" + "lbrace" + "}}" && back != LBRACE + target
    ensures "{{" + back != s[..10] + target
  {
    assert s[..10] == "{{" + LBRACE;
    Associates("{{", LBRACE, target);
    SamePrefix("{{", back, LBRACE + target);
  }

  lemma SamePrefix(a: string, x: string, y: string)
    ensures a + x == a + y <==> x == y
  {
    assert (a + x)[|a|..] == x && (a + y)[|a|..] == y;
  }

  lemma DoubledEarly(s: string)
    requires |s| > 1 && Quiet(s) > 1 && s[0] == '{' == s[1] && Closing(s[2..Quiet(s)]) >= 0
    ensures var k, d := Closing(s[2..Quiet(s)]), Demoted(s);
      && k + 4 <= Quiet(s) && k + 4 <= |d| && ClosedAt(d) == k
      && d[2..2 + k] == s[2..2 + k] && d[..k + 4] == s[..k + 4] && d[k + 4..] == Demoted(s[k + 4..])
      && s[..k + 4] == "{{" + s[2..2 + k] + "}}"
  {
    hide *;
    var q, k := Quiet(s), Closing(s[2..Quiet(s)]);
    var d, x := Demoted(s), Demoted(s[q..]);
    TwoBraces(s);
    ClosesThere(s[2..q]);
    EndsThere(s[2..q], k);
    DemotedCut(s, q);
    DemotedCut(s, k + 4);
    ClosesEarly(s[2..q], x);
    Cuts(s, q, x, k);
    OpensAt(s[2..q] + x);
    Reopened(d, s[2..q] + x);
    SamePrefix(s[..k + 4], d[k + 4..], Demoted(s[k + 4..]));
  }

  lemma DemotedCut(s: string, j: nat)
    requires j <= Quiet(s)
    ensures Demoted(s) == s[..j] + Demoted(s[j..])
  {
    hide *;
    QuietPrefix(s, j, true);
  }

  lemma Reopened(d: string, e: string)
    requires |d| > 1 && d[..2] == "{{" && d[2..] == e
    ensures d == "{{" + e
  {
    assert d == d[..2] + d[2..];
  }

  lemma Cuts(s: string, q: nat, x: string, k: nat)
    requires 2 <= q <= |s| && k + 4 <= q && s[2..q][..k + 2] == s[2..q][..k] + "}}" && s[..2] == "{{"
    ensures var d := s[..q] + x;
      && d[..2] == "{{" && d[2..] == s[2..q] + x && d[2..2 + k] == s[2..2 + k]
      && d[..k + 4] == s[..k + 4] == "{{" + s[2..2 + k] + "}}" && d == s[..k + 4] + d[k + 4..]
  {
    assert s[2..q][..k] == s[2..2 + k] && s[2..q][..k + 2] == s[2..k + 4];
    assert s[..k + 4] == s[..2] + s[2..k + 4];
  }

  lemma EndsThere(s: string, k: nat)
    requires k + 2 <= |s| && s[k] == '}' == s[k + 1]
    ensures s[..k + 2] == s[..k] + "}}"
  {
    assert s[..k + 2] == s[..k] + [s[k], s[k + 1]];
    TwoCloses([s[k], s[k + 1]]);
  }

  lemma ClosesThere(s: string)
    requires Closing(s) >= 0
    ensures Closing(s) + 2 <= |s| && s[Closing(s)] == '}' == s[Closing(s) + 1]
  {
  }

  lemma TwoCloses(t: string)
    requires |t| == 2 && t[0] == '}' == t[1]
    ensures t == "}}"
  {
  }

  lemma ReturnsBrace(s: string, exact: bool)
    requires s != "" && SequenceAt(s) == 0 && s[0] == '{'
    ensures Returns(s, exact) <==>
            var q := Quiet(s);
            if q == 1 then |s| == 1
            else if s[1] != '{' then Returns(s[1..], exact)
            else
              var k := Closing(s[2..q]);
              if k < 0 then q == |s| && Returns(s[1..], exact)
              else Ordinary(s[2..2 + k]) && Returns(s[k + 4..], exact)
  {
    hide SequenceAt, Canonical, Clean, Ordinary, Closing, Closes, Quiet, Escape;
  }

  lemma BraceReturns(s: string, exact: bool)
    requires s != "" && SequenceAt(s) == 0 && s[0] == '{'
    requires forall j | 1 <= j <= |s| :: Back(s[j..]) == Target(s[j..], exact) <==> Returns(s[j..], exact)
    ensures Back(s) == Target(s, exact) <==> Returns(s, exact)
  {
    hide SequenceAt, Closing, ClosedAt, IsCode, Back, Quiet, Target, Returns, Demoted;
    var q := Quiet(s);
    ReturnsBrace(s, exact);
    QuietEnds(s);
    if q == 1 {
      if |s| == 1 {
        LoneBrace(s, exact);
      } else {
        BraceBeforeSequence(s, exact);
      }
    } else if s[1] != '{' {
      QuietStep(s, exact);
      StaysOpen(s);
      LiteralSeen(s);
      SamePrefix([s[0]], Back(s[1..]), Target(s[1..], exact));
    } else {
      if Closing(s[2..q]) >= 0 {
        DoubledClosed(s, exact);
      } else if q < |s| {
        DoubledBeforeSequence(s, exact);
      } else {
        QuietStep(s, exact);
        NeverClosed(s);
        LiteralSeen(s);
        SamePrefix([s[0]], Back(s[1..]), Target(s[1..], exact));
      }
    }
  }

  lemma QuietEnds(s: string)
    requires s != "" && SequenceAt(s) == 0
    ensures Quiet(s) > 0 && (Quiet(s) < |s| ==> SequenceAt(s[Quiet(s)..]) > 0)
  {
    hide SequenceAt;
    QuietStops(s);
  }

  lemma {:induction false} QuietStops(s: string)
    ensures Quiet(s) < |s| ==> SequenceAt(s[Quiet(s)..]) > 0
  {
    hide SequenceAt;
    if s != "" && SequenceAt(s) == 0 {
      QuietStops(s[1..]);
      assert s[1..][Quiet(s[1..])..] == s[Quiet(s[1..]) + 1..];
    } else {
      assert s[0..] == s;
    }
  }

  lemma LoneBrace(s: string, exact: bool)
    requires |s| == 1 && SequenceAt(s) == 0
    ensures Back(s) == Target(s, exact) && Returns(s, exact) && Quiet(s) == 1
  {
    LiteralSeen(s);
    EmptySeen();
  }

  lemma StaysOpen(s: string)
    requires |s| > 1 && Quiet(s) > 1 && s[1] != '{'
    ensures ClosedAt(Demoted(s)) < 0
  {
    hide *;
    DemotedCut(s, 2);
    NotDoubled(s[..2], Demoted(s[2..]));
  }

  lemma NotDoubled(a: string, x: string)
    requires |a| == 2 && a[1] != '{'
    ensures ClosedAt(a + x) < 0
  {
    assert (a + x)[..2] == a;
  }

  lemma NeverClosed(s: string)
    requires |s| > 1 && s[0] == '{' == s[1] && Quiet(s) == |s| && Closing(s[2..Quiet(s)]) < 0
    ensures ClosedAt(Demoted(s)) < 0
  {
    hide Demoted, Quiet, Closing, HasPrefix, Target, Bare, SequenceAt;
    QuietPrefix(s, |s|, true);
    DemotedEnd();
    assert s[|s|..] == "" && s[..|s|] == s && s[2..|s|] == s[2..] && s + "" == s;
    assert Demoted(s) == s;
  }

  /** What went through the data's form and out again is the text respelled, or the text itself,
      exactly when the text returns. */
  lemma {:induction false} Returned(s: string, exact: bool)
    ensures Back(s) == Target(s, exact) <==> Returns(s, exact)
    decreases |s|
  {
    hide Back, SequenceAt, Quiet, Closing, Clean, Target, Returns, Demoted;
    if s == "" {
      NothingReturns(exact);
    } else {
      forall j | 1 <= j <= |s| ensures Back(s[j..]) == Target(s[j..], exact) <==> Returns(s[j..], exact) {
        Returned(s[j..], exact);
      }
      if SequenceAt(s) > 0 {
        SequenceReturns(s, exact);
      } else if s[0] == '{' {
        BraceReturns(s, exact);
      } else {
        Unopened(s);
        LiteralSeen(s);
        LiteralReturns(s, exact);
        SamePrefix([s[0]], Back(s[1..]), Target(s[1..], exact));
      }
    }
  }

  lemma NothingReturns(exact: bool)
    ensures Back("") == Target("", exact) && Returns("", exact)
  {
    EmptySeen();
  }

  lemma LiteralReturns(s: string, exact: bool)
    requires s != "" && SequenceAt(s) == 0 && s[0] != '{'
    ensures Returns(s, exact) == Returns(s[1..], exact) && Target(s, exact) == [s[0]] + Target(s[1..], exact)
  {
  }

  /** Importing and exporting again gives the text with each sequence in screen.h's spelling exactly
      when it survives. */
  lemma PromotedDemoted(s: string)
    ensures Promoted(Demoted(s)) == Respelled(s) <==> Survives(s)
  {
    Returned(s, false);
  }

  /** Every sequence of s is unnamed or already in screen.h's spelling. */
  predicate Conventional(s: string) {
    if s == "" then true
    else
      var n := SequenceAt(s);
      if n == 0 then Conventional(s[1..]) else Canonical(s[2..n - 1]) == s[2..n - 1] && Conventional(s[n..])
  }

  lemma {:induction false} QuietConventional(s: string, j: nat)
    requires j <= Quiet(s)
    ensures Conventional(s) == Conventional(s[j..])
  {
    if j == 0 {
      assert s[0..] == s;
    } else {
      QuietConventional(s[1..], j - 1);
      assert s[1..][j - 1..] == s[j..];
    }
  }

  lemma {:induction false} ReturnsExactly(s: string)
    ensures Returns(s, true) <==> Survives(s) && Conventional(s)
    decreases |s|
  {
    hide *;
    if s == "" {
      NothingConventional();
    } else {
      forall j | 1 <= j <= |s| ensures Returns(s[j..], true) <==> Survives(s[j..]) && Conventional(s[j..]) {
        ReturnsExactly(s[j..]);
      }
      if SequenceAt(s) > 0 {
        SequenceExactly(s);
      } else if s[0] == '{' {
        BraceExactly(s);
      } else {
        LiteralExactly(s);
      }
    }
  }

  lemma NothingConventional()
    ensures Returns("", true) && Survives("") && Conventional("")
  {
  }

  lemma SequenceExactly(s: string)
    requires SequenceAt(s) > 0
    requires forall j | 1 <= j <= |s| :: Returns(s[j..], true) <==> Survives(s[j..]) && Conventional(s[j..])
    ensures Returns(s, true) <==> Survives(s) && Conventional(s)
  {
    hide *;
    SequenceParts(s, true);
    SequenceParts(s, false);
    SurvivesIs(s);
    SurvivesIs(s[SequenceAt(s)..]);
    SequenceConventional(s);
  }

  lemma SequenceConventional(s: string)
    requires SequenceAt(s) > 0
    ensures var n := SequenceAt(s);
      Conventional(s) <==> Canonical(s[2..n - 1]) == s[2..n - 1] && Conventional(s[n..])
  {
    hide SequenceAt, Canonical, Escape;
  }

  lemma LiteralExactly(s: string)
    requires s != "" && SequenceAt(s) == 0 && s[0] != '{'
    requires forall j | 1 <= j <= |s| :: Returns(s[j..], true) <==> Survives(s[j..]) && Conventional(s[j..])
    ensures Returns(s, true) <==> Survives(s) && Conventional(s)
  {
    hide Returns, Conventional, SequenceAt, Target, Quiet;
    LiteralReturns(s, true);
    LiteralReturns(s, false);
    LiteralConventional(s);
  }

  lemma LiteralConventional(s: string)
    requires s != "" && SequenceAt(s) == 0
    ensures Conventional(s) == Conventional(s[1..])
  {
  }

  lemma BraceExactly(s: string)
    requires s != "" && SequenceAt(s) == 0 && s[0] == '{'
    requires forall j | 1 <= j <= |s| :: Returns(s[j..], true) <==> Survives(s[j..]) && Conventional(s[j..])
    ensures Returns(s, true) <==> Survives(s) && Conventional(s)
  {
    hide *;
    SurvivesIs(s);
    SurvivesIs(s[1..]);
    ReturnsBrace(s, true);
    ReturnsBrace(s, false);
    QuietEnds(s);
    QuietConventional(s, 1);
    if Quiet(s) > 1 && s[1] == '{' && Closing(s[2..Quiet(s)]) >= 0 {
      SpanConventional(s);
    } else if |s| == 1 {
      AloneConventional(s);
    }
  }

  lemma SurvivesIs(s: string)
    ensures Survives(s) == Returns(s, false)
  {
  }

  lemma SpanConventional(s: string)
    requires Quiet(s) > 1 && Closing(s[2..Quiet(s)]) >= 0
    ensures var k := Closing(s[2..Quiet(s)]);
      && k + 4 <= |s| && Conventional(s) == Conventional(s[k + 4..]) && Survives(s[k + 4..]) == Returns(s[k + 4..], false)
  {
    hide *;
    var k := Closing(s[2..Quiet(s)]);
    ClosingFits(s[2..Quiet(s)]);
    QuietConventional(s, k + 4);
    SurvivesIs(s[k + 4..]);
  }

  lemma AloneConventional(s: string)
    requires |s| == 1
    ensures Conventional(s[1..])
  {
  }

  lemma ClosingFits(s: string)
    ensures Closing(s) + 2 <= |s| || Closing(s) < 0
  {
  }

  /** The text itself comes back exactly when it survives and its sequences are so spelt. */
  lemma RoundTrip(s: string)
    ensures Promoted(Demoted(s)) == s <==> Survives(s) && Conventional(s)
  {
    Returned(s, true);
    ReturnsExactly(s);
    TargetItself(s);
  }

  lemma {:induction false} TargetItself(s: string)
    ensures Target(s, true) == s
    decreases |s|
  {
    hide Escape, SequenceAt, Canonical, Target;
    TargetStep(s);
    if s != "" {
      var n := SequenceAt(s);
      TargetItself(s[if n == 0 then 1 else n..]);
      assert n == 0 ==> s == [s[0]] + s[1..];
    }
  }

  lemma TargetStep(s: string)
    ensures s == "" ==> Target(s, true) == ""
    ensures s != "" ==>
              var n := SequenceAt(s);
              Target(s, true) == if n == 0 then [s[0]] + Target(s[1..], true) else Escape(s[2..n - 1]) + Target(s[n..], true)
  {
    hide Escape, SequenceAt, Canonical;
  }

  /** Text without braces survives. */
  lemma {:induction false} PlainSurvives(s: string)
    requires Plain(s)
    ensures Survives(s)
    decreases |s|
  {
    hide Canonical, IsCode;
    if s != "" {
      var n := SequenceAt(s);
      PlainSurvives(s[if n == 0 then 1 else n..]);
      if n > 0 {
        CleanIs(s[2..n - 1]);
      }
    }
  }

  // ----- without colour ---------------------------------------------------

  /** Stripping what was imported leaves the text without its sequences, when it survives. */
  lemma StrippedDemoted(s: string)
    requires Survives(s)
    ensures Stripped(Demoted(s)) == Bare(s)
  {
    StrippedBare(s);
  }

  lemma {:induction false} StrippedBare(s: string)
    requires Returns(s, false)
    ensures Seen(Demoted(s), Off) == Bare(s)
    decreases |s|
  {
    hide Seen, SequenceAt, Quiet, Closing, Clean, Demoted, Bare, Returns;
    if s == "" {
      NothingStripped();
    } else if SequenceAt(s) > 0 {
      SequenceStripped(s);
      StrippedBare(s[SequenceAt(s)..]);
    } else if s[0] == '{' {
      forall j | 1 <= j <= |s| && Returns(s[j..], false) ensures Seen(Demoted(s[j..]), Off) == Bare(s[j..]) {
        StrippedBare(s[j..]);
      }
      BraceStripped(s);
    } else {
      LiteralReturns(s, false);
      LiteralBare(s);
      Unopened(s);
      LiteralSeenAt(s, Off);
      StrippedBare(s[1..]);
    }
  }

  lemma BraceStripped(s: string)
    requires s != "" && SequenceAt(s) == 0 && s[0] == '{' && Returns(s, false)
    requires forall j | 1 <= j <= |s| && Returns(s[j..], false) :: Seen(Demoted(s[j..]), Off) == Bare(s[j..])
    ensures Seen(Demoted(s), Off) == Bare(s)
  {
    hide *;
    QuietEnds(s);
    if Quiet(s) > 1 && s[1] == '{' && Closing(s[2..Quiet(s)]) >= 0 {
      SpanReturns(s);
      SpanStripped(s);
    } else {
      LiteralBare(s);
      RestReturns(s);
      BraceStaysOpen(s);
      LiteralSeenAt(s, Off);
      RestStripped(s);
    }
  }

  lemma SpanReturns(s: string)
    requires s != "" && SequenceAt(s) == 0 && s[0] == '{' && Returns(s, false)
    requires Quiet(s) > 1 && s[1] == '{' && Closing(s[2..Quiet(s)]) >= 0
    ensures var k := Closing(s[2..Quiet(s)]);
      && k + 4 <= |s| && Ordinary(s[2..2 + k]) && Returns(s[k + 4..], false)
  {
    hide *;
    ReturnsBrace(s, false);
    SpanCopied(s);
  }

  lemma RestReturns(s: string)
    requires s != "" && SequenceAt(s) == 0 && s[0] == '{' && Returns(s, false)
    requires Quiet(s) == 1 || s[1] != '{' || Closing(s[2..Quiet(s)]) < 0
    ensures s[1..] == "" || Returns(s[1..], false)
    ensures if Quiet(s) == 1 then |s| == 1 else s[1] != '{' || (Closing(s[2..Quiet(s)]) < 0 && Quiet(s) == |s|)
  {
    hide *;
    ReturnsBrace(s, false);
  }

  lemma RestStripped(s: string)
    requires s != "" && (s[1..] == "" || Returns(s[1..], false))
    requires forall j | 1 <= j <= |s| && Returns(s[j..], false) :: Seen(Demoted(s[j..]), Off) == Bare(s[j..])
    ensures Seen(Demoted(s[1..]), Off) == Bare(s[1..])
  {
    hide *;
    NothingStripped();
  }

  lemma BraceStaysOpen(s: string)
    requires s != "" && SequenceAt(s) == 0 && s[0] == '{'
    requires if Quiet(s) == 1 then |s| == 1 else s[1] != '{' || (Closing(s[2..Quiet(s)]) < 0 && Quiet(s) == |s|)
    requires Quiet(s) > 0
    ensures ClosedAt(Demoted(s)) < 0
  {
    hide SequenceAt, Quiet, Closing, ClosedAt, Demoted;
    if Quiet(s) == 1 {
      NotDoubledAlone(s);
    } else if s[1] != '{' {
      StaysOpen(s);
    } else {
      NeverClosed(s);
    }
  }

  lemma SpanStripped(s: string)
    requires s != "" && Quiet(s) > 1 && s[0] == '{' == s[1] && Closing(s[2..Quiet(s)]) >= 0
    requires var k := Closing(s[2..Quiet(s)]);
      && k + 4 <= |s| && Ordinary(s[2..2 + k])
      && Seen(Demoted(s[k + 4..]), Off) == Bare(s[k + 4..])
    ensures Seen(Demoted(s), Off) == Bare(s)
  {
    hide *;
    var k := Closing(s[2..Quiet(s)]);
    SpanCopied(s);
    PlainSpan(Demoted(s), k, s[..k + 4], s[2..2 + k], Demoted(s[k + 4..]));
  }

  lemma SpanCopied(s: string)
    requires s != "" && Quiet(s) > 1 && s[0] == '{' == s[1] && Closing(s[2..Quiet(s)]) >= 0
    ensures var k, d := Closing(s[2..Quiet(s)]), Demoted(s);
      && k + 4 <= |s| && k + 4 <= |d| && ClosedAt(d) == k && d[2..2 + k] == s[2..2 + k]
      && d[..k + 4] == s[..k + 4] && d[k + 4..] == Demoted(s[k + 4..])
      && Bare(s) == s[..k + 4] + Bare(s[k + 4..])
  {
    hide *;
    DoubledEarly(s);
    BareCut(s, Closing(s[2..Quiet(s)]) + 4);
  }

  lemma BareCut(s: string, j: nat)
    requires j <= Quiet(s)
    ensures Bare(s) == s[..j] + Bare(s[j..])
  {
    hide *;
    QuietPrefix(s, j, false);
  }

  lemma NothingStripped()
    ensures Seen(Demoted(""), Off) == "" == Bare("") && Returns("", false)
  {
    NothingSeen("", Off);
  }

  lemma NotDoubledAlone(s: string)
    requires |s| == 1 && SequenceAt(s) == 0
    ensures ClosedAt(Demoted(s)) < 0
  {
    assert s[1..] == "" && Demoted(s) == [s[0]];
  }

  lemma LiteralBare(s: string)
    requires s != "" && SequenceAt(s) == 0
    ensures Bare(s) == [s[0]] + Bare(s[1..])
  {
  }

  lemma PlainSpan(d: string, k: int, head: string, span: string, rest: string)
    requires d != "" && k == ClosedAt(d) >= 0 && k + 4 <= |d|
    requires head == d[..k + 4] && span == d[2..2 + k] && rest == d[k + 4..] && Ordinary(span)
    ensures Seen(d, Off) == head + Seen(rest, Off)
  {
    hide Seen, ClosedAt, IsCode;
    SeenStep(d, Off);
  }

  lemma SequenceStripped(s: string)
    requires SequenceAt(s) > 0 && Returns(s, false)
    ensures Returns(s[SequenceAt(s)..], false) && Bare(s) == Bare(s[SequenceAt(s)..])
    ensures Seen(Demoted(s), Off) == Seen(Demoted(s[SequenceAt(s)..]), Off)
  {
    hide Seen, SequenceAt, Written, Clean;
    var n := SequenceAt(s);
    assert s != "";
    WrittenSeen(s[2..n - 1], Demoted(s[n..]), Off);
    assert forall t: string :: "" + t == t;
  }

  /** Text that does not survive can still be stripped right: here what cuts a sequence's code short
      leaves another code behind it, and neither shows. */
  lemma StrippedAnyway()
    ensures var s := Escape("}}{{red"); !Survives(s) && Stripped(Demoted(s)) == Bare(s)
  {
    hide *;
    var p := "}}{{red";
    var s := Escape(p);
    OneSequence(p);
    CutShort();
    OneIsDirty(p);
    DirtyIs(p);
    CodesShowNothing();
    CodeSeen("sgr:", "{{red}}", Off);
    CodeSeen("red", "", Off);
    NothingStripped();
    assert "{{sgr:" + p + "}}" == "{{" + "sgr:" + "}}" + "{{red}}";
    assert "{{" + "red" + "}}" + "" == "{{red}}";
    StrippedIs(s);
    assert Demoted(s) == Written(p) + Demoted("") && Written(p) + "" == Written(p);
  }

  /** A text that is one sequence. */
  lemma OneSequence(p: string)
    requires 'm' !in p
    ensures var s := Escape(p);
      && Demoted(s) == Written(p) + Demoted("") && Bare(s) == Bare("") && Demoted("") == "" == Bare("")
      && (Survives(s) ==> Clean(p))
  {
    hide Escape, SequenceAt, Written, Clean;
    assert Escape(p) + "" == Escape(p);
    SequenceOf(p, "");
  }

  lemma CutShort()
    ensures 'm' !in "}}{{red" && Closes("}}{{red" + "}}", 0)
  {
  }

  lemma OneIsDirty(p: string)
    requires p != "" && Closes(p + "}}", 0)
    ensures !Clean(p)
  {
    CleanIs(p);
  }

  lemma CodesShowNothing()
    ensures Clean("sgr:") && IsCode("sgr:") && Shown(Code("sgr:"), Off) == "" && "sgr:" != "lbrace"
    ensures Clean("red") && IsCode("red") && Shown(Code("red"), Off) == "" && "red" != "lbrace"
  {
    hide *;
    CleanIs("");
    SgrCode("", Off);
    assert "sgr:" + "" == "sgr:";
    RedIsKnown();
    KnownShowsNothing("red");
    CleanIs("red");
  }

  lemma RedIsKnown()
    ensures CodeOf("red") == Some("31")
  {
  }

  lemma KnownShowsNothing(code: string)
    requires CodeOf(code).Some?
    ensures IsCode(code) && Shown(Code(code), Off) == ""
  {
    hide CodeOf, HasPrefix;
  }

  lemma StrippedIs(s: string)
    ensures Stripped(Demoted(s)) == Seen(Demoted(s), Off)
  {
  }

  // ----- again ------------------------------------------------------------

  lemma CanonicalTwice(params: string)
    ensures Normal(Canonical(params)) == Normal(params)
    ensures Written(Canonical(params)) == Written(params)
  {
    NormalIsNormal(params);
  }

  lemma {:induction false} NoSequences(s: string)
    requires 'm' !in s
    ensures Respelled(s) == s && Demoted(s) == s
  {
    if s != "" {
      NoSequences(s[1..]);
      assert s == [s[0]] + s[1..];
    }
  }

  lemma {:induction false} RespelledHasM(s: string)
    ensures 'm' in Respelled(s) <==> 'm' in s
    ensures Respelled(s) == "" <==> s == ""
    ensures s != "" ==> Respelled(s)[0] == s[0]
    decreases |s|
  {
    if s != "" {
      var n := SequenceAt(s);
      RespelledHasM(s[if n == 0 then 1 else n..]);
      if n == 0 {
        assert s == [s[0]] + s[1..];
      } else {
        var t := Escape(Canonical(s[2..n - 1]));
        assert t[|t| - 1] == 'm' && s[n - 1] == 'm';
      }
    }
  }

  /** Respelling moves no sequence and makes none. */
  lemma RespelledLiteral(s: string)
    requires s != "" && SequenceAt(s) == 0
    ensures SequenceAt([s[0]] + Respelled(s[1..])) == 0
  {
    var t := [s[0]] + Respelled(s[1..]);
    if 'm' !in s[1..] {
      NoSequences(s[1..]);
      assert t == s;
    } else {
      assert 'm' in s;
      RespelledHasM(s[1..]);
    }
  }

  /** Demoting is stable: what was exported imports again as the same codes. */
  lemma {:induction false} DemotedStable(s: string)
    ensures Demoted(Respelled(s)) == Demoted(s)
    decreases |s|
  {
    hide Canonical, Written, SequenceAt, Escape;
    if s != "" {
      var n := SequenceAt(s);
      if n == 0 {
        RespelledLiteral(s);
        DemotedStable(s[1..]);
        assert ([s[0]] + Respelled(s[1..]))[1..] == Respelled(s[1..]);
      } else {
        var p := s[2..n - 1];
        NoM(s);
        CanonicalTwice(p);
        CanonicalEnds(p);
        SequenceOf(Canonical(p), Respelled(s[n..]));
        DemotedStable(s[n..]);
      }
    }
  }

  /** Two losses: a code in the text becomes a sequence, and a brace before a sequence swallows it. */
  lemma BracesAreLost()
    ensures Promoted(Demoted("{{/}}")) == Escape("0") != "{{/}}"
    ensures var s := "{" + Escape("31"); !Survives(s) && Promoted(Demoted(s)) != s && Promoted(Demoted(s)) != Respelled(s)
  {
    CodeIsLost();
    SequenceIsLost("31");
  }

  lemma CodeIsLost()
    ensures Promoted(Demoted("{{/}}")) == Escape("0") != "{{/}}"
  {
    NoSequences("{{/}}");
    assert CodeOf("/") == Some("0");
    CleanIs("/");
    assert "{{" + "/" + "}}" + "" == "{{/}}";
    assert IsCode("/");
    assert !HasPrefix("/", "sgr:");
    CodeSeen("/", "", On);
    NothingSeen("", On);
  }

  lemma SequenceIsLost(params: string)
    requires 'm' !in params
    ensures var s := "{" + Escape(params); !Survives(s) && Promoted(Demoted(s)) != s && Promoted(Demoted(s)) != Respelled(s)
  {
    var s := "{" + Escape(params);
    assert s[1..] == Escape(params) + "" && SequenceAt(s) == 0;
    hide Escape, SequenceAt, Demoted;
    SequenceOf(params, "");
    BraceBeforeSequence(s, false);
    BraceBeforeSequence(s, true);
    TargetItself(s);
    PromotedDemoted(s);
  }
}
