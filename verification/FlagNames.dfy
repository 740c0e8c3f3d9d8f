/** Bits in words: the letter encoding of the world files, and the names of the tables. A 64-bit
    word is the set of its bits. */
module FlagNames {
  import opened Options
  import Texts

  const WIDTH: nat := 64
  const LETTERS: nat := 52

  predicate Word(f: set<nat>) {
    forall b | b in f :: b < WIDTH
  }

  // ----- letters ----------------------------------------------------------

  function Pow2(n: nat): (p: nat)
    ensures p > 0
  {
    if n == 0 then 1 else 2 * Pow2(n - 1)
  }

  function BitsOf(n: nat): set<nat> {
    set b: nat | b < WIDTH && n / Pow2(b) % 2 == 1
  }

  const ALL_BITS: set<nat> := set b: nat | b < WIDTH

  /** The bit a letter stands for. */
  function BitOf(c: char): Option<nat> {
    if 'a' <= c <= 'z' then Some((c - 'a') as nat)
    else if 'A' <= c <= 'Z' then Some((c - 'A') as nat + 26)
    else None
  }

  function BitsIn(s: string): set<nat> {
    if s == "" then {}
    else BitsIn(s[..|s| - 1]) + match BitOf(s[|s| - 1]) case None => {} case Some(b) => {b}
  }

  function UnknownIn(s: string): string {
    if s == "" then ""
    else UnknownIn(s[..|s| - 1]) + if BitOf(s[|s| - 1]) == None then [s[|s| - 1]] else ""
  }

  /** A string of digits is a number, as many bits of it as there are; anything else is letters. */
  function Parsed(s: string): (set<nat>, string) {
    if s != "" && Texts.AllDigits(s) then
      (if Texts.Value(s) < Pow2(WIDTH) then BitsOf(Texts.Value(s)) else ALL_BITS, "")
    else (BitsIn(s), UnknownIn(s))
  }

  method ParseFlagLetters(s: string) returns (bits: set<nat>, unknown: string)
    ensures (bits, unknown) == Parsed(s)
  {
    bits, unknown := {}, "";
    if s == "" {
      return;
    }
    var allDigits := true;
    for i := 0 to |s|
      invariant bits == BitsIn(s[..i]) && unknown == UnknownIn(s[..i])
      invariant allDigits == Texts.AllDigits(s[..i])
    {
      assert s[..i + 1][..i] == s[..i] && s[..i + 1] == s[..i] + [s[i]];
      match BitOf(s[i]) {
        case Some(b) => bits := bits + {b};
        case None => unknown := unknown + [s[i]];
      }
      if !Texts.IsDigit(s[i]) {
        allDigits := false;
      }
    }
    assert s[..|s|] == s;
    if allDigits {
      return if Texts.Value(s) < Pow2(WIDTH) then BitsOf(Texts.Value(s)) else ALL_BITS, "";
    }
  }

  function Letter(bit: nat): (s: string)
    requires bit < WIDTH
    ensures s != ""
  {
    if bit < 26 then ['a' + bit as char]
    else if bit < LETTERS then ['A' + (bit - 26) as char]
    else "<bit" + Texts.Decimal(bit) + ">"
  }

  /** What is written for the bits of f below n, in order. */
  function Written(f: set<nat>, n: nat): string
    requires n <= WIDTH
  {
    if n == 0 then "" else Written(f, n - 1) + if n - 1 in f then Letter(n - 1) else ""
  }

  function Lettered(f: set<nat>): string {
    if f == {} then "0" else Written(f, WIDTH)
  }

  method FlagLetters(f: set<nat>) returns (s: string)
    requires Word(f)
    ensures s == Lettered(f)
  {
    if f == {} {
      return "0";
    }
    s := "";
    for bit := 0 to WIDTH
      invariant s == Written(f, bit)
    {
      if bit in f {
        s := s + Letter(bit);
      }
    }
  }

  lemma {:induction false} BitsInAppend(s: string, t: string)
    ensures BitsIn(s + t) == BitsIn(s) + BitsIn(t)
    ensures UnknownIn(s + t) == UnknownIn(s) + UnknownIn(t)
  {
    if t == "" {
      assert s + t == s;
    } else {
      BitsInAppend(s, t[..|t| - 1]);
      assert (s + t)[..|s + t| - 1] == s + t[..|t| - 1];
    }
  }

  lemma OneLetter(c: char)
    ensures BitsIn([c]) == match BitOf(c) case None => {} case Some(b) => {b}
    ensures UnknownIn([c]) == if BitOf(c) == None then [c] else ""
  {
    assert [c][..0] == "";
  }

  lemma {:induction false} DigitsUnknown(s: string)
    requires Texts.AllDigits(s)
    ensures BitsIn(s) == {} && UnknownIn(s) == s
  {
    if s != "" {
      assert s[|s| - 1] in s && Texts.AllDigits(s[..|s| - 1]);
      DigitsUnknown(s[..|s| - 1]);
      assert s == s[..|s| - 1] + [s[|s| - 1]];
    }
  }

  /** The letters b, i and t, which is what the reader makes of a bit that has no letter. */
  const STRAYS: set<nat> := {1, 8, 19}

  lemma StrayLetters()
    ensures BitsIn("<bit") == STRAYS && UnknownIn("<bit") == "<"
  {
    OneLetter('<');
    OneLetter('b');
    OneLetter('i');
    OneLetter('t');
    hide BitsIn, UnknownIn;
    BitsInAppend("<", "b");
    BitsInAppend("<b", "i");
    BitsInAppend("<bi", "t");
    assert "<b" == "<" + "b" && "<bi" == "<b" + "i" && "<bit" == "<bi" + "t";
  }

  lemma HighLetterRead(n: string)
    requires Texts.AllDigits(n)
    ensures BitsIn("<bit" + n + ">") == STRAYS && UnknownIn("<bit" + n + ">") != ""
    ensures !Texts.AllDigits("<bit" + n + ">")
  {
    StrayLetters();
    DigitsUnknown(n);
    OneLetter('>');
    assert "<bit" + n + ">" == ("<bit" + n) + ">" && ("<bit" + n + ">")[0] == '<';
    assert ("<bit" + n + ">")[0] in "<bit" + n + ">";
    hide BitsIn, UnknownIn;
    BitsInAppend("<bit", n);
    BitsInAppend("<bit" + n, ">");
  }

  lemma LetterRead(bit: nat)
    requires bit < WIDTH
    ensures BitsIn(Letter(bit)) == if bit < LETTERS then {bit} else STRAYS
    ensures UnknownIn(Letter(bit)) == "" <==> bit < LETTERS
    ensures !Texts.AllDigits(Letter(bit))
  {
    if bit < LETTERS {
      OneLetter(Letter(bit)[0]);
      assert Letter(bit)[0] in Letter(bit);
    } else {
      HighLetterRead(Texts.Decimal(bit));
    }
  }

  /** The lettered bits of f below n, and whether it has others there. */
  function Low(f: set<nat>, n: nat): set<nat> {
    set b | b in f && b < n && b < LETTERS
  }

  predicate High(f: set<nat>, n: nat) {
    exists b :: b in f && LETTERS <= b < n
  }

  lemma LowHigh(f: set<nat>, n: nat)
    requires n > 0
    ensures Low(f, n) == Low(f, n - 1) + if n - 1 in f && n - 1 < LETTERS then {n - 1} else {}
    ensures High(f, n) <==> High(f, n - 1) || (n - 1 in f && n - 1 >= LETTERS)
  {
  }

  lemma {:induction false} WrittenRead(f: set<nat>, n: nat)
    requires n <= WIDTH
    ensures BitsIn(Written(f, n)) == Low(f, n) + if High(f, n) then STRAYS else {}
    ensures UnknownIn(Written(f, n)) == "" <==> !High(f, n)
  {
    hide Low, High, Letter, STRAYS, BitsIn, UnknownIn;
    if n == 0 {
      NothingRead(f);
    } else {
      WrittenRead(f, n - 1);
      LowHigh(f, n);
      if n - 1 in f {
        LetterRead(n - 1);
        BitsInAppend(Written(f, n - 1), Letter(n - 1));
      } else {
        assert Written(f, n) == Written(f, n - 1);
      }
    }
  }

  lemma NothingRead(f: set<nat>)
    ensures Low(f, 0) == {} && !High(f, 0) && BitsIn("") == {} && UnknownIn("") == ""
  {
  }

  lemma {:induction false} WrittenIsLetters(f: set<nat>, n: nat, bit: nat)
    requires bit < n <= WIDTH && bit in f
    ensures !Texts.AllDigits(Written(f, n))
  {
    hide Letter, Texts.AllDigits;
    if bit == n - 1 {
      LetterRead(bit);
    } else {
      WrittenIsLetters(f, n - 1, bit);
    }
    SomeLetter(Written(f, n - 1), if n - 1 in f then Letter(n - 1) else "");
  }

  lemma SomeLetter(s: string, t: string)
    ensures !Texts.AllDigits(s) || !Texts.AllDigits(t) ==> !Texts.AllDigits(s + t)
  {
    assert forall c | c in s :: c in s + t;
    assert forall c | c in t :: c in s + t;
  }

  /** What is read back of any word: its lettered bits, and three stray ones if it had others. */
  lemma LettersRead(f: set<nat>)
    requires Word(f)
    ensures Parsed(Lettered(f)).0 == Low(f, WIDTH) + if High(f, WIDTH) then STRAYS else {}
    ensures Parsed(Lettered(f)).1 == "" <==> !High(f, WIDTH)
  {
    if f == {} {
      ZeroRead();
      assert Low(f, WIDTH) == {};
    } else {
      WrittenRead(f, WIDTH);
      var b :| b in f;
      WrittenIsLetters(f, WIDTH, b);
    }
  }

  lemma ZeroRead()
    ensures Parsed("0") == ({}, "")
  {
    assert "0"[..0] == "";
    assert Texts.Value("0") == 0;
    forall b: nat | b < WIDTH ensures 0 / Pow2(b) == 0 {
    }
    assert BitsOf(0) == {};
  }

  /** The letters say the whole word exactly when it has no bit past the 52nd. */
  lemma LettersRoundTrip(f: set<nat>)
    requires Word(f)
    ensures Parsed(Lettered(f)) == (f, "") <==> forall b | b in f :: b < LETTERS
  {
    LettersRead(f);
    if forall b | b in f :: b < LETTERS {
      assert !High(f, WIDTH) && Low(f, WIDTH) == f && f + {} == f;
    } else {
      var b :| b in f && b >= LETTERS;
      assert b !in Low(f, WIDTH) && b !in STRAYS;
      assert b !in Parsed(Lettered(f)).0;
    }
  }

  // ----- names ------------------------------------------------------------

  /** indexOf, the length standing for -1. */
  function IndexOf(table: seq<string>, name: string): (i: nat)
    ensures i <= |table| && (i < |table| ==> table[i] == name) && forall j | 0 <= j < i :: table[j] != name
  {
    if table == [] || table[0] == name then 0 else IndexOf(table[1..], name) + 1
  }

  predicate IsNamed(table: seq<string>, bit: nat) {
    bit < |table| && table[bit] != ""
  }

  /** The names of the bits of f below n, in order. */
  function NamesBelow(f: set<nat>, table: seq<string>, n: nat): seq<string> {
    if n == 0 then []
    else NamesBelow(f, table, n - 1) + if n - 1 in f && IsNamed(table, n - 1) then [table[n - 1]] else []
  }

  function RawOf(f: set<nat>, table: seq<string>): set<nat> {
    set b | b in f && !IsNamed(table, b)
  }

  method NameBits(f: set<nat>, table: seq<string>) returns (names: seq<string>, raw: set<nat>)
    requires Word(f)
    ensures names == NamesBelow(f, table, WIDTH) && raw == RawOf(f, table)
  {
    names, raw := [], {};
    for bit := 0 to WIDTH
      invariant names == NamesBelow(f, table, bit)
      invariant raw == set b | b in f && b < bit && !IsNamed(table, b)
    {
      if bit in f {
        if bit < |table| && table[bit] != "" {
          names := names + [table[bit]];
        } else {
          raw := raw + {bit};
        }
      }
    }
  }

  /** A bit past the word's width is shifted out. */
  function BitNamed(table: seq<string>, name: string): set<nat> {
    var i := IndexOf(table, name);
    if i < |table| && i < WIDTH then {i} else {}
  }

  function BitsNamed(table: seq<string>, names: seq<string>): set<nat> {
    if names == [] then {} else BitsNamed(table, names[..|names| - 1]) + BitNamed(table, names[|names| - 1])
  }

  function UnknownNames(table: seq<string>, names: seq<string>): seq<string> {
    if names == [] then []
    else
      var name := names[|names| - 1];
      UnknownNames(table, names[..|names| - 1]) + if IndexOf(table, name) == |table| then [name] else []
  }

  method ParseBitNames(names: seq<string>, table: seq<string>) returns (flags: set<nat>, unknown: seq<string>)
    ensures flags == BitsNamed(table, names) && unknown == UnknownNames(table, names)
  {
    flags, unknown := {}, [];
    for i := 0 to |names|
      invariant flags == BitsNamed(table, names[..i]) && unknown == UnknownNames(table, names[..i])
    {
      assert names[..i + 1][..i] == names[..i];
      var bit := IndexOf(table, names[i]);
      if bit == |table| {
        unknown := unknown + [names[i]];
        continue;
      }
      if bit < WIDTH {
        flags := flags + {bit};
      }
    }
    assert names[..|names|] == names;
  }

  /** Each bit's name is found again where it stands. */
  ghost predicate Distinct(table: seq<string>) {
    forall b: nat | b < WIDTH && IsNamed(table, b) :: IndexOf(table, table[b]) == b
  }

  function NamedBelow(f: set<nat>, table: seq<string>, n: nat): set<nat> {
    set b | b in f && b < n && IsNamed(table, b)
  }

  lemma NamedStep(f: set<nat>, table: seq<string>, n: nat)
    requires n > 0
    ensures NamedBelow(f, table, n) ==
            NamedBelow(f, table, n - 1) + if n - 1 in f && IsNamed(table, n - 1) then {n - 1} else {}
    ensures NamedBelow(f, table, 0) == {}
  {
  }

  lemma OneNameRead(table: seq<string>, front: seq<string>, bit: nat)
    requires Distinct(table) && bit < WIDTH && IsNamed(table, bit)
    ensures BitsNamed(table, front + [table[bit]]) == BitsNamed(table, front) + {bit}
    ensures UnknownNames(table, front + [table[bit]]) == UnknownNames(table, front)
  {
    assert (front + [table[bit]])[..|front|] == front;
    assert UnknownNames(table, front) + [] == UnknownNames(table, front);
  }

  lemma {:induction false} NamesRead(f: set<nat>, table: seq<string>, n: nat)
    requires Distinct(table) && n <= WIDTH
    ensures BitsNamed(table, NamesBelow(f, table, n)) == NamedBelow(f, table, n)
    ensures UnknownNames(table, NamesBelow(f, table, n)) == []
  {
    if n == 0 {
      assert NamedBelow(f, table, 0) == {};
    } else {
      hide Distinct, NamedBelow, BitsNamed, UnknownNames;
      NamesRead(f, table, n - 1);
      NamedStep(f, table, n);
      var front := NamesBelow(f, table, n - 1);
      if n - 1 in f && IsNamed(table, n - 1) {
        OneNameRead(table, front, n - 1);
      } else {
        assert front + [] == front;
      }
    }
  }

  /** The names and the raw bits are all of the word, with nothing in both and nothing unknown, for
      every word, exactly when the table names no two bits alike. */
  lemma NamesRoundTrip(table: seq<string>)
    ensures Distinct(table) <==>
            forall f | Word(f) ::
              var names := NamesBelow(f, table, WIDTH);
              && BitsNamed(table, names) + RawOf(f, table) == f && BitsNamed(table, names) !! RawOf(f, table)
              && UnknownNames(table, names) == []
  {
    hide Distinct, NamesBelow, BitsNamed, RawOf, UnknownNames;
    if Distinct(table) {
      forall f | Word(f)
        ensures BitsNamed(table, NamesBelow(f, table, WIDTH)) + RawOf(f, table) == f
        ensures BitsNamed(table, NamesBelow(f, table, WIDTH)) !! RawOf(f, table)
        ensures UnknownNames(table, NamesBelow(f, table, WIDTH)) == []
      {
        DistinctRead(f, table);
      }
    } else {
      var b := NotDistinct(table);
      assert Word({b});
    }
  }

  lemma DistinctRead(f: set<nat>, table: seq<string>)
    requires Distinct(table) && Word(f)
    ensures BitsNamed(table, NamesBelow(f, table, WIDTH)) + RawOf(f, table) == f
    ensures BitsNamed(table, NamesBelow(f, table, WIDTH)) !! RawOf(f, table)
    ensures UnknownNames(table, NamesBelow(f, table, WIDTH)) == []
  {
    NamesRead(f, table, WIDTH);
    assert NamedBelow(f, table, WIDTH) + RawOf(f, table) == f;
  }

  /** A bit whose name is found elsewhere does not come back. */
  lemma NotDistinct(table: seq<string>) returns (b: nat)
    requires !Distinct(table)
    ensures b < WIDTH && BitsNamed(table, NamesBelow({b}, table, WIDTH)) + RawOf({b}, table) != {b}
  {
    b :| b < WIDTH && IsNamed(table, b) && IndexOf(table, table[b]) != b;
    hide NamesBelow, IndexOf;
    OneName(table, b, WIDTH);
    OneNamed(table, table[b]);
    assert RawOf({b}, table) == {};
  }

  lemma OneNamed(table: seq<string>, name: string)
    ensures BitsNamed(table, [name]) <= {IndexOf(table, name)}
  {
    hide IndexOf;
    assert [name][..0] == [];
  }

  lemma {:induction false} OneName(table: seq<string>, b: nat, n: nat)
    requires IsNamed(table, b)
    ensures NamesBelow({b}, table, n) == if b < n then [table[b]] else []
  {
    if n > 0 {
      OneName(table, b, n - 1);
    }
  }

  // ----- one value --------------------------------------------------------

  const MAX_INT32 := 0x7FFF_FFFF

  predicate IsInt32(v: int) {
    -MAX_INT32 - 1 <= v <= MAX_INT32
  }

  /** NameOrNumber. */
  function NameOrNumber(v: int, table: seq<string>): string {
    if 0 <= v < |table| && table[v] != "" then table[v] else "#" + Texts.Itoa(v)
  }

  /** ValueByNameOrNumber: a name first, then a number after '#'. */
  function ValueOf(name: string, table: seq<string>): Option<int> {
    var i := IndexOf(table, name);
    if i < |table| then Some(i)
    else if name == "" || name[0] != '#' then None
    else match Texts.Atoi(name[1..]) case None => None case Some(v) => if IsInt32(v) then Some(v) else None
  }

  /** A value comes back exactly when what stands for it is not found in the table before it. */
  lemma ValueRoundTrip(v: int, table: seq<string>)
    requires IsInt32(v)
    ensures ValueOf(NameOrNumber(v, table), table) == Some(v) <==>
            IndexOf(table, NameOrNumber(v, table)) == if 0 <= v < |table| && table[v] != "" then v else |table|
  {
    var name := NameOrNumber(v, table);
    if 0 <= v < |table| && table[v] != "" {
      assert table[v] == name;
    } else {
      Texts.AtoiItoa(v);
      assert name[1..] == Texts.Itoa(v);
      var i := IndexOf(table, name);
      assert name[0] == '#';
      if i < |table| {
        assert table[i] != "" && i != v;
      }
    }
  }

  /** The letter of each of the first fifty-two bits: the small ones and then the capitals. */
  lemma {:induction false} WrittenOne(bit: nat, n: nat)
    requires bit < LETTERS && n <= WIDTH
    ensures Written({bit}, n) == if bit < n then Letter(bit) else ""
  {
    if n > 0 {
      WrittenOne(bit, n - 1);
    }
  }

  lemma LetterIs(bit: nat)
    requires bit < 52
    ensures var s := Lettered({bit});
      |s| == 1 && s[0] as int == if bit < 26 then 97 + bit else 65 + bit - 26
  {
    WrittenOne(bit, WIDTH);
    assert {bit} != {};
  }
}
