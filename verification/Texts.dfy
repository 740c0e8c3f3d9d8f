/** Strings as their bytes: numerals, and looking for a byte. */
module Texts {
  import opened Options

  const MAX_INT := 0x7FFF_FFFF_FFFF_FFFF

  predicate IsDigit(c: char) {
    '0' <= c <= '9'
  }

  predicate AllDigits(s: string) {
    forall c | c in s :: IsDigit(c)
  }

  function Value(s: string): nat
    requires AllDigits(s)
  {
    if s == [] then 0
    else
      assert AllDigits(s[..|s| - 1]) && s[|s| - 1] in s;
      Value(s[..|s| - 1]) * 10 + (s[|s| - 1] - '0') as int
  }

  /** strconv.Atoi: a sign, then digits, within 64 bits. */
  function Atoi(s: string): Option<int> {
    var negative := s != [] && s[0] == '-';
    var digits := if s != [] && (s[0] == '-' || s[0] == '+') then s[1..] else s;
    if digits == [] || !AllDigits(digits) then None
    else
      var size: int := Value(digits);
      var n := if negative then -size else size;
      if -MAX_INT - 1 <= n <= MAX_INT then Some(n) else None
  }

  function Decimal(n: nat): (s: string)
    ensures s != [] && AllDigits(s) && Value(s) == n
  {
    var last := '0' + (n % 10) as char;
    var s := if n < 10 then [last] else Decimal(n / 10) + [last];
    assert s[..|s| - 1] == if n < 10 then [] else Decimal(n / 10);
    s
  }

  function Itoa(n: int): string {
    if n < 0 then "-" + Decimal(-n) else Decimal(n)
  }

  lemma AtoiItoa(n: int)
    requires -MAX_INT - 1 <= n <= MAX_INT
    ensures Atoi(Itoa(n)) == Some(n)
  {
    if n < 0 {
      assert Itoa(n)[1..] == Decimal(-n);
    } else {
      assert Decimal(n)[0] in Decimal(n);
    }
  }

  /** The first place of c in s, or its length. */
  function IndexOf(s: string, c: char): (k: nat)
    ensures k <= |s| && c !in s[..k] && (k < |s| <==> c in s) && (k < |s| ==> s[k] == c)
  {
    if s == [] || s[0] == c then 0
    else
      var k := IndexOf(s[1..], c) + 1;
      assert s == [s[0]] + s[1..] && s[..k] == [s[0]] + s[1..][..k - 1];
      k
  }

  lemma FirstAt(s: string, c: char, k: nat)
    requires k < |s| && s[k] == c && c !in s[..k]
    ensures IndexOf(s, c) == k
  {
    var j := IndexOf(s, c);
    assert s[k] in s;
    assert forall i | 0 <= i < j :: s[..j][i] == s[i];
    assert forall i | 0 <= i < k :: s[..k][i] == s[i];
  }

  /** A numeral with no leading zero is how its value is written. */
  lemma {:induction false} DecimalOfValue(s: string)
    requires AllDigits(s) && s != [] && (|s| > 1 ==> s[0] != '0')
    ensures Decimal(Value(s)) == s && (s[0] != '0' ==> Value(s) > 0)
  {
    hide Value, Decimal;
    var front, last := s[..|s| - 1], s[|s| - 1];
    assert s == front + [last];
    ValueOf(front, last);
    if front == [] {
      ValueOfNone();
      DecimalDigit(0, last);
    } else {
      assert front[0] == s[0];
      DecimalOfValue(front);
      DecimalDigit(Value(front), last);
    }
  }

  lemma ValueOfNone()
    ensures Value("") == 0
  {
  }

  lemma DecimalDigit(n: nat, c: char)
    requires IsDigit(c)
    ensures Decimal(n * 10 + (c - '0') as int) == (if n == 0 then "" else Decimal(n)) + [c]
    ensures n == 0 && c != '0' ==> (c - '0') as int > 0
  {
    Digit(c);
  }

  lemma ValueOf(front: string, last: char)
    requires AllDigits(front + [last])
    ensures AllDigits(front) && IsDigit(last) && Value(front + [last]) == Value(front) * 10 + (last - '0') as int
  {
    var s := front + [last];
    assert s[..|s| - 1] == front && last in s;
    assert forall c | c in front :: c in s;
  }

  lemma Digit(c: char)
    requires IsDigit(c)
    ensures 0 <= (c - '0') as int < 10 && '0' + ((c - '0') as int % 10) as char == c
  {
  }

  lemma AtoiPlain(s: string)
    requires AllDigits(s) && s != [] && Value(s) <= MAX_INT
    ensures Atoi(s) == Some(Value(s))
  {
    assert s[0] in s;
  }

  lemma AtoiRange(p: string)
    ensures Atoi(p).Some? ==> -MAX_INT - 1 <= Atoi(p).value <= MAX_INT
  {
  }

  /** Numerals are decimal, the sign before them. */
  lemma SomeNumbers()
    ensures Atoi("120") == Some(120) && Atoi("-7") == Some(-7) && Atoi("+7") == Some(7) && Atoi("7-") == None && Atoi("-") == None
  {
    assert "120"[..2] == "12" && "12"[..1] == "1" && "1"[..0] == "" && "7"[..0] == "";
    assert Value("1") == 1 && Value("12") == 12 && Value("120") == 120 && Value("7") == 7;
    assert "-7"[1..] == "7" && "+7"[1..] == "7" && "-"[1..] == "";
    assert '-' in "7-" && !IsDigit('-');
  }
}
