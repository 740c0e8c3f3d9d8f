/** Parameters of the terminal's colour sequences (SGR, section 8.3.117 of ECMA-48): their normal
    form, and the names the data files give them. */
module ColourCodes {
  import opened Options
  import opened Texts

  // ----- parameter lists --------------------------------------------------

  function Split(s: string): (parts: seq<string>)
    ensures |parts| > 0
  {
    var k := IndexOf(s, ';');
    if k == |s| then [s] else [s[..k]] + Split(s[k + 1..])
  }

  function Join(parts: seq<string>): string {
    if parts == [] then ""
    else if |parts| == 1 then parts[0]
    else parts[0] + ";" + Join(parts[1..])
  }

  lemma {:induction false} SplitJoin(parts: seq<string>)
    requires parts != [] && forall p | p in parts :: ';' !in p
    ensures Split(Join(parts)) == parts
  {
    assert parts[0] in parts && parts == [parts[0]] + parts[1..];
    if |parts| == 1 {
      assert IndexOf(parts[0], ';') == |parts[0]|;
    } else {
      forall p | p in parts[1..] ensures ';' !in p { assert p in parts; }
      SplitJoin(parts[1..]);
      SplitFirst(parts[0], Join(parts[1..]));
    }
  }

  lemma SplitFirst(p: string, rest: string)
    requires ';' !in p
    ensures Split(p + ";" + rest) == [p] + Split(rest)
  {
    var s := p + ";" + rest;
    assert s[..|p|] == p && s[|p|] == ';' && s[|p| + 1..] == rest;
    FirstAt(s, ';', |p|);
  }

  /** The numbers of a parameter list, if they all are. */
  function Numbers(parts: seq<string>): (r: Option<seq<int>>)
    ensures r.Some? ==> |r.value| == |parts|
    ensures r.Some? <==> forall p | p in parts :: Atoi(p).Some?
    ensures r.Some? ==> forall i | 0 <= i < |parts| :: Atoi(parts[i]) == Some(r.value[i])
  {
    if parts == [] then Some([])
    else
      assert parts[0] in parts && forall p | p in parts :: p == parts[0] || p in parts[1..];
      match (Atoi(parts[0]), Numbers(parts[1..]))
      case (Some(n), Some(rest)) => Some([n] + rest)
      case _ => None
  }

  predicate Ascending(s: seq<int>) {
    forall i, j | 0 <= i < j < |s| :: s[i] <= s[j]
  }

  function Insert(x: int, s: seq<int>): (r: seq<int>) {
    if s == [] || x <= s[0] then [x] + s else [s[0]] + Insert(x, s[1..])
  }

  lemma {:induction false} InsertElements(x: int, s: seq<int>)
    ensures multiset(Insert(x, s)) == multiset(s) + multiset{x}
  {
    if s != [] && s[0] < x {
      InsertElements(x, s[1..]);
      assert s == [s[0]] + s[1..];
    }
  }

  lemma {:induction false} InsertAscending(x: int, s: seq<int>)
    requires Ascending(s)
    ensures Ascending(Insert(x, s)) && forall y | y in Insert(x, s) :: y == x || y in s
  {
    if s != [] && s[0] < x {
      InsertAscending(x, s[1..]);
      var rest := Insert(x, s[1..]);
      forall i | 0 <= i < |rest| ensures s[0] <= rest[i] {
        assert rest[i] in rest;
      }
    }
  }

  function Sort(s: seq<int>): (r: seq<int>)
    ensures Ascending(r) && multiset(r) == multiset(s)
  {
    if s == [] then []
    else
      assert s == [s[0]] + s[1..];
      InsertElements(s[0], Sort(s[1..]));
      InsertAscending(s[0], Sort(s[1..]));
      Insert(s[0], Sort(s[1..]))
  }

  lemma LeastFirst(a: seq<int>, b: seq<int>)
    requires Ascending(b) && multiset(a) == multiset(b) && a != [] && b != []
    ensures b[0] <= a[0]
  {
    assert a[0] in multiset(b);
  }

  lemma {:induction false} AscendingUnique(a: seq<int>, b: seq<int>)
    requires Ascending(a) && Ascending(b) && multiset(a) == multiset(b)
    ensures a == b
  {
    assert |a| == |multiset(a)| == |multiset(b)| == |b|;
    if a != [] {
      LeastFirst(a, b);
      LeastFirst(b, a);
      assert a == [a[0]] + a[1..] && b == [b[0]] + b[1..];
      assert multiset(a[1..]) == multiset(a) - multiset{a[0]};
      assert multiset(b[1..]) == multiset(b) - multiset{b[0]};
      AscendingUnique(a[1..], b[1..]);
    }
  }

  function Spelled(nums: seq<int>): (parts: seq<string>)
    ensures |parts| == |nums| && forall i | 0 <= i < |nums| :: parts[i] == Itoa(nums[i])
  {
    seq(|nums|, i requires 0 <= i < |nums| => Itoa(nums[i]))
  }

  /** A list with its numbers in order, each spelled plainly; a list that is not of numbers as it is. */
  function Normal(params: string): string {
    match Numbers(Split(params))
    case None => params
    case Some(nums) => Join(Spelled(Sort(nums)))
  }

  /** The in-place insertion sort. */
  method SortInPlace(nums: array<int>)
    modifies nums
    ensures nums[..] == Sort(old(nums[..]))
  {
    if nums.Length == 0 {
      return;
    }
    for i := 1 to nums.Length
      invariant Ascending(nums[..i])
      invariant multiset(nums[..]) == multiset(old(nums[..]))
    {
      var j := i;
      while j > 0 && nums[j - 1] > nums[j]
        invariant 0 <= j <= i
        invariant forall a, b | 0 <= a < b <= i && b != j :: nums[a] <= nums[b]
        invariant multiset(nums[..]) == multiset(old(nums[..]))
      {
        nums[j - 1], nums[j] := nums[j], nums[j - 1];
        j := j - 1;
      }
    }
    assert nums[..] == nums[..nums.Length];
    AscendingUnique(nums[..], Sort(old(nums[..])));
  }

  method NormaliseSGR(params: string) returns (r: string)
    ensures r == Normal(params)
  {
    var parts := Split(params);
    var list := [];
    for i := 0 to |parts|
      invariant |list| == i && forall k | 0 <= k < i :: Atoi(parts[k]) == Some(list[k])
    {
      match Atoi(parts[i])
      case None =>
        assert parts[i] in parts;
        return params;
      case Some(n) => list := list + [n];
    }
    NumbersAre(parts, list);
    var nums := new int[|list|](i requires 0 <= i < |list| => list[i]);
    assert nums[..] == list;
    SortInPlace(nums);
    return Join(Spelled(nums[..]));
  }

  lemma DecimalPlain(n: int)
    ensures ';' !in Itoa(n)
  {
    if n < 0 { assert Itoa(n) == "-" + Decimal(-n); }
  }

  /** The normal form says the same numbers, in order. */
  lemma NormalNumbers(params: string)
    requires Numbers(Split(params)).Some?
    ensures Numbers(Split(Normal(params))) == Some(Sort(Numbers(Split(params)).value))
  {
    var was := Split(params);
    var nums := Numbers(was).value;
    var sorted := Sort(nums);
    var parts := Spelled(sorted);
    assert |sorted| == |multiset(sorted)| == |multiset(nums)| == |nums|;
    forall p | p in parts ensures ';' !in p {
      var i :| 0 <= i < |parts| && parts[i] == p;
      DecimalPlain(sorted[i]);
    }
    SplitJoin(parts);
    forall i | 0 <= i < |parts| ensures Atoi(parts[i]) == Some(sorted[i]) {
      SortedIsThere(nums, i);
      var k :| 0 <= k < |nums| && nums[k] == sorted[i];
      AtoiRange(was[k]);
      AtoiItoa(sorted[i]);
    }
    NumbersAre(parts, sorted);
  }

  lemma SortedIsThere(nums: seq<int>, i: nat)
    requires i < |Sort(nums)|
    ensures exists k :: 0 <= k < |nums| && nums[k] == Sort(nums)[i]
  {
    assert Sort(nums)[i] in multiset(Sort(nums));
  }

  lemma NumbersAre(parts: seq<string>, nums: seq<int>)
    requires |parts| == |nums| && forall i | 0 <= i < |parts| :: Atoi(parts[i]) == Some(nums[i])
    ensures Numbers(parts) == Some(nums)
  {
    hide Atoi;
    assert forall p | p in parts :: Atoi(p).Some?;
    assert Numbers(parts).value == nums;
  }

  /** Two lists of numbers have one normal form exactly when they name the same parameters, in
      whatever order and spelling. */
  lemma NormalSameNumbers(p: string, q: string)
    requires Numbers(Split(p)).Some? && Numbers(Split(q)).Some?
    ensures Normal(p) == Normal(q) <==> multiset(Numbers(Split(p)).value) == multiset(Numbers(Split(q)).value)
  {
    NormalNumbers(p);
    NormalNumbers(q);
    var a, b := Sort(Numbers(Split(p)).value), Sort(Numbers(Split(q)).value);
    if multiset(a) == multiset(b) {
      AscendingUnique(a, b);
    }
  }

  /** Normalising twice is normalising once. */
  lemma NormalIsNormal(p: string)
    ensures Normal(Normal(p)) == Normal(p)
  {
    if Numbers(Split(p)).Some? {
      NormalNumbers(p);
      NormalSameNumbers(p, Normal(p));
    }
  }

  // ----- the table of names -----------------------------------------------

  datatype Named = Named(name: string, sgr: string)

  const NAMED: seq<Named> := [
    Named("/", "0"),
    Named("red", "31"),
    Named("green", "32"),
    Named("yellow", "33"),
    Named("blue", "34"),
    Named("magenta", "35"),
    Named("cyan", "36"),
    Named("white", "37"),
    Named("bright-red", "1;31"),
    Named("bright-green", "1;32"),
    Named("bright-yellow", "1;33"),
    Named("bright-blue", "1;34"),
    Named("bright-magenta", "1;35"),
    Named("bright-cyan", "1;36"),
    Named("bright-white", "1;37")
  ]

  function CodeIn(table: seq<Named>, name: string): (r: Option<string>)
    ensures r.Some? ==> Named(name, r.value) in table
    ensures r == None ==> forall n | n in table :: n.name != name
  {
    if table == [] then None else if table[0].name == name then Some(table[0].sgr) else CodeIn(table[1..], name)
  }

  /** namedCodes. */
  function CodeOf(name: string): Option<string> {
    CodeIn(NAMED, name)
  }

  function NameIn(table: seq<Named>, sgr: string): (r: Option<string>)
    ensures r.Some? ==> exists n :: n in table && n.name == r.value && Normal(n.sgr) == sgr
    ensures r == None ==> forall n | n in table :: Normal(n.sgr) != sgr
  {
    if table == [] then None
    else if Normal(table[0].sgr) == sgr then
      assert table[0] in table;
      Some(table[0].name)
    else NameIn(table[1..], sgr)
  }

  /** sgrToName, built from the other table. */
  function NameOf(sgr: string): Option<string> {
    NameIn(NAMED, sgr)
  }

  lemma OneNumber(s: string)
    requires AllDigits(s) && s != [] && (|s| > 1 ==> s[0] != '0') && Value(s) <= MAX_INT
    ensures Numbers([s]) == Some([Value(s)]) && Itoa(Value(s)) == s && Split(s) == [s]
  {
    DecimalOfValue(s);
    AtoiPlain(s);
    NoSemicolon(s);
    hide Value, Decimal, IndexOf, AllDigits, Atoi, Numbers;
    NumbersAre([s], [Value(s)]);
  }

  lemma NoSemicolon(s: string)
    requires AllDigits(s)
    ensures IndexOf(s, ';') == |s|
  {
    assert ';' !in s;
  }

  /** A number alone, or after a smaller one, is in normal form. */
  lemma OneIsNormal(s: string)
    requires AllDigits(s) && s != [] && (|s| > 1 ==> s[0] != '0') && Value(s) <= MAX_INT
    ensures Normal(s) == s
  {
    OneNumber(s);
    hide Itoa, Value, Numbers, Split;
    assert Sort([Value(s)]) == [Value(s)] by { assert [Value(s)][1..] == []; }
    assert Spelled([Value(s)]) == [s];
  }

  lemma TwoAreNormal(b: string, s: string)
    requires AllDigits(s) && s != [] && (|s| > 1 ==> s[0] != '0') && Value(s) <= MAX_INT
    requires AllDigits(b) && b != [] && (|b| > 1 ==> b[0] != '0') && Value(b) <= Value(s)
    ensures Normal(b + ";" + s) == b + ";" + s
  {
    OneNumber(b);
    OneNumber(s);
    SplitFirst(b, s);
    TwoNumbers(b, s);
    hide *;
    JoinTwo(Value(b), Value(s), b, s);
    NormalOf(b + ";" + s, [Value(b), Value(s)]);
  }

  lemma NormalOf(params: string, nums: seq<int>)
    requires Numbers(Split(params)) == Some(nums)
    ensures Normal(params) == Join(Spelled(Sort(nums)))
  {
  }

  lemma JoinTwo(m: int, n: int, b: string, s: string)
    requires m <= n && Itoa(m) == b && Itoa(n) == s
    ensures Join(Spelled(Sort([m, n]))) == b + ";" + s
  {
    AscendingUnique([m, n], Sort([m, n]));
    hide Itoa, Sort;
    assert Spelled([m, n]) == [b, s];
    assert [b, s][1..] == [s];
  }

  lemma TwoNumbers(b: string, s: string)
    requires AllDigits(s) && AllDigits(b) && Numbers([s]) == Some([Value(s)]) && Numbers([b]) == Some([Value(b)])
    requires Split(b + ";" + s) == [b] + [s]
    ensures Numbers(Split(b + ";" + s)) == Some([Value(b), Value(s)])
  {
    NumbersAre([b, s], [Value(b), Value(s)]);
    assert [b] + [s] == [b, s];
  }

  predicate Plain(s: string) {
    '{' !in s && '}' !in s
  }

  /** What makes a row of the table usable: its name can be written between braces and is not one
      of the special forms, and its code is in normal form. */
  predicate Usable(n: Named) {
    && Plain(n.name) && n.name != "" && n.name != "lbrace" && !(|n.name| >= 4 && n.name[..4] == "sgr:")
    && Plain(n.sgr) && 'm' !in n.sgr
    && Normal(n.sgr) == n.sgr
  }

  lemma TwoDigits(c: char)
    requires IsDigit(c)
    ensures AllDigits(['3', c]) && 30 <= Value(['3', c]) < 40 && AllDigits("1") && Value("1") == 1
  {
    var s := ['3', c];
    assert s[..1] == ['3'] && Value(['3']) == 3 by { assert ['3'][..0] == []; }
    assert "1"[..0] == "";
  }

  lemma OneColour(c: char)
    requires IsDigit(c)
    ensures Normal(['3', c]) == ['3', c] && Normal(['1', ';', '3', c]) == ['1', ';', '3', c]
  {
    hide Normal;
    var s := ['3', c];
    TwoDigits(c);
    OneIsNormal(s);
    TwoAreNormal("1", s);
    assert "1" + ";" + s == ['1', ';', '3', c];
  }

  /** Each code is a colour's number, alone or after 1, or else 0. */
  lemma RowsNormal(i: nat)
    requires i < |NAMED|
    ensures Normal(NAMED[i].sgr) == NAMED[i].sgr
  {
    hide Normal;
    if i == 0 {
      ZeroIsNormal();
    } else {
      var last := if i < 8 then NAMED[i].sgr[1] else NAMED[i].sgr[3];
      OneColour(last);
    }
  }

  lemma ZeroIsNormal()
    ensures Normal("0") == "0"
  {
    assert "0"[..0] == "";
    OneIsNormal("0");
  }

  lemma NamesPlain(i: nat)
    requires i < |NAMED|
    ensures Plain(NAMED[i].name)
  {
    if i < 8 {
    } else {
      BrightPlain(i);
    }
  }

  lemma BrightPlain(i: nat)
    requires 8 <= i < |NAMED|
    ensures Plain(NAMED[i].name)
  {
    if i < 12 {
    } else {
      LastPlain(i);
    }
  }

  lemma LastPlain(i: nat)
    requires 12 <= i < |NAMED|
    ensures Plain(NAMED[i].name)
  {
  }

  lemma CodesPlain(i: nat)
    requires i < |NAMED|
    ensures Plain(NAMED[i].sgr) && 'm' !in NAMED[i].sgr
  {
  }

  lemma RowsNotSpecial(i: nat)
    requires i < |NAMED|
    ensures var name := NAMED[i].name; name != "" && name[0] != 'l' && name[0] != 's'
  {
  }

  lemma Rows(n: Named)
    requires n in NAMED
    ensures Usable(n)
  {
    hide Normal, NAMED;
    var i :| 0 <= i < |NAMED| && NAMED[i] == n;
    RowsNormal(i);
    NamesPlain(i);
    CodesPlain(i);
    RowsNotSpecial(i);
  }

  /** No name is in the table twice. */
  lemma NamesDiffer(a: Named, b: Named)
    requires a in NAMED && b in NAMED && a.name == b.name
    ensures a == b
  {
    hide NAMED;
    var i :| 0 <= i < |NAMED| && NAMED[i] == a;
    var j :| 0 <= j < |NAMED| && NAMED[j] == b;
    NameTells(i);
    NameTells(j);
  }

  function Tell(name: string): int {
    if |name| == 0 then -1
    else if |name| == 1 then 0
    else
      var bright := |name| > 7;
      var initial := if bright then name[7] else name[0];
      var colour := match initial
        case 'r' => 1
        case 'g' => 2
        case 'y' => 3
        case 'b' => 4
        case 'm' => 5
        case 'c' => 6
        case _ => 7;
      if bright then colour + 7 else colour
  }

  lemma NameTells(i: nat)
    requires i < |NAMED|
    ensures Tell(NAMED[i].name) == i
  {
  }

  /** The two tables do not drift apart: each name is found again from its own code. */
  lemma NameOfCode(n: Named)
    requires n in NAMED
    ensures CodeOf(n.name) == Some(n.sgr) && NameOf(n.sgr) == Some(n.name)
  {
    hide Normal, NAMED;
    Rows(n);
    assert CodeOf(n.name).Some?;
    NamesDiffer(n, Named(n.name, CodeOf(n.name).value));
    assert NameOf(n.sgr).Some?;
    var k :| k in NAMED && k.name == NameOf(n.sgr).value && Normal(k.sgr) == n.sgr;
    Rows(k);
    var i :| 0 <= i < |NAMED| && NAMED[i] == n;
    var j :| 0 <= j < |NAMED| && NAMED[j] == k;
    CodeTells(i);
    CodeTells(j);
  }

  function TellCode(sgr: string): int {
    if |sgr| == 1 then 0
    else if |sgr| == 2 then sgr[1] as int - '0' as int
    else if |sgr| == 4 then sgr[3] as int - '0' as int + 7
    else -1
  }

  lemma CodeTells(i: nat)
    requires i < |NAMED|
    ensures TellCode(NAMED[i].sgr) == i
  {
  }
}
