/** Whether a word names something: two cursors over its keywords, byte by byte. */
module Keywords {

  predicate Alpha(c: char) {
    'a' <= c <= 'z' || 'A' <= c <= 'Z'
  }

  function Lower(c: char): char {
    if 'A' <= c <= 'Z' then c + ('a' - 'A') else c
  }

  predicate Blank(c: char) {
    c == ' ' || '\t' <= c <= '\r'
  }

  function TrimLeft(s: string): string {
    if s != "" && Blank(s[0]) then TrimLeft(s[1..]) else s
  }

  function TrimRight(s: string): string {
    if s != "" && Blank(s[|s| - 1]) then TrimRight(s[..|s| - 1]) else s
  }

  /** strings.TrimSpace. */
  function Trim(s: string): string {
    TrimRight(TrimLeft(s))
  }

  predicate Letters(s: string) {
    forall c | c in s :: Alpha(c)
  }

  function ByteAt(s: string, i: nat): char {
    if i >= |s| then '\0' else s[i]
  }

  /** A place where a keyword may begin: the start, or after anything but a letter. */
  predicate Starts(keywords: string, p: nat) {
    p == 0 || (p <= |keywords| && !Alpha(keywords[p - 1]))
  }

  predicate Agree(keywords: string, word: string, p: nat, n: nat)
    requires n <= |word| && p + n <= |keywords|
  {
    forall i | 0 <= i < n :: Lower(word[i]) == Lower(keywords[p + i]) && keywords[p + i] != ' '
  }

  /** The word is at p, whatever its case, holds no blank, and no letter follows. */
  predicate Found(keywords: string, word: string, p: nat) {
    p + |word| <= |keywords| && Agree(keywords, word, p, |word|) && !Alpha(ByteAt(keywords, p + |word|))
  }

  /** A run of letters that no letter comes before or after. */
  predicate MaximalRun(keywords: string, a: nat, b: nat) {
    && a < b <= |keywords| && Letters(keywords[a..b])
    && (a == 0 || !Alpha(keywords[a - 1]))
    && (b == |keywords| || !Alpha(keywords[b]))
  }

  predicate SameWord(s: string, t: string) {
    |s| == |t| && forall i | 0 <= i < |s| :: Lower(s[i]) == Lower(t[i])
  }

  /** The word is one of the keywords: equal, but for case, to a maximal run of letters. */
  ghost predicate IsKeyword(keywords: string, word: string) {
    exists a: nat, b: nat :: MaximalRun(keywords, a, b) && SameWord(word, keywords[a..b])
  }

  lemma LowerAlpha(c: char, d: char)
    requires Lower(c) == Lower(d)
    ensures Alpha(c) <==> Alpha(d)
  {
  }

  /** For a word of letters, being found where a keyword may begin is being a keyword. */
  lemma FoundIsKeyword(keywords: string, word: string)
    requires Letters(word) && word != ""
    ensures (exists p: nat :: Starts(keywords, p) && Found(keywords, word, p)) <==> IsKeyword(keywords, word)
  {
    forall p: nat | Starts(keywords, p) && Found(keywords, word, p) ensures IsKeyword(keywords, word) {
      var b := p + |word|;
      forall c | c in keywords[p..b] ensures Alpha(c) {
        var i :| 0 <= i < |word| && keywords[p..b][i] == c;
        assert word[i] in word && keywords[p + i] == c;
        LowerAlpha(word[i], c);
      }
      assert MaximalRun(keywords, p, b) && SameWord(word, keywords[p..b]);
    }
    forall a: nat, b: nat | MaximalRun(keywords, a, b) && SameWord(word, keywords[a..b])
      ensures Starts(keywords, a) && Found(keywords, word, a)
    {
      forall i | 0 <= i < |word| ensures Lower(word[i]) == Lower(keywords[a + i]) && keywords[a + i] != ' ' {
        assert keywords[a..b][i] == keywords[a + i];
        assert keywords[a..b][i] in keywords[a..b];
      }
    }
  }

  // ----- the two cursors --------------------------------------------------

  /** How far the word and the keywords at p agree, given that they do for n. */
  function Agreed(keywords: string, word: string, p: nat, n: nat): (k: nat)
    requires n <= |word| && p + n <= |keywords| && Agree(keywords, word, p, n)
    ensures n <= k <= |word| && p + k <= |keywords| && Agree(keywords, word, p, k)
    ensures k == |word| || p + k == |keywords| || keywords[p + k] == ' ' || Lower(word[k]) != Lower(keywords[p + k])
    decreases |word| - n
  {
    if n == |word| || p + n == |keywords| || keywords[p + n] == ' ' || Lower(word[n]) != Lower(keywords[p + n]) then n
    else Agreed(keywords, word, p, n + 1)
  }

  /** The first place from i on with no letter in it. */
  function PastLetters(keywords: string, i: nat): (e: nat)
    requires i <= |keywords|
    ensures i <= e <= |keywords| && (forall j | i <= j < e :: Alpha(keywords[j])) && !Alpha(ByteAt(keywords, e))
    decreases |keywords| - i
  {
    if i < |keywords| && Alpha(keywords[i]) then PastLetters(keywords, i + 1) else i
  }

  /** The attempt at p, and those after it. */
  function Scan(keywords: string, word: string, p: nat): bool
    requires p <= |keywords|
    decreases |keywords| - p
  {
    var n := Agreed(keywords, word, p, 0);
    var e := PastLetters(keywords, p + n);
    if n == |word| && !Alpha(ByteAt(keywords, p + n)) then true
    else if e == |keywords| then false
    else Scan(keywords, word, e + 1)
  }

  lemma ScanStep(keywords: string, word: string, p: nat)
    requires p <= |keywords|
    ensures var n := Agreed(keywords, word, p, 0);
      var e := PastLetters(keywords, p + n);
      Scan(keywords, word, p) ==
      if n == |word| && !Alpha(ByteAt(keywords, p + n)) then true
      else if e == |keywords| then false
      else Scan(keywords, word, e + 1)
  {
    hide Agreed, PastLetters, Alpha, ByteAt, Agree;
  }

  /** The inner loop: both cursors advance together until one of the C's tests stops them. */
  method Attempt(keywords: string, word: string, start: nat) returns (curstr: nat)
    requires start <= |keywords|
    ensures curstr == Agreed(keywords, word, start, 0)
  {
    curstr := 0;
    var curname := start;
    while curstr < |word| && curname < |keywords|
      invariant curstr <= |word| && curname == start + curstr <= |keywords| && Agree(keywords, word, start, curstr)
      invariant Agreed(keywords, word, start, 0) == Agreed(keywords, word, start, curstr)
    {
      if keywords[curname] == ' ' || Lower(word[curstr]) != Lower(keywords[curname]) {
        return;
      }
      curstr := curstr + 1;
      curname := curname + 1;
    }
  }

  method SkipLetters(keywords: string, from: nat) returns (curname: nat)
    requires from <= |keywords|
    ensures curname == PastLetters(keywords, from)
  {
    curname := from;
    while curname < |keywords| && Alpha(keywords[curname])
      invariant from <= curname <= |keywords|
      invariant PastLetters(keywords, from) == PastLetters(keywords, curname)
    {
      curname := curname + 1;
    }
  }

  method MatchesKeywords(keywords: string, given: string) returns (r: bool)
    ensures r == (Trim(given) != "" && Scan(keywords, Trim(given), 0))
    ensures r ==> exists p: nat :: Starts(keywords, p) && Found(keywords, Trim(given), p)
    ensures Trim(given) != "" && Letters(Trim(given)) ==> (r <==> IsKeyword(keywords, Trim(given)))
  {
    hide IsKeyword, Trim, Starts, Found, Scan, Letters, Agreed, PastLetters;
    var word := Trim(given);
    if word == "" {
      return false;
    }
    ScanIs(keywords, word);
    var curname := 0;
    while true
      invariant curname <= |keywords| && Scan(keywords, word, 0) == Scan(keywords, word, curname)
      decreases |keywords| - curname
    {
      ScanStep(keywords, word, curname);
      var curstr := Attempt(keywords, word, curname);
      curname := curname + curstr;
      if curstr == |word| && !Alpha(ByteAt(keywords, curname)) {
        return true;
      }
      curname := SkipLetters(keywords, curname);
      if curname == |keywords| {
        return false;
      }
      curname := curname + 1;
    }
  }

  // ----- what is found ----------------------------------------------------

  /** Between where an attempt began and where the skip after it ended, no keyword begins. */
  lemma NoneBetween(keywords: string, word: string, start: nat, n: nat, e: nat, p: nat)
    requires Letters(word) && n <= |word| && start + n <= e <= |keywords| && Agree(keywords, word, start, n)
    requires forall i | start + n <= i < e :: Alpha(keywords[i])
    requires start < p <= e
    ensures !Starts(keywords, p)
  {
    if p <= start + n {
      var i := p - 1 - start;
      assert word[i] in word && Lower(word[i]) == Lower(keywords[start + i]);
      LowerAlpha(word[i], keywords[start + i]);
    }
  }

  /** From a place where a keyword may begin: what is said to be there stands at such a place, and
      a word of letters that stands at one is said to be there. */
  lemma {:induction false} ScanFinds(keywords: string, word: string, p: nat)
    requires p <= |keywords| && Starts(keywords, p) && word != ""
    ensures Scan(keywords, word, p) ==> exists q: nat :: p <= q && Starts(keywords, q) && Found(keywords, word, q)
    ensures Letters(word) && (exists q: nat :: p <= q && Starts(keywords, q) && Found(keywords, word, q)) ==>
              Scan(keywords, word, p)
    decreases |keywords| - p
  {
    hide Agreed, PastLetters, Scan, Letters, Alpha, Lower;
    var n := Agreed(keywords, word, p, 0);
    var e := PastLetters(keywords, p + n);
    ScanStep(keywords, word, p);
    if n == |word| && !Alpha(ByteAt(keywords, p + n)) {
      assert Found(keywords, word, p);
    } else {
      if e < |keywords| {
        ScanFinds(keywords, word, e + 1);
      }
      if Letters(word) {
        AttemptFails(keywords, word, p, n, e);
      }
    }
  }

  /** When the attempt at p fails, the word is nowhere up to where the next begins. */
  lemma AttemptFails(keywords: string, word: string, p: nat, n: nat, e: nat)
    requires p <= |keywords| && n == Agreed(keywords, word, p, 0) && e == PastLetters(keywords, p + n)
    requires Letters(word) && word != "" && !(n == |word| && !Alpha(ByteAt(keywords, p + n)))
    ensures forall q: nat | p <= q <= e :: !(Starts(keywords, q) && Found(keywords, word, q))
    ensures e == |keywords| ==> forall q: nat | p <= q :: !(Starts(keywords, q) && Found(keywords, word, q))
  {
    if n < |word| && p + |word| <= |keywords| {
      assert Lower(word[n]) != Lower(keywords[p + n]) || keywords[p + n] == ' ';
    }
    assert !Found(keywords, word, p);
    forall q: nat | p <= q <= e ensures !(Starts(keywords, q) && Found(keywords, word, q)) {
      if p < q {
        NoneBetween(keywords, word, p, n, e, q);
      }
    }
  }

  /** True only of a word that stands, blanks and case apart, where a keyword may begin; and true
      of a word of letters exactly when it is a keyword. */
  lemma ScanIs(keywords: string, word: string)
    requires word != ""
    ensures Scan(keywords, word, 0) ==> exists p: nat :: Starts(keywords, p) && Found(keywords, word, p)
    ensures Letters(word) ==> (Scan(keywords, word, 0) <==> IsKeyword(keywords, word))
  {
    ScanFinds(keywords, word, 0);
    if Letters(word) {
      FoundIsKeyword(keywords, word);
    }
  }

  // ----- what is missed ---------------------------------------------------

  /** Whether the word is found in every list of keywords where it stands, and in no other. */
  ghost predicate NeverMissed(word: string) {
    forall keywords: string ::
      Scan(keywords, word, 0) <==> exists p: nat :: Starts(keywords, p) && Found(keywords, word, p)
  }

  /** Whether the word is found after each of its own beginnings that ends in no letter. */
  predicate FoundAfterItself(word: string) {
    forall j | 0 <= j < |word| && !Alpha(word[j]) :: Scan(word[..j + 1] + word, word, 0)
  }

  lemma ScanFits(keywords: string, word: string, p: nat)
    requires p <= |keywords| && Scan(keywords, word, p)
    ensures p + |word| <= |keywords|
    decreases |keywords| - p
  {
    hide Scan, Agreed, PastLetters, Lower, Alpha;
    var e := PastLetters(keywords, p + Agreed(keywords, word, p, 0));
    ScanStep(keywords, word, p);
    if e < |keywords| && Scan(keywords, word, e + 1) { ScanFits(keywords, word, e + 1); }
  }

  /** inner is, but for case, what keywords holds from a on, without blanks. */
  predicate Within(inner: string, keywords: string, a: nat) {
    && a + |inner| <= |keywords|
    && forall i | 0 <= i < |inner| :: Lower(inner[i]) == Lower(keywords[a + i]) && inner[i] != ' ' && keywords[a + i] != ' '
  }

  lemma {:induction false} AgreedFrom(keywords: string, word: string, p: nat, m: nat, n: nat)
    requires m <= n <= |word| && p + n <= |keywords| && Agree(keywords, word, p, n)
    requires n == |word| || p + n == |keywords| || keywords[p + n] == ' ' || Lower(word[n]) != Lower(keywords[p + n])
    ensures Agreed(keywords, word, p, m) == n
    decreases n - m
  {
    hide Lower;
    if m < n {
      assert Lower(word[m]) == Lower(keywords[p + m]) && keywords[p + m] != ' ';
      AgreedFrom(keywords, word, p, m + 1, n);
    }
  }

  lemma AgreedIs(keywords: string, word: string, p: nat, n: nat)
    requires n <= |word| && p + n <= |keywords| && Agree(keywords, word, p, n)
    requires n == |word| || p + n == |keywords| || keywords[p + n] == ' ' || Lower(word[n]) != Lower(keywords[p + n])
    ensures Agreed(keywords, word, p, 0) == n
  {
    hide Lower;
    AgreedFrom(keywords, word, p, 0, n);
  }

  lemma {:induction false} PastLettersIs(keywords: string, i: nat, e: nat)
    requires i <= e <= |keywords| && (forall j | i <= j < e :: Alpha(keywords[j])) && !Alpha(ByteAt(keywords, e))
    ensures PastLetters(keywords, i) == e
    decreases e - i
  {
    if i < e { PastLettersIs(keywords, i + 1, e); }
  }

  /** An attempt that succeeds in the inner string succeeds around it, when no letter follows. */
  lemma AttemptWithin(inner: string, keywords: string, a: nat, word: string, q: nat)
    requires Within(inner, keywords, a) && q + |word| <= |inner| && !Alpha(ByteAt(keywords, a + |inner|))
    requires Agreed(inner, word, q, 0) == |word| && !Alpha(ByteAt(inner, q + |word|))
    ensures Agreed(keywords, word, a + q, 0) == |word| && !Alpha(ByteAt(keywords, a + q + |word|))
  {
    forall i | 0 <= i < |word|
      ensures Lower(word[i]) == Lower(keywords[a + q + i]) && keywords[a + q + i] != ' '
    {
      assert Lower(inner[q + i]) == Lower(keywords[a + (q + i)]);
    }
    AgreedIs(keywords, word, a + q, |word|);
    if q + |word| < |inner| {
      LowerAlpha(inner[q + |word|], keywords[a + (q + |word|)]);
    }
  }

  /** One that fails inside it, with the skip after it, fails around it as far on. */
  lemma SkipWithin(inner: string, keywords: string, a: nat, word: string, q: nat, n: nat, e: nat)
    requires Within(inner, keywords, a) && q <= |inner|
    requires n == Agreed(inner, word, q, 0) && e == PastLetters(inner, q + n) < |inner|
    ensures Agreed(keywords, word, a + q, 0) == n && PastLetters(keywords, a + q + n) == a + e
  {
    forall i | 0 <= i < n
      ensures Lower(word[i]) == Lower(keywords[a + q + i]) && keywords[a + q + i] != ' '
    {
      assert Lower(inner[q + i]) == Lower(keywords[a + (q + i)]);
    }
    assert Lower(inner[q + n]) == Lower(keywords[a + (q + n)]);
    AgreedIs(keywords, word, a + q, n);
    forall j | q + n <= j <= e ensures Alpha(keywords[a + j]) == Alpha(inner[j]) {
      LowerAlpha(inner[j], keywords[a + j]);
    }
    forall j | a + q + n <= j < a + e ensures Alpha(keywords[j]) {
      assert Alpha(keywords[a + (j - a)]) == Alpha(inner[j - a]);
    }
    PastLettersIs(keywords, a + q + n, a + e);
  }

  /** What is found in the inner string is found around it. */
  lemma {:induction false} ScanWithin(inner: string, keywords: string, a: nat, word: string, q: nat)
    requires Within(inner, keywords, a) && !Alpha(ByteAt(keywords, a + |inner|)) && word != ""
    requires q <= |inner| && Scan(inner, word, q)
    ensures Scan(keywords, word, a + q)
    decreases |inner| - q
  {
    hide Scan, Agreed, PastLetters, Within, Alpha, Lower;
    var n := Agreed(inner, word, q, 0);
    var e := PastLetters(inner, q + n);
    ScanFits(inner, word, q);
    ScanStep(inner, word, q);
    WithinFits(inner, keywords, a);
    ScanStep(keywords, word, a + q);
    if n == |word| && !Alpha(ByteAt(inner, q + n)) {
      AttemptWithin(inner, keywords, a, word, q);
    } else {
      SkipWithin(inner, keywords, a, word, q, n, e);
      ScanWithin(inner, keywords, a, word, e + 1);
    }
  }

  lemma WithinFits(inner: string, keywords: string, a: nat)
    requires Within(inner, keywords, a)
    ensures a + |inner| <= |keywords|
  {
  }

  /** An attempt at a that agrees past p, where the word stands, has read one of the word's own
      beginnings before p. */
  lemma ReadBefore(keywords: string, word: string, a: nat, p: nat, n: nat)
    requires a < p && n <= |word| && p <= a + n <= |keywords| && Agree(keywords, word, a, n)
    requires Found(keywords, word, p) && Starts(keywords, p) && ' ' !in word
    ensures var j := p - a - 1; !Alpha(word[j]) && Within(word[..j + 1] + word, keywords, a)
  {
    var j := p - a - 1;
    var inner := word[..j + 1] + word;
    LowerAlpha(word[j], keywords[a + j]);
    forall i | 0 <= i < |inner|
      ensures Lower(inner[i]) == Lower(keywords[a + i]) && inner[i] != ' ' && keywords[a + i] != ' '
    {
      if i <= j {
        assert inner[i] == word[i];
      } else {
        assert inner[i] == word[i - j - 1] && keywords[a + i] == keywords[p + (i - j - 1)];
      }
    }
  }

  lemma {:induction false} ReachesFound(keywords: string, word: string, a: nat, p: nat)
    requires word != "" && ' ' !in word && FoundAfterItself(word)
    requires a <= p && Starts(keywords, p) && Found(keywords, word, p)
    ensures Scan(keywords, word, a)
    decreases p - a
  {
    hide Scan, Alpha, Lower, PastLetters, Within, Agreed;
    var n := Agreed(keywords, word, a, 0);
    var e := PastLetters(keywords, a + n);
    ScanStep(keywords, word, a);
    if a == p {
      AgreedIs(keywords, word, p, |word|);
    } else if n == |word| && !Alpha(ByteAt(keywords, a + n)) {
    } else if e < p {
      ReachesFound(keywords, word, e + 1, p);
    } else {
      assert p - 1 < a + n;
      ReadBefore(keywords, word, a, p, n);
      var inner := word[..p - a] + word;
      assert inner == word[..p - a - 1 + 1] + word && a + |inner| == p + |word|;
      ScanWithin(inner, keywords, a, word, 0);
    }
  }

  /** A word is never missed exactly when it has a blank, and so stands nowhere, or is found after
      each of its own beginnings that ends in no letter. */
  lemma MissedExactly(word: string)
    requires word != ""
    ensures NeverMissed(word) <==> ' ' in word || FoundAfterItself(word)
  {
    hide Scan;
    if ' ' in word {
      forall keywords: string
        ensures Scan(keywords, word, 0) <==> exists p: nat :: Starts(keywords, p) && Found(keywords, word, p)
      {
        BlankNotFound(keywords, word);
        ScanFinds(keywords, word, 0);
      }
    } else if FoundAfterItself(word) {
      forall keywords: string
        ensures Scan(keywords, word, 0) <==> exists p: nat :: Starts(keywords, p) && Found(keywords, word, p)
      {
        ScanFinds(keywords, word, 0);
        forall p: nat | Starts(keywords, p) && Found(keywords, word, p) ensures Scan(keywords, word, 0) {
          ReachesFound(keywords, word, 0, p);
        }
      }
    } else if NeverMissed(word) {
      forall j | 0 <= j < |word| && !Alpha(word[j]) ensures Scan(word[..j + 1] + word, word, 0) {
        StandsAfter(word, j);
      }
      assert false;
    }
  }

  lemma BlankNotFound(keywords: string, word: string)
    requires ' ' in word
    ensures forall p: nat :: !Found(keywords, word, p)
  {
    var i :| 0 <= i < |word| && word[i] == ' ';
    forall p: nat | p + |word| <= |keywords| ensures !Agree(keywords, word, p, |word|) {
      assert Lower(word[i]) != Lower(keywords[p + i]) || keywords[p + i] == ' ';
    }
  }

  lemma StandsAfter(word: string, j: nat)
    requires j < |word| && !Alpha(word[j]) && ' ' !in word
    ensures Starts(word[..j + 1] + word, j + 1) && Found(word[..j + 1] + word, word, j + 1)
  {
    var k := word[..j + 1] + word;
    assert k[j] == word[j];
    assert forall i | 0 <= i < |word| :: k[j + 1 + i] == word[i];
  }

  /** A word of two letters with something else between is missed after its own beginning: the
      attempt that gives up goes past where the word stands. */
  lemma MissedBetween(c: char)
    requires !Alpha(c) && c != ' '
    ensures var k, w := ['x', c, 'x', c, 'y'], ['x', c, 'y'];
      !Scan(k, w, 0) && Starts(k, 2) && Found(k, w, 2) && !NeverMissed(w)
  {
    hide Scan;
    var k, w := ['x', c, 'x', c, 'y'], ['x', c, 'y'];
    AgreedIs(k, w, 0, 2);
    PastLettersIs(k, 2, 3);
    ScanStep(k, w, 0);
    AgreedIs(k, w, 4, 0);
    PastLettersIs(k, 4, 5);
    ScanStep(k, w, 4);
  }

  /** So "x-y" and "x1y" are; "a-a" is not, for all its hyphen. */
  lemma SomeMissed()
    ensures !NeverMissed("x-y") && !NeverMissed("x1y") && NeverMissed("a-a")
  {
    hide Scan, NeverMissed;
    MissedBetween('-');
    MissedBetween('1');
    var w, k := "a-a", "a-" + "a-a";
    AgreedIs(k, w, 0, 3);
    ScanStep(k, w, 0);
    assert w[..1 + 1] + w == k;
    MissedExactly(w);
  }

  // ----- case -------------------------------------------------------------

  /** One character, or the two cases of one of the twenty-six letters. */
  predicate Twin(c: char, d: char) {
    || c == d
    || (97 <= c as int <= 122 && d as int == c as int - 32)
    || (97 <= d as int <= 122 && c as int == d as int - 32)
  }

  /** Case is all that is overlooked, of letters, and letters are what has two cases. */
  lemma LowerIs(c: char, d: char)
    ensures Lower(c) == Lower(d) <==> Twin(c, d)
    ensures Alpha(c) <==> exists e :: e != c && Twin(c, e)
  {
    if 65 <= c as int <= 90 {
      assert Twin(c, (c as int + 32) as char);
    }
    if 97 <= c as int <= 122 {
      assert Twin(c, (c as int - 32) as char);
    }
  }

  lemma SameWordIs(s: string, t: string)
    ensures SameWord(s, t) <==> |s| == |t| && forall i | 0 <= i < |s| :: Twin(s[i], t[i])
  {
    if |s| == |t| {
      forall i | 0 <= i < |s| ensures Lower(s[i]) == Lower(t[i]) <==> Twin(s[i], t[i]) {
        LowerIs(s[i], t[i]);
      }
    }
  }

  /** What is found is found whatever the case of the word and of the keywords. */
  lemma {:induction false} CaseIsFree(keywords: string, word: string, shouted: string, shout: string, p: nat)
    requires |shouted| == |keywords| && forall i | 0 <= i < |keywords| :: Twin(keywords[i], shouted[i])
    requires |shout| == |word| && forall i | 0 <= i < |word| :: Twin(word[i], shout[i])
    requires p <= |keywords|
    ensures Scan(shouted, shout, p) == Scan(keywords, word, p)
    decreases |keywords| - p
  {
    hide Scan, Agreed, PastLetters, Lower, Alpha, Twin;
    var n := Agreed(keywords, word, p, 0);
    var e := PastLetters(keywords, p + n);
    AgreedAnyCase(keywords, word, shouted, shout, p);
    PastAnyCase(keywords, shouted, p + n, e);
    ScanStep(keywords, word, p);
    ScanStep(shouted, shout, p);
    if p + n < |keywords| { TwinsAlike(keywords[p + n], shouted[p + n]); }
    if e < |keywords| { CaseIsFree(keywords, word, shouted, shout, e + 1); }
  }

  lemma TwinsAlike(c: char, d: char)
    requires Twin(c, d)
    ensures Lower(c) == Lower(d) && (Alpha(c) <==> Alpha(d)) && (c == ' ' <==> d == ' ')
  {
  }

  lemma AgreedAnyCase(keywords: string, word: string, shouted: string, shout: string, p: nat)
    requires |shouted| == |keywords| && forall i | 0 <= i < |keywords| :: Twin(keywords[i], shouted[i])
    requires |shout| == |word| && forall i | 0 <= i < |word| :: Twin(word[i], shout[i])
    requires p <= |keywords|
    ensures Agreed(shouted, shout, p, 0) == Agreed(keywords, word, p, 0)
  {
    hide Lower, Twin, Agreed;
    var n := Agreed(keywords, word, p, 0);
    forall i | 0 <= i < n ensures Lower(shout[i]) == Lower(shouted[p + i]) && shouted[p + i] != ' ' {
      TwinsAlike(word[i], shout[i]);
      TwinsAlike(keywords[p + i], shouted[p + i]);
    }
    if n < |word| { TwinsAlike(word[n], shout[n]); }
    if p + n < |keywords| { TwinsAlike(keywords[p + n], shouted[p + n]); }
    AgreedIs(shouted, shout, p, n);
  }

  lemma PastAnyCase(keywords: string, shouted: string, i: nat, e: nat)
    requires |shouted| == |keywords| && forall i | 0 <= i < |keywords| :: Twin(keywords[i], shouted[i])
    requires i <= |keywords| && e == PastLetters(keywords, i)
    ensures PastLetters(shouted, i) == e
  {
    hide Lower, Twin, Alpha, PastLetters;
    forall j | i <= j < e ensures Alpha(shouted[j]) {
      TwinsAlike(keywords[j], shouted[j]);
    }
    if e < |keywords| { TwinsAlike(keywords[e], shouted[e]); }
    PastLettersIs(shouted, i, e);
  }

  /** Trimming takes blanks off both ends, and all there are. */
  lemma TrimIs(s: string) returns (a: nat, b: nat)
    ensures a <= b <= |s| && Trim(s) == s[a..b]
    ensures forall i | 0 <= i < a || b <= i < |s| :: s[i] == ' ' || 9 <= s[i] as int <= 13
    ensures a < b ==> !(s[a] == ' ' || 9 <= s[a] as int <= 13) && !(s[b - 1] == ' ' || 9 <= s[b - 1] as int <= 13)
  {
    a := LeftEnd(s);
    b := RightEnd(s[a..]);
    b := a + b;
    assert s[a..][..b - a] == s[a..b];
    assert forall i | b <= i < |s| :: s[i] == s[a..][i - a];
    assert a < b ==> s[a] == s[a..][0] && s[b - 1] == s[a..][b - 1 - a];
  }

  lemma {:induction false} LeftEnd(s: string) returns (a: nat)
    ensures a <= |s| && TrimLeft(s) == s[a..] && (a < |s| ==> !(s[a] == ' ' || 9 <= s[a] as int <= 13))
    ensures forall i | 0 <= i < a :: s[i] == ' ' || 9 <= s[i] as int <= 13
  {
    if s != "" && Blank(s[0]) {
      var n := LeftEnd(s[1..]);
      assert s[1..][n..] == s[n + 1..];
      assert forall i | 1 <= i < n + 1 :: s[i] == s[1..][i - 1];
      a := n + 1;
    } else {
      a := 0;
      assert s[0..] == s;
    }
  }

  lemma {:induction false} RightEnd(s: string) returns (b: nat)
    ensures b <= |s| && TrimRight(s) == s[..b] && (b > 0 ==> !(s[b - 1] == ' ' || 9 <= s[b - 1] as int <= 13))
    ensures forall i | b <= i < |s| :: s[i] == ' ' || 9 <= s[i] as int <= 13
  {
    if s != "" && Blank(s[|s| - 1]) {
      var front := s[..|s| - 1];
      b := RightEnd(front);
      assert front[..b] == s[..b];
      assert forall i | b <= i < |front| :: s[i] == front[i];
    } else {
      b := |s|;
      assert s[..b] == s;
    }
  }
}
