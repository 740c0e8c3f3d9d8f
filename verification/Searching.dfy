/** Finding what a player named: `2.sword` is the second sword in the whole order of the search,
    because one count is carried from list to list. */
module Searching {
  import opened Options
  import Texts
  import Keywords

  datatype Being = Being(id: int, name: string, keywords: string, npc: bool)

  datatype Thing = Thing(id: int, keywords: string)

  // ----- names ------------------------------------------------------------

  predicate KeywordMatch(keywords: string, word: string) {
    Keywords.Trim(word) != "" && Keywords.Scan(keywords, Keywords.Trim(word), 0)
  }

  /** NamedBy: the whole name, or a keyword. */
  predicate NamedBy(c: Being, word: string) {
    Keywords.Trim(word) != "" &&
    (Keywords.SameWord(Keywords.Trim(word), c.name) || (c.keywords != "" && KeywordMatch(c.keywords, word)))
  }

  predicate Matches(o: Thing, word: string) {
    word != "" && KeywordMatch(o.keywords, word)
  }

  /** GetNumber: which match is meant, and the word that is left. */
  function GetNumber(arg: string): (int, string) {
    var dot := Texts.IndexOf(arg, '.');
    if dot == |arg| then (1, arg)
    else
      var prefix, rest := arg[..dot], arg[dot + 1..];
      if !Texts.AllDigits(prefix) then (0, rest)
      else match Texts.Atoi(prefix) case None => (0, rest) case Some(n) => (n, rest)
  }

  /** A count written before a dot is read back, and only the first dot is consumed. */
  lemma NumberIsRead(n: nat, word: string)
    requires n <= Texts.MAX_INT
    ensures GetNumber(Texts.Decimal(n) + "." + word) == (n, word)
  {
    var prefix := Texts.Decimal(n);
    var arg := prefix + "." + word;
    assert '.' !in prefix;
    assert arg[..|prefix|] == prefix && arg[|prefix|] == '.' && arg[|prefix| + 1..] == word;
    Texts.FirstAt(arg, '.', |prefix|);
    Texts.AtoiPlain(prefix);
  }

  /** Zero is what is read when nothing that is a count stands before the dot. */
  lemma NotANumber(prefix: string, word: string)
    requires '.' !in prefix && (prefix == "" || !Texts.AllDigits(prefix) || Texts.Value(prefix) > Texts.MAX_INT)
    ensures GetNumber(prefix + "." + word) == (0, word)
  {
    var arg := prefix + "." + word;
    assert arg[..|prefix|] == prefix && arg[|prefix|] == '.' && arg[|prefix| + 1..] == word;
    Texts.FirstAt(arg, '.', |prefix|);
    if prefix != "" && Texts.AllDigits(prefix) {
      assert prefix[0] in prefix;
    }
  }

  // ----- counting down ----------------------------------------------------

  /** What in a list answers. */
  function Hits<T>(list: seq<T>, hit: T -> bool): seq<T> {
    if list == [] then []
    else
      var front := Hits(list[..|list| - 1], hit);
      if hit(list[|list| - 1]) then front + [list[|list| - 1]] else front
  }

  /** The n-th that answers, and the count left when there are not so many. */
  function Counted<T>(hits: seq<T>, n: int): (Option<T>, int) {
    if 1 <= n <= |hits| then (Some(hits[n - 1]), 0) else (None, n - |hits|)
  }

  lemma {:induction false} HitsAppend<T>(a: seq<T>, b: seq<T>, hit: T -> bool)
    ensures Hits(a + b, hit) == Hits(a, hit) + Hits(b, hit)
  {
    if b == [] {
      assert a + b == a;
    } else {
      HitsAppend(a, b[..|b| - 1], hit);
      assert (a + b)[..|a + b| - 1] == a + b[..|b| - 1];
    }
  }

  /** One count over two lists is one count over the one after the other, whatever the count. */
  lemma CountedOn<T>(a: seq<T>, b: seq<T>, n: int)
    requires n != 0
    ensures var (found, left) := Counted(a, n);
      Counted(a + b, n) == if found.Some? then (found, left) else Counted(b, left)
    ensures var (found, left) := Counted(a, n); n > 0 && found == None ==> left > 0
  {
  }

  lemma NoneOfNone<T>(hits: seq<T>)
    ensures Counted(hits, 1).0 == None ==> hits == []
  {
  }

  /** Once found in a part of the list from its front, found in the list. */
  lemma CountedEarly<T>(part: seq<T>, list: seq<T>, hit: T -> bool, n: int)
    requires part <= list && n != 0 && Counted(Hits(part, hit), n).0.Some?
    ensures Counted(Hits(list, hit), n) == Counted(Hits(part, hit), n)
  {
    hide Hits;
    assert list == part + list[|part|..];
    HitsAppend(part, list[|part|..], hit);
  }

  lemma HitsStep<T>(list: seq<T>, i: nat, hit: T -> bool)
    requires i < |list|
    ensures Hits(list[..i + 1], hit) == Hits(list[..i], hit) + if hit(list[i]) then [list[i]] else []
  {
    assert list[..i + 1][..i] == list[..i];
  }

  function Worn(eq: seq<Option<Thing>>): seq<Thing> {
    if eq == [] then []
    else Worn(eq[..|eq| - 1]) + match eq[|eq| - 1] case None => [] case Some(o) => [o]
  }

  class Search {
    const word: string
    /** What the viewer can see; everything, when nobody is looking. */
    const sees: Being -> bool
    const seesThing: Thing -> bool
    var n: int

    /** NewSearch. */
    constructor (arg: string, sees: Being -> bool, seesThing: Thing -> bool)
      ensures n == GetNumber(Keywords.Trim(arg)).0 && word == GetNumber(Keywords.Trim(arg)).1
      ensures this.sees == sees && this.seesThing == seesThing
    {
      var count := GetNumber(Keywords.Trim(arg));
      this.n, this.word, this.sees, this.seesThing := count.0, count.1, sees, seesThing;
    }

    predicate IsSelf() {
      Keywords.SameWord(word, "self") || Keywords.SameWord(word, "me")
    }

    function IsNamed(): Being -> bool {
      (c: Being) => NamedBy(c, word) && sees(c)
    }

    function IsPlayer(): Being -> bool {
      (c: Being) => !c.npc && Keywords.SameWord(c.name, word) && sees(c)
    }

    function IsSeen(): Thing -> bool {
      (o: Thing) => Matches(o, word) && seesThing(o)
    }

    function IsWorn(): Thing -> bool {
      (o: Thing) => Matches(o, word)
    }

    /** The first visible player of exactly that name. */
    method Player(list: seq<Being>) returns (found: Option<Being>)
      ensures found == Counted(Hits(list, IsPlayer()), 1).0
    {
      for i := 0 to |list|
        invariant Hits(list[..i], IsPlayer()) == []
      {
        assert list[..i + 1][..i] == list[..i];
        if !list[i].npc && Keywords.SameWord(list[i].name, word) && sees(list[i]) {
          assert list == list[..i + 1] + list[i + 1..];
          HitsAppend(list[..i + 1], list[i + 1..], IsPlayer());
          return Some(list[i]);
        }
      }
      assert list[..|list|] == list;
      return None;
    }

    /** The next visible match, or with a count of zero the player of that name. */
    method CharIn(list: seq<Being>) returns (found: Option<Being>)
      modifies `n
      ensures word == "" ==> found == None && n == old(n)
      ensures word != "" && old(n) == 0 ==> found == Counted(Hits(list, IsPlayer()), 1).0 && n == 0
      ensures word != "" && old(n) != 0 ==> (found, n) == Counted(Hits(list, IsNamed()), old(n))
    {
      hide NamedBy;
      if word == "" {
        return None;
      }
      if n == 0 {
        found := Player(list);
        return;
      }
      for i := 0 to |list|
        invariant n != 0 && (None, n) == Counted(Hits(list[..i], IsNamed()), old(n))
      {
        HitsStep(list, i, IsNamed());
        if NamedBy(list[i], word) && sees(list[i]) {
          n := n - 1;
          if n == 0 {
            CountedEarly(list[..i + 1], list, IsNamed(), old(n));
            return Some(list[i]);
          }
        }
      }
      assert list[..|list|] == list;
      return None;
    }

    /** One list and then, when that fails, another: what the two joined would have given, whatever
        the count was. */
    method CharInBoth(a: seq<Being>, b: seq<Being>) returns (found: Option<Being>)
      modifies `n
      ensures word == "" ==> found == None && n == old(n)
      ensures word != "" && old(n) == 0 ==> found == Counted(Hits(a + b, IsPlayer()), 1).0 && n == 0
      ensures word != "" && old(n) != 0 ==> (found, n) == Counted(Hits(a + b, IsNamed()), old(n))
    {
      hide Hits;
      HitsAppend(a, b, IsPlayer());
      HitsAppend(a, b, IsNamed());
      if word != "" && n != 0 {
        CountedOn(Hits(a, IsNamed()), Hits(b, IsNamed()), n);
      } else {
        CountedOn(Hits(a, IsPlayer()), Hits(b, IsPlayer()), 1);
        NoneOfNone(Hits(a, IsPlayer()));
      }
      found := CharIn(a);
      if found == None {
        found := CharIn(b);
      }
    }

    /** The next visible match; a count of zero finds nothing. */
    method ObjectIn(list: seq<Thing>) returns (found: Option<Thing>)
      modifies `n
      ensures word == "" || old(n) == 0 ==> found == None && n == old(n)
      ensures word != "" && old(n) != 0 ==> (found, n) == Counted(Hits(list, IsSeen()), old(n))
    {
      hide Matches;
      if word == "" || n == 0 {
        return None;
      }
      for i := 0 to |list|
        invariant n != 0 && (None, n) == Counted(Hits(list[..i], IsSeen()), old(n))
      {
        HitsStep(list, i, IsSeen());
        if Matches(list[i], word) && seesThing(list[i]) {
          n := n - 1;
          if n == 0 {
            CountedEarly(list[..i + 1], list, IsSeen(), old(n));
            return Some(list[i]);
          }
        }
      }
      assert list[..|list|] == list;
      return None;
    }

    /** What is worn is found whether it can be seen or not. */
    method EquippedObject(eq: seq<Option<Thing>>) returns (found: Option<Thing>)
      modifies `n
      ensures word == "" || old(n) == 0 ==> found == None && n == old(n)
      ensures word != "" && old(n) != 0 ==> (found, n) == Counted(Hits(Worn(eq), IsWorn()), old(n))
    {
      hide Matches, Hits;
      if word == "" || n == 0 {
        return None;
      }
      HitsNone(IsWorn());
      for i := 0 to |eq|
        invariant n != 0 && (None, n) == Counted(Hits(Worn(eq[..i]), IsWorn()), old(n))
      {
        WornStep(eq, i, IsWorn());
        if eq[i].Some? && Matches(eq[i].value, word) {
          n := n - 1;
          if n == 0 {
            WornFrom(eq, i + 1);
            CountedEarly(Worn(eq[..i + 1]), Worn(eq), IsWorn(), old(n));
            return eq[i];
          }
        }
      }
      assert eq[..|eq|] == eq;
      return None;
    }

    /** Several lists one after another, until something is found. */
    method ObjectInLists(lists: seq<seq<Thing>>) returns (found: Option<Thing>)
      requires word != "" && n != 0
      modifies `n
      ensures (found, n) == Counted(Hits(Joined(lists), IsSeen()), old(n))
    {
      hide Hits;
      HitsNone(IsSeen());
      for i := 0 to |lists|
        invariant n != 0 && (None, n) == Counted(Hits(Joined(lists[..i]), IsSeen()), old(n))
      {
        JoinedStep(lists, i, IsSeen());
        CountedOn(Hits(Joined(lists[..i]), IsSeen()), Hits(lists[i], IsSeen()), old(n));
        found := ObjectIn(lists[i]);
        if found.Some? {
          JoinedFrom(lists, i + 1);
          CountedEarly(Joined(lists[..i + 1]), Joined(lists), IsSeen(), old(n));
          return;
        }
      }
      assert lists[..|lists|] == lists;
      return None;
    }
  }

  datatype Found = Nobody | Who(c: Being) | What(o: Thing)

  function AsWho(hits: seq<Being>): (r: seq<Found>)
    ensures |r| == |hits| && forall i | 0 <= i < |hits| :: r[i] == Who(hits[i])
  {
    seq(|hits|, i requires 0 <= i < |hits| => Who(hits[i]))
  }

  function AsWhat(hits: seq<Thing>): (r: seq<Found>)
    ensures |r| == |hits| && forall i | 0 <= i < |hits| :: r[i] == What(hits[i])
  {
    seq(|hits|, i requires 0 <= i < |hits| => What(hits[i]))
  }

  /** Everything that answers, in the order it is looked for: characters, what is worn, and then
      each list of objects. */
  function Order(s: Search, chars: seq<Being>, eq: seq<Option<Thing>>, lists: seq<seq<Thing>>): seq<Found> {
    AsWho(Hits(chars, s.IsNamed())) + AsWhat(Hits(Worn(eq), s.IsWorn())) + AsWhat(Hits(Joined(lists), s.IsSeen()))
  }

  /** genericFind: a place that is not to be searched is an empty one, and the searcher answers to
      "self" whatever the count. */
  method GenericFind(s: Search, me: Being, inRoom: bool, chars: seq<Being>, eq: seq<Option<Thing>>, lists: seq<seq<Thing>>)
    returns (r: Found)
    requires !inRoom ==> chars == []
    modifies s
    ensures s.word == "" || old(s.n) == 0 ==> r == Nobody
    ensures s.word != "" && old(s.n) != 0 && inRoom && s.IsSelf() ==> r == Who(me)
    ensures s.word != "" && old(s.n) != 0 && !(inRoom && s.IsSelf()) ==>
              var all := Order(s, chars, eq, lists);
              r == if 1 <= old(s.n) <= |all| then all[old(s.n) - 1] else Nobody
  {
    hide Hits, Search.IsSelf;
    if s.word == "" || s.n == 0 {
      return Nobody;
    }
    if inRoom && s.IsSelf() {
      return Who(me);
    }
    var c := s.CharIn(chars);
    if c.Some? {
      return Who(c.value);
    }
    var worn := s.EquippedObject(eq);
    if worn.Some? {
      return What(worn.value);
    }
    var o := s.ObjectInLists(lists);
    if o.Some? {
      return What(o.value);
    }
    return Nobody;
  }

  lemma HitsNone(hit: Thing -> bool)
    ensures Hits([], hit) == [] && Worn([]) == [] && Joined([]) == []
  {
  }

  lemma WornStep(eq: seq<Option<Thing>>, i: nat, hit: Thing -> bool)
    requires i < |eq|
    ensures Hits(Worn(eq[..i + 1]), hit) ==
            Hits(Worn(eq[..i]), hit) + if eq[i].Some? && hit(eq[i].value) then [eq[i].value] else []
  {
    assert eq[..i + 1][..i] == eq[..i];
    var before := Worn(eq[..i]);
    if eq[i].Some? {
      assert (before + [eq[i].value])[..|before|] == before;
    } else {
      assert before + [] == before;
    }
  }

  lemma JoinedStep(lists: seq<seq<Thing>>, i: nat, hit: Thing -> bool)
    requires i < |lists|
    ensures Hits(Joined(lists[..i + 1]), hit) == Hits(Joined(lists[..i]), hit) + Hits(lists[i], hit)
  {
    assert lists[..i + 1][..i] == lists[..i];
    HitsAppend(Joined(lists[..i]), lists[i], hit);
  }

  function Joined(lists: seq<seq<Thing>>): seq<Thing> {
    if lists == [] then [] else Joined(lists[..|lists| - 1]) + lists[|lists| - 1]
  }

  lemma {:induction false} JoinedFrom(lists: seq<seq<Thing>>, i: nat)
    requires i <= |lists|
    ensures Joined(lists[..i]) <= Joined(lists)
    decreases |lists|
  {
    if i == |lists| {
      assert lists[..i] == lists;
    } else {
      JoinedFrom(lists[..|lists| - 1], i);
      assert lists[..|lists| - 1][..i] == lists[..i];
    }
  }

  lemma {:induction false} WornFrom(eq: seq<Option<Thing>>, i: nat)
    requires i <= |eq|
    ensures Worn(eq[..i]) <= Worn(eq)
    decreases |eq|
  {
    if i == |eq| {
      assert eq[..i] == eq;
    } else {
      WornFrom(eq[..|eq| - 1], i);
      assert eq[..|eq| - 1][..i] == eq[..i];
    }
  }

  // ----- what answers -----------------------------------------------------

  /** One thing answers or does not; with HitsAppend, a list's answers are those of its members in order. */
  lemma OneHit<T>(x: T, hit: T -> bool)
    ensures Hits([x], hit) == if hit(x) then [x] else []
  {
    assert [x][..0] == [] && [] + [x] == [x];
  }

  lemma LettersTrim(word: string)
    requires Keywords.Letters(word)
    ensures Keywords.Trim(word) == word
  {
    if word != "" {
      assert word[0] in word && word[|word| - 1] in word;
    }
  }

  /** A word of letters names a character whose whole name it is, or one of whose keywords, in any case. */
  lemma NamedIs(c: Being, word: string)
    requires word != "" && Keywords.Letters(word)
    ensures NamedBy(c, word) <==>
            || (|word| == |c.name| && forall i | 0 <= i < |word| :: Keywords.Twin(word[i], c.name[i]))
            || Keywords.IsKeyword(c.keywords, word)
  {
    LettersTrim(word);
    Keywords.SameWordIs(word, c.name);
    Keywords.ScanIs(c.keywords, word);
    hide Keywords.Scan, Keywords.Trim, Keywords.Letters;
    if c.keywords == "" { NoKeywords(word); }
  }

  lemma NoKeywords(word: string)
    requires word != ""
    ensures !Keywords.IsKeyword("", word)
  {
  }

  /** And a thing one of whose keywords it is. */
  lemma MatchesIs(o: Thing, word: string)
    requires word != "" && Keywords.Letters(word)
    ensures Matches(o, word) <==> Keywords.IsKeyword(o.keywords, word)
  {
    LettersTrim(word);
    Keywords.ScanIs(o.keywords, word);
    hide Keywords.Scan, Keywords.Trim, Keywords.Letters, Keywords.IsKeyword;
  }
}
