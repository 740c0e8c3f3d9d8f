/** When the order in which corpses rot shows: in the lists they spill into, and in what is said of
    them. */
module DecayOrder {
  import opened ObjectGraph
  import opened Options
  import opened Sequences
  import opened Extraction
  import opened Decay
  import Carry

  ghost predicate AllPlaced(s: State, due: seq<Object>) {
    forall o | o in due :: o in s.place && s.place[o] != Nowhere
  }

  /** One of the orders in which the due can be walked. */
  ghost predicate OrderOf(a: seq<Object>, due: seq<Object>) {
    NoDup(a) && Elems(a) == Elems(due)
  }

  ghost function RankIn(s: State): (rank: map<nat, nat>)
    requires Acyclic(s.place)
    ensures Ranked(s.place, rank)
  {
    var rank :| Ranked(s.place, rank);
    rank
  }

  lemma TopExists(rank: map<nat, nat>)
    ensures exists top: nat :: Bounded(rank, top)
  {
    var top := Carry.RankBound(rank);
    BoundedBy(rank, top);
  }

  ghost function TopIn(s: State): (top: nat)
    requires Acyclic(s.place)
    ensures Bounded(RankIn(s), top)
  {
    TopExists(RankIn(s));
    var top: nat :| Bounded(RankIn(s), top);
    top
  }

  /** The first place on the way out of p that is not inside something gone. */
  ghost function HomeIn(s: State, gone: set<Object>, p: Placement): Placement
    requires Acyclic(s.place)
  {
    Home(s.place, RankIn(s), TopIn(s), gone, p)
  }

  lemma HomeOn(s: State, gone: set<Object>, p: Placement)
    requires Acyclic(s.place)
    ensures HomeIn(s, gone, p) ==
            if p.InContainer? && p.container in gone && p.container in s.place then
              HomeIn(s, gone, Refuge(s.place[p.container]))
            else p
  {
  }

  /** Where everything is afterwards. */
  lemma DecayPlaces(s: State, due: seq<Object>)
    requires Inv(s) && NoDup(due) && AllPlaced(s, due)
    ensures var t := DecayAll(s, due);
      && Acyclic(s.place) && Inv(t) && t.place.Keys == s.place.Keys
      && forall x | x in s.place ::
           t.place[x] == if x in due then Nowhere else HomeIn(s, Elems(due), s.place[x])
  {
    HasNoCycle(s);
    hide Inv, DecayAll, Home, Elems, Ranked, Acyclic;
    DecayEffect(s, due, RankIn(s), TopIn(s));
  }

  lemma HasNoCycle(s: State)
    requires Inv(s)
    ensures Acyclic(s.place)
  {
  }

  /** Home is in nothing gone. */
  lemma {:induction false} HomeIsOut(place: map<Object, Placement>, rank: map<nat, nat>, top: nat, gone: set<Object>, p: Placement)
    requires Ranked(place, rank) && Bounded(rank, top)
    ensures var q := Home(place, rank, top, gone, p); !(q.InContainer? && q.container in gone && q.container in place)
    decreases if Height(place, rank, p) == 0 then 0 else top + 2 - Height(place, rank, p)
  {
    if p.InContainer? && p.container in gone && p.container in place {
      HomeIsOut(place, rank, top, gone, Refuge(place[p.container]));
    }
  }

  // ----- one thing before another -----------------------------------------

  ghost predicate Before(list: seq<Object>, x: Object, y: Object) {
    exists i, j | 0 <= i < j < |list| :: list[i] == x && list[j] == y
  }

  lemma NotBoth(list: seq<Object>, x: Object, y: Object)
    requires NoDup(list) && Before(list, x, y)
    ensures !Before(list, y, x) && x in list && y in list && x != y
  {
  }

  lemma OneOrOther(list: seq<Object>, x: Object, y: Object)
    requires x in list && y in list && x != y
    ensures Before(list, x, y) || Before(list, y, x)
  {
    var i :| 0 <= i < |list| && list[i] == x;
    var j :| 0 <= j < |list| && list[j] == y;
  }

  lemma AcrossJoin(a: seq<Object>, b: seq<Object>, x: Object, y: Object)
    requires x in a && y in b
    ensures Before(a + b, x, y)
  {
    var i :| 0 <= i < |a| && a[i] == x;
    var j :| 0 <= j < |b| && b[j] == y;
    assert (a + b)[i] == x && (a + b)[|a| + j] == y;
  }

  lemma WithinJoin(a: seq<Object>, b: seq<Object>, x: Object, y: Object)
    requires Before(a, x, y) || Before(b, x, y)
    ensures Before(a + b, x, y)
  {
    if Before(a, x, y) {
      var i, j :| 0 <= i < j < |a| && a[i] == x && a[j] == y;
      assert (a + b)[i] == x && (a + b)[j] == y;
    } else {
      var i, j :| 0 <= i < j < |b| && b[i] == x && b[j] == y;
      assert (a + b)[|a| + i] == x && (a + b)[|a| + j] == y;
    }
  }

  lemma {:induction false} BeforeReversed(list: seq<Object>, x: Object, y: Object)
    requires Before(list, x, y)
    ensures Before(Reverse(list), y, x)
  {
    var i, j :| 0 <= i < j < |list| && list[i] == x && list[j] == y;
    if i == 0 {
      assert list[1..][j - 1] == y;
      ReverseElements(list[1..]);
      AcrossJoin(Reverse(list[1..]), [x], y, x);
    } else {
      assert list[1..][i - 1] == x && list[1..][j - 1] == y;
      BeforeReversed(list[1..], x, y);
      WithinJoin(Reverse(list[1..]), [list[0]], y, x);
    }
  }

  lemma {:induction false} BeforeWithout(list: seq<Object>, o: Object, x: Object, y: Object)
    requires Before(list, x, y) && o != x && o != y
    ensures Before(Without(list, o), x, y)
  {
    var i, j :| 0 <= i < j < |list| && list[i] == x && list[j] == y;
    var rest := list[1..];
    if list[0] == o {
      assert rest[i - 1] == x && rest[j - 1] == y;
    } else if i == 0 {
      assert rest[j - 1] == y && y in rest;
      WithoutHas(rest, o, y);
      AcrossJoin([x], Without(rest, o), x, y);
    } else {
      assert rest[i - 1] == x && rest[j - 1] == y;
      BeforeWithout(rest, o, x, y);
      WithinJoin([list[0]], Without(rest, o), x, y);
    }
  }

  lemma {:induction false} WithoutHas(list: seq<Object>, o: Object, y: Object)
    requires y in list && y != o
    ensures y in Without(list, o)
  {
    if list[0] != o && list[0] != y {
      WithoutHas(list[1..], o, y);
    }
  }

  /** Two lists of the same things in the same order, pair by pair, are one. */
  lemma {:induction false} SameOrder(a: seq<Object>, b: seq<Object>)
    requires NoDup(a) && NoDup(b) && (forall x :: x in a <==> x in b)
    requires forall x, y | Before(a, x, y) :: Before(b, x, y)
    ensures a == b
  {
    if a == [] {
      if b != [] { SomethingIn(b); }
    } else {
      assert a[0] in b;
      SameHead(a, b);
      var x := a[0];
      assert a == [x] + a[1..] && b == [x] + b[1..];
      forall y ensures y in a[1..] <==> y in b[1..] {
        TailHas(a, y);
        TailHas(b, y);
      }
      forall y, z | Before(a[1..], y, z) ensures Before(b[1..], y, z) {
        WithinJoin([x], a[1..], y, z);
        TailBefore(a, b, y, z);
      }
      SameOrder(a[1..], b[1..]);
    }
  }

  lemma SomethingIn(b: seq<Object>)
    requires b != []
    ensures exists x :: x in b
  {
    assert b[0] in b;
  }

  lemma TailHas(a: seq<Object>, y: Object)
    requires NoDup(a) && a != []
    ensures y in a[1..] <==> y in a && y != a[0]
  {
    assert a == [a[0]] + a[1..];
  }

  lemma SameHead(a: seq<Object>, b: seq<Object>)
    requires NoDup(b) && a != [] && b != [] && (forall x :: x in a <==> x in b)
    requires forall x, y | Before(a, x, y) :: Before(b, x, y)
    ensures a[0] == b[0]
  {
    assert b[0] in b;
    var j :| 0 <= j < |a| && a[j] == b[0];
    assert j > 0 ==> Before(a, a[0], b[0]);
  }

  lemma TailBefore(a: seq<Object>, b: seq<Object>, y: Object, z: Object)
    requires NoDup(a) && a != [] && b != [] && a[0] == b[0] && Before(a[1..], y, z) && Before(b, y, z)
    ensures Before(b[1..], y, z)
  {
    var i, j :| 0 <= i < j < |b| && b[i] == y && b[j] == z;
    var k, l :| 0 <= k < l < |a[1..]| && a[1..][k] == y && a[1..][l] == z;
    assert a[k + 1] == y;
    assert b[1..][i - 1] == y && b[1..][j - 1] == z;
  }

  // ----- one corpse going -------------------------------------------------

  /** A list outside o keeps its order, less o, behind what o spills there. */
  lemma OneLessAt(u: State, o: Object, q: Placement)
    requires Inv(u) && o in u.place && u.place[o] != Nowhere && q != InContainer(o)
    ensures At(Extract(u, o), q) ==
            (if q == Refuge(u.place[o]) then Reverse(Contents(u, o)) else []) + Without(At(u, q), o)
  {
    hide Without, Reverse, At;
    ExtractPlacedEffect(u, o, {});
  }

  lemma KeepsPair(u: State, o: Object, q: Placement, x: Object, y: Object)
    requires Inv(u) && o in u.place && u.place[o] != Nowhere && q != InContainer(o)
    requires Before(At(u, q), x, y) && o != x && o != y
    ensures Before(At(Extract(u, o), q), x, y)
  {
    hide *;
    OneLessAt(u, o, q);
    BeforeWithout(At(u, q), o, x, y);
    WithinJoin(if q == Refuge(u.place[o]) then Reverse(Contents(u, o)) else [], Without(At(u, q), o), x, y);
  }

  /** What two things were in turns them round when it goes. */
  lemma TurnsPair(u: State, o: Object, x: Object, y: Object)
    requires Inv(u) && o in u.place && u.place[o] != Nowhere && Before(Contents(u, o), x, y)
    ensures Before(At(Extract(u, o), Refuge(u.place[o])), y, x)
  {
    NotInside(u, o);
    hide *;
    var q := Refuge(u.place[o]);
    OneLessAt(u, o, q);
    BeforeReversed(Contents(u, o), x, y);
    WithinJoin(Reverse(Contents(u, o)), Without(At(u, q), o), y, x);
  }

  /** What is spilt comes before what was there. */
  lemma SpillsInFront(u: State, o: Object, x: Object, y: Object)
    requires Inv(u) && o in u.place && u.place[o] != Nowhere
    requires x in Contents(u, o) && y in At(u, Refuge(u.place[o])) && y != o
    ensures Before(At(Extract(u, o), Refuge(u.place[o])), x, y)
  {
    NotInside(u, o);
    hide *;
    var q := Refuge(u.place[o]);
    OneLessAt(u, o, q);
    ReverseElements(Contents(u, o));
    WithoutHas(At(u, q), o, y);
    AcrossJoin(Reverse(Contents(u, o)), Without(At(u, q), o), x, y);
  }

  lemma NotInside(u: State, o: Object)
    requires Inv(u) && o in u.place
    ensures Refuge(u.place[o]) != InContainer(o)
  {
    NotInItself(u, o);
  }

  // ----- what stays where it was ------------------------------------------

  lemma WithoutEnd(front: seq<Object>, rest: seq<Object>, o: Object) returns (f: seq<Object>)
    requires NoDup(front + rest)
    ensures Without(front + rest, o) == f + Without(rest, o)
  {
    if o in front {
      var i :| 0 <= i < |front| && front[i] == o;
      assert (front + rest)[i] == o;
      assert forall j | 0 <= j < |rest| :: (front + rest)[|front| + j] == rest[j] != o;
      WithoutAbsent(rest, o);
      WithoutFirst(front, rest, o);
      f := Without(front, o);
    } else {
      WithoutPast(front, rest, o);
      f := front;
    }
  }

  lemma {:induction false} WithoutFirst(front: seq<Object>, rest: seq<Object>, o: Object)
    requires o in front
    ensures Without(front + rest, o) == Without(front, o) + rest
  {
    if front[0] == o {
      assert (front + rest)[1..] == front[1..] + rest;
    } else {
      assert front == [front[0]] + front[1..] && (front + rest)[1..] == front[1..] + rest;
      WithoutFirst(front[1..], rest, o);
    }
  }

  lemma MinusNone(list: seq<Object>)
    ensures Elems<Object>([]) == {} && Minus(list, {}) == list
  {
    MinusElements(list, {});
  }

  /** Whatever the order, a list that is in nothing that decays ends as it was, less what decayed,
      behind what has been spilt there. */
  lemma {:induction false} StaysInOrder(s: State, due: seq<Object>, q: Placement) returns (front: seq<Object>)
    requires Inv(s) && NoDup(due) && AllPlaced(s, due) && forall o | o in due :: q != InContainer(o)
    ensures At(DecayAll(s, due), q) == front + Minus(At(s, q), Elems(due))
  {
    hide Inv, Extract, Minus, At;
    if due == [] {
      MinusNone(At(s, q));
      front := [];
    } else {
      var before, o := due[..|due| - 1], due[|due| - 1];
      assert due == before + [o] && Elems(due) == Elems(before) + {o};
      front := StaysInOrder(s, before, q);
      StillPlaced(s, before, o);
      front := OneLess(DecayAll(s, before), o, q, front, Minus(At(s, q), Elems(before)));
      ListHolds(s, q);
      MinusAnother(At(s, q), Elems(before), o);
    }
  }

  lemma StillPlaced(s: State, before: seq<Object>, o: Object)
    requires Inv(s) && NoDup(before) && AllPlaced(s, before) && o !in before && o in s.place && s.place[o] != Nowhere
    ensures var u := DecayAll(s, before); Inv(u) && o in u.place && u.place[o] != Nowhere
  {
    HasNoCycle(s);
    hide Inv, DecayAll, Home, Ranked, Acyclic;
    DecayEffect(s, before, RankIn(s), TopIn(s));
    HomeSomewhere(s.place, RankIn(s), TopIn(s), Elems(before), s.place[o]);
  }

  lemma OneLess(u: State, o: Object, q: Placement, front: seq<Object>, rest: seq<Object>) returns (f: seq<Object>)
    requires Inv(u) && o in u.place && u.place[o] != Nowhere && q != InContainer(o) && At(u, q) == front + rest
    ensures At(Extract(u, o), q) == f + Without(rest, o)
  {
    hide *;
    ListHolds(u, q);
    f := WithoutEnd(front, rest, o);
    OneLessAt(u, o, q);
    var spilt := if q == Refuge(u.place[o]) then Reverse(Contents(u, o)) else [];
    Associates(spilt, f, Without(rest, o));
    f := spilt + f;
  }

  // ----- when the order shows in the lists --------------------------------

  /** x is directly in something due. */
  predicate InDue(s: State, due: seq<Object>, x: Object) {
    x in s.place && s.place[x].InContainer? && s.place[x].container in due
  }

  /** x, which is not due, is spilt. */
  predicate Spills(s: State, due: seq<Object>, x: Object) {
    x !in due && InDue(s, due, x)
  }

  /** No two things that are spilt end up together, unless out of one thing that is in nothing due. */
  ghost predicate Untangled(s: State, due: seq<Object>)
    requires Acyclic(s.place)
  {
    forall x, y | x in s.place && y in s.place && x != y && Spills(s, due, x) && Spills(s, due, y)
                  && HomeIn(s, Elems(due), s.place[x]) == HomeIn(s, Elems(due), s.place[y]) ::
      s.place[x] == s.place[y] && !InDue(s, due, s.place[x].container)
  }

  lemma DecayOne(s: State, a: seq<Object>, o: Object)
    ensures DecayAll(s, a + [o]) == Extract(DecayAll(s, a), o)
  {
    assert (a + [o])[..|a|] == a;
  }

  /** The list of a place holds exactly what is there. */
  lemma HeldThere(u: State, x: Object)
    requires Inv(u) && x in u.place && u.place[x] != Nowhere
    ensures x in At(u, u.place[x])
    ensures u.place[x].InContainer? ==> x in Contents(u, u.place[x].container)
  {
    ListHolds(u, u.place[x]);
  }

  /** Of two corpses the last to go spills in front, whatever the one was in the other. */
  lemma LastInFront(v: State, j: Object, k: Object, x: Object, y: Object)
    requires Inv(v) && j in v.place && k in v.place && v.place[j] != Nowhere && v.place[k] != Nowhere && j != k
    requires x in v.place && y in v.place && v.place[x] == InContainer(j) && v.place[y] == InContainer(k)
    requires x != j && x != k && y != j && y != k
    ensures var t := Extract(Extract(v, k), j);
      x in t.place && y in t.place && (t.place[x] == t.place[y] ==> Before(At(t, t.place[x]), x, y))
  {
    hide *;
    var u := Extract(v, k);
    PlacedOut(v, k);
    ListHolds(v, InContainer(k));
    RefugeIs(v.place[k]);
    RefugeIs(v.place[j]);
    assert u.place[x] == InContainer(j);
    assert u.place[y] == Refuge(v.place[k]);
    PlacedOut(u, j);
    var t, q := Extract(u, j), Refuge(u.place[j]);
    assert t.place[x] == q;
    HeldThere(u, x);
    HeldThere(u, y);
    if u.place[y] == InContainer(j) {
      ContentsIs(u, j);
      HeldThere(v, x);
      HeldThere(v, y);
      SpillsInFront(v, k, y, x);
      TurnsPair(u, j, y, x);
    } else if u.place[y] == q {
      SpillsInFront(u, j, x, y);
    }
  }

  lemma ContentsIs(s: State, k: Object)
    ensures Contents(s, k) == At(s, InContainer(k))
  {
  }

  lemma RefugeIs(p: Placement)
    ensures Refuge(p) == Nowhere <==> p == Nowhere
    ensures Refuge(p).InContainer? ==> Refuge(p) == p
    ensures p.InContainer? ==> Refuge(p) == p
  {
  }

  /** Where something that is spilt ends up, seen from before some of the due have gone. */
  lemma SpiltHome(s: State, rest: seq<Object>, d: Object, x: Object)
    requires Inv(s) && NoDup(rest) && AllPlaced(s, rest) && d !in rest && x !in rest && d in s.place && x in s.place
    requires s.place[x] == InContainer(d)
    ensures var v := DecayAll(s, rest); Inv(v) && x in v.place && d in v.place && v.place[x] == InContainer(d)
  {
    DecayPlaces(s, rest);
    HomeOn(s, Elems(rest), s.place[x]);
  }

  /** The due without two of them. */
  lemma RestOf(due: seq<Object>, j: Object, k: Object) returns (rest: seq<Object>)
    requires NoDup(due) && j in due && k in due && j != k
    ensures NoDup(rest) && j !in rest && k !in rest
    ensures forall x :: x in rest <==> x in due && x != j && x != k
    ensures OrderOf(rest + [j] + [k], due) && OrderOf(rest + [k] + [j], due)
  {
    rest := Minus(due, {j, k});
    MinusElements(due, {j, k});
    MinusDistinct(due, {j, k});
    assert forall x | x in due :: x in rest || x == j || x == k;
    TwoMore(due, rest, j, k);
    TwoMore(due, rest, k, j);
  }

  lemma TwoMore(due: seq<Object>, rest: seq<Object>, j: Object, k: Object)
    requires NoDup(rest) && j !in rest && k !in rest && j != k
    requires forall x :: x in due <==> x in rest || x == j || x == k
    ensures OrderOf(rest + [j] + [k], due)
  {
    OneMoreDistinct(rest, j);
    OneMoreDistinct(rest + [j], k);
    forall x ensures x in due <==> x in rest + [j] + [k] {}
    assert Elems(rest + [j] + [k]) == Elems(due);
  }

  lemma OneMoreDistinct(s: seq<Object>, o: Object)
    requires NoDup(s) && o !in s
    ensures NoDup(s + [o])
  {
  }

  lemma {:induction false} MinusDistinct(s: seq<Object>, gone: set<Object>)
    requires NoDup(s)
    ensures NoDup(Minus(s, gone))
  {
    if s != [] {
      MinusDistinct(s[1..], gone);
      MinusElements(s[1..], gone);
      assert s[0] !in s[1..];
    }
  }

  lemma PlacedRest(s: State, due: seq<Object>, rest: seq<Object>)
    requires AllPlaced(s, due) && forall x | x in rest :: x in due
    ensures AllPlaced(s, rest)
  {
  }

  lemma SameDue(a: seq<Object>, due: seq<Object>)
    requires OrderOf(a, due)
    ensures forall x :: x in a <==> x in due
    ensures NoDup(a)
  {
    forall x ensures x in a <==> x in due {
      assert x in Elems(a) <==> x in Elems(due);
    }
  }

  /** In any order, what is spilt is at its home. */
  lemma EndsAtHome(s: State, due: seq<Object>, a: seq<Object>, x: Object)
    requires Inv(s) && AllPlaced(s, due) && OrderOf(a, due) && x in s.place && x !in due
    ensures var t := DecayAll(s, a); Inv(t) && Acyclic(s.place) && x in t.place && t.place[x] == HomeIn(s, Elems(due), s.place[x])
  {
    SameDue(a, due);
    PlacedRest(s, due, a);
    hide Inv, Acyclic, DecayAll, HomeIn, Elems, AllPlaced, NoDup;
    DecayPlaces(s, a);
  }

  /** Two orders that leave a list in two orders. */
  ghost predicate Differ(s: State, a: seq<Object>, b: seq<Object>, q: Placement) {
    At(DecayAll(s, a), q) != At(DecayAll(s, b), q)
  }

  /** Spilt out of two things into one place: it shows which went last. */
  lemma TwoShow(s: State, due: seq<Object>, x: Object, y: Object) returns (a: seq<Object>, b: seq<Object>)
    requires Inv(s) && Acyclic(s.place) && NoDup(due) && AllPlaced(s, due) && Spills(s, due, x) && Spills(s, due, y)
    requires HomeIn(s, Elems(due), s.place[x]) == HomeIn(s, Elems(due), s.place[y]) && s.place[x] != s.place[y]
    ensures OrderOf(a, due) && OrderOf(b, due) && Differ(s, a, b, HomeIn(s, Elems(due), s.place[x]))
  {
    hide Inv, Acyclic, DecayAll, HomeIn, NoDup, Before, OrderOf, Extract, Elems, AllPlaced;
    var j, k, q := s.place[x].container, s.place[y].container, HomeIn(s, Elems(due), s.place[x]);
    DueArePlaced(s, due, j);
    DueArePlaced(s, due, k);
    var rest := RestOf(due, j, k);
    a, b := rest + [k] + [j], rest + [j] + [k];
    PlacedRest(s, due, rest);
    var v := DecayAll(s, rest);
    SpiltHome(s, rest, j, x);
    SpiltHome(s, rest, k, y);
    StillPlaced(s, rest, j);
    StillPlaced(s, rest, k);
    LastInFront(v, j, k, x, y);
    LastInFront(v, k, j, y, x);
    DecayTwo(s, rest, k, j);
    DecayTwo(s, rest, j, k);
    EndsAtHome(s, due, a, x);
    EndsAtHome(s, due, a, y);
    EndsAtHome(s, due, b, x);
    EndsAtHome(s, due, b, y);
    ListHolds(DecayAll(s, a), q);
    NotBoth(At(DecayAll(s, a), q), x, y);
  }

  lemma DueArePlaced(s: State, due: seq<Object>, o: Object)
    requires AllPlaced(s, due) && o in due
    ensures o in s.place && s.place[o] != Nowhere
  {
  }

  lemma DecayTwo(s: State, rest: seq<Object>, j: Object, k: Object)
    ensures DecayAll(s, rest + [j] + [k]) == Extract(Extract(DecayAll(s, rest), j), k)
  {
    hide Extract;
    DecayOne(s, rest, j);
    DecayOne(s, rest + [j], k);
  }

  /** One corpse directly in another: the one's contents are turned round twice or once. */
  lemma NestedTurns(v: State, d: Object, f: Object, x: Object, y: Object)
    requires Inv(v) && d in v.place && f in v.place && v.place[d] == InContainer(f) && v.place[f] != Nowhere
    requires Before(Contents(v, d), x, y) && x != f && y != f
    ensures Before(At(Extract(Extract(v, d), f), Refuge(v.place[f])), x, y)
    ensures Before(At(Extract(Extract(v, f), d), Refuge(v.place[f])), y, x)
  {
    hide *;
    NotInside(v, d);
    NotInside(v, f);
    NotMutual(v, d, f);
    ContentsIs(v, d);
    ContentsIs(Extract(v, d), f);
    ContentsIs(Extract(v, f), d);
    RefugeIs(v.place[d]);
    RefugeIs(v.place[f]);
    RefugeTwice(v.place[f]);
    var u, w := Extract(v, d), Extract(v, f);
    PlacedOut(v, d);
    TurnsPair(v, d, x, y);
    TurnsPair(u, f, y, x);
    PlacedOut(v, f);
    KeepsPair(v, f, InContainer(d), x, y);
    TurnsPair(w, d, x, y);
  }

  lemma NotMutual(v: State, d: Object, f: Object)
    requires Inv(v) && d in v.place && f in v.place && v.place[d] == InContainer(f)
    ensures v.place[f] != InContainer(d)
  {
    var rank :| Ranked(v.place, rank);
  }

  lemma RefugeTwice(p: Placement)
    ensures Refuge(Refuge(p)) == Refuge(p)
  {
  }

  /** Two things spilt out of a corpse that is in another: it shows which of the two went first. */
  lemma NestedShow(s: State, due: seq<Object>, x: Object, y: Object) returns (a: seq<Object>, b: seq<Object>)
    requires Inv(s) && Acyclic(s.place) && NoDup(due) && AllPlaced(s, due) && Spills(s, due, x) && Spills(s, due, y) && x != y
    requires s.place[x] == s.place[y] && InDue(s, due, s.place[x].container)
    ensures OrderOf(a, due) && OrderOf(b, due) && Differ(s, a, b, HomeIn(s, Elems(due), s.place[x]))
  {
    hide Inv, Acyclic, DecayAll, HomeIn, NoDup, Before, OrderOf, Extract, Elems, AllPlaced, Contents;
    var d, q := s.place[x].container, HomeIn(s, Elems(due), s.place[x]);
    var f := s.place[d].container;
    DueArePlaced(s, due, d);
    DueArePlaced(s, due, f);
    NotInside(s, d);
    var rest := RestOf(due, d, f);
    a, b := rest + [d] + [f], rest + [f] + [d];
    PlacedRest(s, due, rest);
    var v := DecayAll(s, rest);
    SpiltHome(s, rest, d, x);
    SpiltHome(s, rest, d, y);
    SpiltHome(s, rest, f, d);
    StillPlaced(s, rest, f);
    HeldThere(v, x);
    HeldThere(v, y);
    OneOrOther(Contents(v, d), x, y);
    DecayTwo(s, rest, d, f);
    DecayTwo(s, rest, f, d);
    TwiceSpilt(v, d, f, x);
    PlaceIs(DecayAll(s, a), x);
    EndsAtHome(s, due, a, x);
    ListHolds(DecayAll(s, a), q);
    if Before(Contents(v, d), x, y) {
      NestedTurns(v, d, f, x, y);
      NotBoth(At(DecayAll(s, a), q), x, y);
    } else {
      NestedTurns(v, d, f, y, x);
      NotBoth(At(DecayAll(s, a), q), y, x);
    }
  }

  lemma TwiceSpilt(v: State, d: Object, f: Object, x: Object)
    requires Inv(v) && d in v.place && f in v.place && v.place[d] == InContainer(f) && v.place[f] != Nowhere
    requires x in v.place && v.place[x] == InContainer(d) && x != d && x != f
    ensures PlaceOf(Extract(Extract(v, d), f), x) == Refuge(v.place[f])
  {
    hide *;
    NotInside(v, d);
    NotInside(v, f);
    NotMutual(v, d, f);
    PlaceIs(Extract(Extract(v, d), f), x);
    RefugeIs(v.place[d]);
    PlacedOut(v, d);
    PlacedOut(Extract(v, d), f);
  }

  // ----- when it does not -------------------------------------------------

  /** Two things in a corpse that is in nothing due stand turned round once it has gone, and as they
      were until then, whatever else goes and when. */
  lemma {:induction false} SpiltOrder(s: State, a: seq<Object>, d: Object, x: Object, y: Object)
    requires Inv(s) && NoDup(a) && AllPlaced(s, a) && d in s.place && s.place[d] != Nowhere && !InDue(s, a, d)
    requires x !in a && y !in a && x != d && y != d && Before(Contents(s, d), x, y)
    ensures d !in a ==> Before(Contents(DecayAll(s, a), d), x, y)
    ensures d in a ==> Before(At(DecayAll(s, a), Refuge(s.place[d])), y, x)
  {
    if a != [] {
      var before, o := a[..|a| - 1], a[|a| - 1];
      hide Inv, DecayAll, Before, Extract, Contents;
      assert a == before + [o];
      SpiltOrder(s, before, d, x, y);
      StillPlaced(s, before, o);
      DecayOne(s, before, o);
      var u := DecayAll(s, before);
      if o == d {
        DecayPlaces(s, before);
        HomeOn(s, Elems(before), s.place[d]);
        TurnsPair(u, d, x, y);
      } else if d in before {
        RefugeIs(s.place[d]);
        KeepsPair(u, o, Refuge(s.place[d]), y, x);
      } else {
        ContentsIs(u, d);
        ContentsIs(DecayAll(s, a), d);
        KeepsPair(u, o, InContainer(d), x, y);
      }
    }
  }

  lemma MovedAreSpilt(s: State, due: seq<Object>, x: Object)
    requires Acyclic(s.place) && x in s.place && x !in due && AllPlaced(s, due)
    requires HomeIn(s, Elems(due), s.place[x]) != s.place[x]
    ensures Spills(s, due, x)
  {
    HomeOn(s, Elems(due), s.place[x]);
  }

  /** In any order, nothing is left in anything due. */
  lemma NothingLeftIn(s: State, due: seq<Object>, a: seq<Object>, o: Object)
    requires Inv(s) && AllPlaced(s, due) && OrderOf(a, due) && o in due
    ensures At(DecayAll(s, a), InContainer(o)) == []
  {
    HasNoCycle(s);
    SameDue(a, due);
    PlacedRest(s, due, a);
    DueArePlaced(s, due, o);
    hide Inv, Acyclic, DecayAll, Home, AllPlaced, NoDup, Ranked, Bounded;
    DecayPlaces(s, a);
    var t := DecayAll(s, a);
    ListHolds(t, InContainer(o));
    forall x ensures x !in At(t, InContainer(o)) {
      if x in s.place {
        HomeIsOut(s.place, RankIn(s), TopIn(s), Elems(a), s.place[x]);
      }
    }
    if At(t, InContainer(o)) != [] { SomethingIn(At(t, InContainer(o))); }
  }

  /** When nothing is tangled, of two things newly in a list one order puts first what every order does. */
  lemma PairStands(s: State, due: seq<Object>, a: seq<Object>, b: seq<Object>, x: Object, y: Object)
    requires Inv(s) && Acyclic(s.place) && AllPlaced(s, due) && OrderOf(a, due) && OrderOf(b, due) && Untangled(s, due)
    requires x in s.place && y in s.place && Spills(s, due, x) && Spills(s, due, y)
    requires HomeIn(s, Elems(due), s.place[x]) == HomeIn(s, Elems(due), s.place[y])
    requires Before(At(DecayAll(s, a), HomeIn(s, Elems(due), s.place[x])), x, y)
    ensures Before(At(DecayAll(s, b), HomeIn(s, Elems(due), s.place[x])), x, y)
  {
    SameDue(a, due);
    SameDue(b, due);
    PlacedRest(s, due, a);
    PlacedRest(s, due, b);
    hide Inv, Acyclic, DecayAll, HomeIn, NoDup, Before, Elems, AllPlaced, Contents;
    var q := HomeIn(s, Elems(due), s.place[x]);
    EndsAtHome(s, due, a, x);
    ListHolds(DecayAll(s, a), q);
    NotBoth(At(DecayAll(s, a), q), x, y);
    var d := s.place[x].container;
    DueArePlaced(s, due, d);
    OutOfOne(s, due, d, x);
    HeldThere(s, x);
    HeldThere(s, y);
    OneOrOther(Contents(s, d), x, y);
    if Before(Contents(s, d), x, y) {
      SpiltOrder(s, a, d, x, y);
    } else {
      SpiltOrder(s, b, d, y, x);
    }
  }

  /** What is in one due thing, which is in no other, ends where that is. */
  lemma OutOfOne(s: State, due: seq<Object>, d: Object, x: Object)
    requires Acyclic(s.place) && d in due && d in s.place && !InDue(s, due, d) && x in s.place && s.place[x] == InContainer(d)
    ensures HomeIn(s, Elems(due), s.place[x]) == Refuge(s.place[d])
  {
    RefugeIs(s.place[d]);
    HomeOn(s, Elems(due), s.place[x]);
    HomeOn(s, Elems(due), Refuge(s.place[d]));
  }

  /** What stands in front of what stayed has come out of something due. */
  lemma FrontIsSpilt(s: State, due: seq<Object>, a: seq<Object>, q: Placement, f: seq<Object>, x: Object)
    requires Inv(s) && Acyclic(s.place) && AllPlaced(s, due) && OrderOf(a, due)
    requires At(DecayAll(s, a), q) == f + Minus(At(s, q), Elems(due)) && x in f
    ensures x in s.place && Spills(s, due, x) && HomeIn(s, Elems(due), s.place[x]) == q
  {
    hide *;
    SameDue(a, due);
    PlacedRest(s, due, a);
    SameSets(a, a, due);
    DecayPlaces(s, a);
    ListHolds(DecayAll(s, a), q);
    ListHolds(s, q);
    InFront(f, Minus(At(s, q), Elems(due)), x);
    MinusElements(At(s, q), Elems(due));
    ElemsIs(due, x);
    if HomeIn(s, Elems(due), s.place[x]) != s.place[x] {
      MovedAreSpilt(s, due, x);
    }
  }

  lemma ElemsIs(due: seq<Object>, x: Object)
    ensures x in Elems(due) <==> x in due
  {
  }

  lemma InFront(f: seq<Object>, kept: seq<Object>, x: Object)
    requires x in f
    ensures x in f + kept
    ensures NoDup(f + kept) ==> x !in kept && NoDup(f)
  {
    var i :| 0 <= i < |f| && f[i] == x;
    assert (f + kept)[i] == x;
    assert forall j | 0 <= j < |kept| :: (f + kept)[|f| + j] == kept[j];
    assert forall j | 0 <= j < |f| :: (f + kept)[j] == f[j];
  }

  /** What one order puts in front another does, and no otherwise ordered. */
  lemma FrontsAgree(s: State, due: seq<Object>, a: seq<Object>, b: seq<Object>, q: Placement,
                    f: seq<Object>, g: seq<Object>, kept: seq<Object>)
    requires Inv(s) && Acyclic(s.place) && AllPlaced(s, due) && OrderOf(a, due) && OrderOf(b, due) && Untangled(s, due)
    requires kept == Minus(At(s, q), Elems(due)) && At(DecayAll(s, a), q) == f + kept && At(DecayAll(s, b), q) == g + kept
    ensures forall x | x in f :: x in g
    ensures forall x, y | Before(f, x, y) :: Before(g, x, y)
  {
    hide *;
    forall x | x in f ensures x in g {
      FrontFollows(s, due, a, b, q, f, g, x);
    }
    forall x, y | Before(f, x, y) ensures Before(g, x, y) {
      BothIn(f, x, y);
      FrontFollows(s, due, a, b, q, f, g, x);
      FrontFollows(s, due, a, b, q, f, g, y);
      FrontIsSpilt(s, due, a, q, f, x);
      FrontIsSpilt(s, due, a, q, f, y);
      WithinJoin(f, kept, x, y);
      PairStands(s, due, a, b, x, y);
      SpiltIsNotDue(s, due, x);
      EndsAtHome(s, due, b, x);
      ListHolds(DecayAll(s, b), q);
      NotBoth(At(DecayAll(s, b), q), x, y);
      OneOrOther(g, x, y);
      if Before(g, y, x) { WithinJoin(g, kept, y, x); }
    }
  }

  lemma BothIn(f: seq<Object>, x: Object, y: Object)
    requires Before(f, x, y)
    ensures x in f && y in f
  {
  }

  lemma FrontFollows(s: State, due: seq<Object>, a: seq<Object>, b: seq<Object>, q: Placement, f: seq<Object>, g: seq<Object>, x: Object)
    requires Inv(s) && Acyclic(s.place) && AllPlaced(s, due) && OrderOf(a, due) && OrderOf(b, due) && x in f
    requires At(DecayAll(s, a), q) == f + Minus(At(s, q), Elems(due)) && At(DecayAll(s, b), q) == g + Minus(At(s, q), Elems(due))
    ensures x in g && NoDup(f)
  {
    var kept := Minus(At(s, q), Elems(due));
    hide *;
    FrontIsSpilt(s, due, a, q, f, x);
    SpiltIsNotDue(s, due, x);
    EndsAtHome(s, due, a, x);
    EndsAtHome(s, due, b, x);
    ListHolds(DecayAll(s, a), q);
    ListHolds(DecayAll(s, b), q);
    InFront(f, kept, x);
    assert x in g + kept;
  }

  lemma SpiltIsNotDue(s: State, due: seq<Object>, x: Object)
    requires Spills(s, due, x)
    ensures x !in due
  {
  }

  /** When nothing is tangled, every order leaves every list as any other does. */
  lemma SameLists(s: State, due: seq<Object>, a: seq<Object>, b: seq<Object>, q: Placement)
    requires Inv(s) && Acyclic(s.place) && AllPlaced(s, due) && OrderOf(a, due) && OrderOf(b, due) && Untangled(s, due)
    ensures At(DecayAll(s, a), q) == At(DecayAll(s, b), q)
  {
    hide *;
    if o :| o in due && q == InContainer(o) {
      NothingLeftIn(s, due, a, o);
      NothingLeftIn(s, due, b, o);
    } else {
      SameDue(a, due);
      SameDue(b, due);
      PlacedRest(s, due, a);
      PlacedRest(s, due, b);
      var kept := Minus(At(s, q), Elems(due));
      var f := StaysInOrder(s, a, q);
      var g := StaysInOrder(s, b, q);
      SameSets(a, b, due);
      FrontsAgree(s, due, a, b, q, f, g, kept);
      FrontsAgree(s, due, b, a, q, g, f, kept);
      FrontDistinct(s, a, q, f, kept);
      FrontDistinct(s, b, q, g, kept);
      SameOrder(f, g);
    }
  }

  lemma FrontDistinct(s: State, a: seq<Object>, q: Placement, f: seq<Object>, kept: seq<Object>)
    requires Inv(s) && NoDup(a) && AllPlaced(s, a) && At(DecayAll(s, a), q) == f + kept
    ensures NoDup(f)
  {
    hide *;
    DecayPlaces(s, a);
    ListHolds(DecayAll(s, a), q);
    if f != [] {
      SomethingIn(f);
      var x :| x in f;
      InFront(f, kept, x);
    } else {
      NothingTwice();
    }
  }

  lemma NothingTwice()
    ensures NoDup<Object>([])
  {
  }

  lemma SameSets(a: seq<Object>, b: seq<Object>, due: seq<Object>)
    requires OrderOf(a, due) && OrderOf(b, due)
    ensures Elems(a) == Elems(b) == Elems(due)
  {
  }

  /** The order of the walk does not show, in any list, exactly when nothing is tangled. */
  lemma ListsExactly(s: State, due: seq<Object>)
    requires Inv(s) && Acyclic(s.place) && NoDup(due) && AllPlaced(s, due)
    ensures Untangled(s, due) <==>
            forall a, b, q | OrderOf(a, due) && OrderOf(b, due) :: At(DecayAll(s, a), q) == At(DecayAll(s, b), q)
  {
    hide Inv, Acyclic, AllPlaced, OrderOf, NoDup, At, DecayAll, Spills, InDue, HomeIn, Elems;
    if Untangled(s, due) {
      forall a, b, q | OrderOf(a, due) && OrderOf(b, due) ensures At(DecayAll(s, a), q) == At(DecayAll(s, b), q) {
        SameLists(s, due, a, b, q);
      }
    } else {
      var a, b, q := OrderShows(s, due);
    }
  }

  lemma OrderShows(s: State, due: seq<Object>) returns (a: seq<Object>, b: seq<Object>, q: Placement)
    requires Inv(s) && Acyclic(s.place) && NoDup(due) && AllPlaced(s, due) && !Untangled(s, due)
    ensures OrderOf(a, due) && OrderOf(b, due) && At(DecayAll(s, a), q) != At(DecayAll(s, b), q)
  {
    hide Inv, Acyclic, AllPlaced, OrderOf, NoDup, At, DecayAll, HomeIn, Elems;
    var x, y :| x in s.place && y in s.place && x != y && Spills(s, due, x) && Spills(s, due, y)
                && HomeIn(s, Elems(due), s.place[x]) == HomeIn(s, Elems(due), s.place[y])
                && !(s.place[x] == s.place[y] && !InDue(s, due, s.place[x].container));
    q := HomeIn(s, Elems(due), s.place[x]);
    if s.place[x] != s.place[y] {
      a, b := TwoShow(s, due, x, y);
    } else {
      a, b := NestedShow(s, due, x, y);
    }
  }

  /** Two corpses in one place, something in each: which went last shows. */
  lemma OrderIsSeen(s: State, j: Object, k: Object, x: Object, y: Object)
    requires Inv(s) && j in s.place && k in s.place && j != k && s.place[j] == s.place[k] && s.place[j].InRoom?
    requires x in s.place && y in s.place && s.place[x] == InContainer(j) && s.place[y] == InContainer(k)
    ensures Before(At(DecayAll(s, [k, j]), s.place[j]), x, y) && Before(At(DecayAll(s, [j, k]), s.place[j]), y, x)
  {
    hide *;
    InRoomIs(s, j);
    SpiltInRoom(s, j, k, x, y);
    SpiltInRoom(s, k, j, y, x);
  }

  lemma InRoomIs(s: State, j: Object)
    requires j in s.place && s.place[j].InRoom?
    ensures s.place[j] != Nowhere && Refuge(s.place[j]) == s.place[j]
  {
  }

  lemma SpiltInRoom(s: State, j: Object, k: Object, x: Object, y: Object)
    requires Inv(s) && j in s.place && k in s.place && j != k && s.place[j] == s.place[k] && s.place[j].InRoom?
    requires x in s.place && y in s.place && s.place[x] == InContainer(j) && s.place[y] == InContainer(k)
    ensures Before(At(DecayAll(s, [k, j]), s.place[j]), x, y)
  {
    hide *;
    InRoomIs(s, j);
    var u := Extract(s, k);
    LastInFront(s, j, k, x, y);
    PlacedOut(s, k);
    PlacedOut(u, j);
    WalkOfTwo(s, k, j);
  }

  lemma WalkOfTwo(s: State, j: Object, k: Object)
    ensures DecayAll(s, [j, k]) == Extract(Extract(s, j), k)
  {
    hide Extract;
    DecayTwo(s, [], j, k);
    assert [] + [j] + [k] == [j, k];
  }

  // ----- when it shows in the reports -------------------------------------

  /** A report says of something here neither a room nor a holder. */
  predicate Untold(p: Placement) {
    !p.CarriedBy? && !p.WornBy? && !(p.InRoom? && p.room != NO_ROOM)
  }

  lemma UntoldIs(o: Object, p: Placement)
    ensures ResultOf(o, p) == DecayResult(o, NO_ROOM, None) <==> Untold(p)
  {
  }

  /** Everything due that is directly in something due ends, but for going, where nothing is told. */
  ghost predicate NoneTold(s: State, due: seq<Object>)
    requires Acyclic(s.place)
  {
    forall o | o in due && InDue(s, due, o) :: Untold(HomeIn(s, Elems(due), s.place[o]))
  }

  lemma {:induction false} ResultsAre(s: State, a: seq<Object>, i: nat)
    requires i < |a|
    ensures |Results(s, a)| == |a| && Results(s, a)[i] == ResultOf(a[i], PlaceOf(DecayAll(s, a[..i]), a[i]))
  {
    hide ResultOf, DecayAll, PlaceOf;
    var before := a[..|a| - 1];
    ResultsLength(s, before);
    if i < |before| {
      ResultsAre(s, before, i);
      assert before[..i] == a[..i];
    }
  }

  lemma {:induction false} ResultsLength(s: State, a: seq<Object>)
    ensures |Results(s, a)| == |a|
  {
    if a != [] { ResultsLength(s, a[..|a| - 1]); }
  }

  /** What is said of o depends on what has gone before it, and on nothing else. */
  lemma ReportIs(s: State, due: seq<Object>, a: seq<Object>, i: nat)
    requires Inv(s) && Acyclic(s.place) && AllPlaced(s, due) && OrderOf(a, due) && i < |a|
    ensures a[i] in due && a[i] in s.place
    ensures |Results(s, a)| == |a| && Results(s, a)[i] == ResultOf(a[i], HomeIn(s, Elems(a[..i]), s.place[a[i]]))
  {
    hide *;
    SameDue(a, due);
    FirstOf(a, i);
    DueArePlaced(s, due, a[i]);
    PlacedRest(s, due, a[..i]);
    ResultsAre(s, a, i);
    DecayPlaces(s, a[..i]);
    PlaceIs(DecayAll(s, a[..i]), a[i]);
  }

  lemma FirstOf(a: seq<Object>, i: nat)
    requires NoDup(a) && i < |a|
    ensures NoDup(a[..i]) && a[i] !in a[..i] && a[i] in a && forall x | x in a[..i] :: x in a
  {
  }

  /** With less gone, something is on its way to where it is untold, all in things that tell nothing. */
  lemma {:induction false} UntoldBefore(place: map<Object, Placement>, rank: map<nat, nat>, top: nat,
                                        some: set<Object>, all: set<Object>, p: Placement)
    requires Ranked(place, rank) && Bounded(rank, top) && some <= all
    requires Untold(Home(place, rank, top, all, p))
    ensures Untold(Home(place, rank, top, some, p))
    decreases if Height(place, rank, p) == 0 then 0 else top + 2 - Height(place, rank, p)
  {
    if p.InContainer? && p.container in some && p.container in place {
      UntoldBefore(place, rank, top, some, all, Refuge(place[p.container]));
    }
  }

  lemma SomeGone(a: seq<Object>, due: seq<Object>, i: nat)
    requires OrderOf(a, due) && i <= |a|
    ensures Elems(a[..i]) <= Elems(due)
  {
    forall x | x in Elems(a[..i]) ensures x in Elems(due) {
      assert x in a;
      assert x in Elems(a);
    }
  }

  /** Where nothing is told of it in the end, nothing is told of it in any order; and what is in
      nothing due is where it always was. */
  lemma ReportStands(s: State, due: seq<Object>, a: seq<Object>, i: nat)
    requires Inv(s) && Acyclic(s.place) && AllPlaced(s, due) && OrderOf(a, due) && i < |a| && NoneTold(s, due)
    ensures a[i] in due && a[i] in s.place && |Results(s, a)| == |a|
    ensures Results(s, a)[i] == if InDue(s, due, a[i]) then DecayResult(a[i], NO_ROOM, None) else ResultOf(a[i], s.place[a[i]])
  {
    ReportIs(s, due, a, i);
    SomeGone(a, due, i);
    var o, p := a[i], s.place[a[i]];
    hide Inv, Home, ResultOf, Results, Ranked, Bounded, DecayAll, AllPlaced, OrderOf;
    if InDue(s, due, o) {
      UntoldBefore(s.place, RankIn(s), TopIn(s), Elems(a[..i]), Elems(due), p);
      UntoldIs(o, HomeIn(s, Elems(a[..i]), p));
    } else {
      HomeOn(s, Elems(a[..i]), p);
      ElemsIs(due, if p.InContainer? then p.container else o);
    }
  }

  /** What is said of a[i] in the one order is what is said of b[j] in the other. */
  ghost predicate SameReport(s: State, a: seq<Object>, i: nat, b: seq<Object>, j: nat) {
    i < |Results(s, a)| && j < |Results(s, b)| && Results(s, a)[i] == Results(s, b)[j]
  }

  /** The order of the walk does not show, in what is said of any corpse, exactly when nothing is told
      of those that are directly in others. */
  lemma ReportsExactly(s: State, due: seq<Object>)
    requires Inv(s) && Acyclic(s.place) && NoDup(due) && AllPlaced(s, due)
    ensures NoneTold(s, due) <==>
            forall a, b, i: nat, j: nat | OrderOf(a, due) && OrderOf(b, due) && i < |a| && j < |b| && a[i] == b[j] ::
              SameReport(s, a, i, b, j)
  {
    hide Inv, Acyclic, AllPlaced, OrderOf, NoDup, Results, HomeIn, Elems, Untold, InDue, ResultOf;
    if NoneTold(s, due) {
      forall a, b, i: nat, j: nat | OrderOf(a, due) && OrderOf(b, due) && i < |a| && j < |b| && a[i] == b[j]
        ensures SameReport(s, a, i, b, j)
      {
        ReportStands(s, due, a, i);
        ReportStands(s, due, b, j);
      }
    } else {
      var a, b, j := ReportShows(s, due);
    }
  }

  /** The due with one of them first, and last. */
  lemma FirstAndLast(due: seq<Object>, o: Object) returns (rest: seq<Object>)
    requires NoDup(due) && o in due
    ensures NoDup(rest) && o !in rest && forall x | x in rest :: x in due
    ensures OrderOf([o] + rest, due) && OrderOf(rest + [o], due) && Elems(due) == Elems(rest) + {o}
  {
    rest := Minus(due, {o});
    MinusElements(due, {o});
    MinusDistinct(due, {o});
    assert forall x | x in due :: x in rest || x == o;
    OneMoreDistinct(rest, o);
    forall x ensures x in due <==> x in rest + [o] {}
    forall x ensures x in due <==> x in [o] + rest {}
    assert Elems(rest + [o]) == Elems(due) == Elems([o] + rest);
    assert Elems(due) == Elems(rest) + {o};
  }

  lemma ReportShows(s: State, due: seq<Object>) returns (a: seq<Object>, b: seq<Object>, j: nat)
    requires Inv(s) && Acyclic(s.place) && NoDup(due) && AllPlaced(s, due) && !NoneTold(s, due)
    ensures OrderOf(a, due) && OrderOf(b, due) && 0 < |a| && j < |b| && a[0] == b[j] && !SameReport(s, a, 0, b, j)
  {
    hide Inv, Acyclic, AllPlaced, OrderOf, NoDup, Results, HomeIn, Elems, ResultOf, Untold;
    var o :| o in due && InDue(s, due, o) && !Untold(HomeIn(s, Elems(due), s.place[o]));
    var rest := FirstAndLast(due, o);
    a, b, j := [o] + rest, rest + [o], |rest|;
    ReportIs(s, due, a, 0);
    ReportIs(s, due, b, j);
    assert a[..0] == [] && b[..j] == rest;
    NoneGone(s, s.place[o]);
    InsideIsUntold(s.place[o]);
    UntoldIs(o, s.place[o]);
    PlacedRest(s, due, rest);
    LastHome(s, rest, o);
    UntoldIs(o, HomeIn(s, Elems(rest), s.place[o]));
  }

  lemma InsideIsUntold(p: Placement)
    requires p.InContainer?
    ensures Untold(p)
  {
  }

  lemma NoneGone(s: State, p: Placement)
    requires Acyclic(s.place)
    ensures HomeIn(s, Elems([]), p) == p
  {
    HomeOn(s, Elems([]), p);
  }

  /** That it has gone itself changes nothing of where something ends. */
  lemma LastHome(s: State, rest: seq<Object>, o: Object)
    requires Inv(s) && Acyclic(s.place) && NoDup(rest) && AllPlaced(s, rest) && o in s.place && o !in rest
    ensures HomeIn(s, Elems(rest) + {o}, s.place[o]) == HomeIn(s, Elems(rest), s.place[o])
  {
    hide Inv, Acyclic, Home, DecayAll, NoDup, AllPlaced, Ranked, Bounded;
    DecayPlaces(s, rest);
    ElemsIs(rest, o);
    NotInside(DecayAll(s, rest), o);
    RefugeIs(HomeIn(s, Elems(rest), s.place[o]));
    HomeMore(s.place, RankIn(s), TopIn(s), Elems(rest), o, s.place[o]);
  }

  /** A corpse in a corpse on a floor: whether it is said to have gone from that floor tells which of
      the two went first. */
  lemma ReportIsSeen(s: State, outer: Object, inner: Object)
    requires Inv(s) && outer in s.place && s.place[outer].InRoom? && s.place[outer].room != NO_ROOM
    requires inner in s.place && s.place[inner] == InContainer(outer)
    ensures |Results(s, [outer, inner])| == 2 == |Results(s, [inner, outer])|
    ensures Results(s, [outer, inner])[1] == DecayResult(inner, s.place[outer].room, None)
    ensures Results(s, [inner, outer])[0] == DecayResult(inner, NO_ROOM, None)
  {
    hide Inv, Extract, Results, DecayAll;
    ResultsAre(s, [outer, inner], 1);
    ResultsAre(s, [inner, outer], 0);
    PlacedOut(s, outer);
    NotInside(s, outer);
    var none: seq<Object> := [];
    assert [inner, outer][..0] == none && [outer, inner][..1] == [outer] && none + [outer] == [outer];
    DecayOne(s, none, outer);
    WalkOfNone(s);
  }

  lemma WalkOfNone(s: State)
    ensures DecayAll(s, []) == s
  {
  }

  /** With one of the due nowhere even where things are depends on the walk: what was in a corpse
      inside it is left in it, or destroyed with it. */
  lemma NowhereIsSeen(s: State, o: Object, k: Object, x: Object)
    requires Inv(s) && o in s.place && s.place[o] == Nowhere && k in s.place && s.place[k] == InContainer(o)
    requires x in s.place && s.place[x] == InContainer(k)
    ensures PlaceOf(DecayAll(s, [o, k]), x) == InContainer(o) && PlaceOf(DecayAll(s, [k, o]), x) == Nowhere
  {
    hide Inv, Extract, DecayAll, Contents;
    WalkOfTwo(s, o, k);
    WalkOfTwo(s, k, o);
    HeldThere(s, k);
    HeldThere(s, x);
    NotInside(s, k);
    OuterFirst(s, o, k, x);
    PlacedOut(s, k);
    var u := Extract(s, k);
    HeldThere(u, x);
    ExtractLooseEffect(u, o);
  }

  lemma OuterFirst(s: State, o: Object, k: Object, x: Object)
    requires Inv(s) && o in s.place && s.place[o] == Nowhere && k in Contents(s, o)
    requires x in s.place && s.place[x] == InContainer(k) && k != o
    ensures PlaceOf(Extract(Extract(s, o), k), x) == InContainer(o)
  {
    hide Inv, Extract;
    ExtractLooseEffect(s, o);
    var t := Extract(s, o);
    HeldOnly(s, o, k);
    HeldOnly(s, o, o);
    HeldOnly(s, o, x);
    HeldOnly(t, k, x);
    HeldOnly(t, k, o);
    ExtractLooseEffect(t, k);
  }

  lemma HeldOnly(u: State, o: Object, x: Object)
    requires Inv(u)
    ensures x in Contents(u, o) <==> x in u.place && u.place[x] == InContainer(o)
  {
    ListHolds(u, InContainer(o));
  }
}
