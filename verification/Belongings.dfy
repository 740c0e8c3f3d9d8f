/** What stripping a body does: everything carried, then everything worn in slot order, moved to
    one place. MakeCorpse and DropEverything are both this. */
module Belongings {
  import opened ObjectGraph
  import opened Options
  import opened Extraction

  /** What c wears in the first n slots, in slot order. */
  function WornList(s: State, c: Character, n: nat): seq<Object> {
    if n == 0 then [] else WornList(s, c, n - 1) + At(s, WornBy(c, n - 1))
  }

  /** What the first n slots are worth to the wearer's armour figure. */
  function WornArmour(s: State, c: Character, n: nat): int {
    if n == 0 then 0
    else WornArmour(s, c, n - 1) +
         (if At(s, WornBy(c, n - 1)) == [] then 0 else ArmorClassOf(At(s, WornBy(c, n - 1))[0], n - 1))
  }

  /** Takes off slot pos and puts what was there at p. */
  function Shed(s: State, c: Character, pos: int, p: Placement): State {
    match UnequipFrom(s, c, pos)
    case (t, None) => t
    case (t, Some(o)) => Move(t, o, p)
  }

  function Strip(s: State, c: Character, p: Placement, n: nat): State {
    if n == 0 then s else Shed(Strip(s, c, p, n - 1), c, n - 1, p)
  }

  /** A floor, or a container that is itself nowhere. */
  ghost predicate Sink(s: State, p: Placement) {
    p.InRoom? || (p.InContainer? && p.container in s.place && s.place[p.container] == Nowhere)
  }

  lemma SinkTakes(s: State, o: Object, p: Placement)
    requires Inv(s) && o in s.place && Sink(s, p) && (p.InContainer? ==> o != p.container)
    ensures Inv(Move(s, o, p))
    ensures p.InContainer? ==> !Encloses(s.place, o, p.container)
  {
    if p.InContainer? {
      var k := p.container;
      forall n: nat ensures Around(s.place, k, n) != Some(o) {
        if n > 0 {
          assert Around(s.place, k, 0) == Some(k);
          assert Around(s.place, k, 1) == None;
          AroundStops(s.place, k, 1, n);
        }
      }
      NestKeepsInv(s, o, k);
    } else {
      PlaceKeepsInv(s, o, p);
    }
  }

  /** The record of c after d has been added to its armour figure. */
  function Armoured(r: Option<Record>, d: int): Option<Record> {
    match r
    case None => None
    case Some(rec) => Some(rec.(realArmor := rec.realArmor + d))
  }

  function ShedAt(s: State, c: Character, pos: int, p: Placement, q: Placement): seq<Object> {
    if q == WornBy(c, pos) then [] else if q == p then At(s, WornBy(c, pos)) + At(s, q) else At(s, q)
  }

  lemma ShedOne(s: State, c: Character, pos: int, p: Placement)
    requires Inv(s) && c in s.records && 0 <= pos < NUM_WEARS && Sink(s, p)
    ensures var t, worn := Shed(s, c, pos, p), At(s, WornBy(c, pos));
      && Inv(t) && Sink(t, p) && t.tracked == s.tracked && t.counts == s.counts && t.place.Keys == s.place.Keys
      && t.records == s.records[c := Armoured(s.records[c], if worn == [] then 0 else ArmorClassOf(worn[0], pos))]
      && (forall x | x in s.place :: t.place[x] == if x in worn then p else s.place[x])
      && (forall q :: At(t, q) == ShedAt(s, c, pos, p, q))
      && |worn| <= 1
  {
    hide Inv, Move, Detach, Armour;
    var worn := At(s, WornBy(c, pos));
    if worn == [] {
      assert Shed(s, c, pos, p) == s;
      assert s.records[c := Armoured(s.records[c], 0)] == s.records;
      assert [] + At(s, p) == At(s, p);
    } else {
      ShedWorn(s, c, pos, p);
    }
  }

  lemma ShedWorn(s: State, c: Character, pos: int, p: Placement)
    requires Inv(s) && c in s.records && 0 <= pos < NUM_WEARS && Sink(s, p) && At(s, WornBy(c, pos)) != []
    ensures var t, o := Shed(s, c, pos, p), At(s, WornBy(c, pos))[0];
      && At(s, WornBy(c, pos)) == [o] && o in s.place
      && Inv(t) && Sink(t, p) && t.tracked == s.tracked && t.counts == s.counts
      && t.records == s.records[c := Armoured(s.records[c], ArmorClassOf(o, pos))]
      && t.place == s.place[o := p]
      && (forall q :: At(t, q) == if q == WornBy(c, pos) then [] else if q == p then [o] + At(s, q) else At(s, q))
  {
    hide Inv, Move, Linked;
    var o := At(s, WornBy(c, pos))[0];
    assert o in At(s, WornBy(c, pos));
    OnePlaced(s, o, WornBy(c, pos));
    PlacedIsTracked(s, o);
    OneInSlot(s, c, pos);
    var u := UnequipFrom(s, c, pos).0;
    UnequipKeepsInv(s, c, pos);
    ArmourChanges(Detach(s, o), c, ArmorClassOf(o, pos));
    assert u.place == s.place[o := Nowhere];
    InvLinked(s);
    InvLinked(u);
    assert Sink(u, p);
    SinkTakes(u, o, p);
    ShedLists(s, u, o, c, pos, p);
    assert s.place[o := Nowhere][o := p] == s.place[o := p];
    MoveTracked(u, o, p);
  }

  lemma OneInSlot(s: State, c: Character, pos: int)
    requires Inv(s) && At(s, WornBy(c, pos)) != []
    ensures At(s, WornBy(c, pos)) == [At(s, WornBy(c, pos))[0]]
  {
  }

  lemma ArmourChanges(s: State, c: Character, d: int)
    ensures Armour(s, c, d).place == s.place && Armour(s, c, d).lists == s.lists
    ensures Armour(s, c, d).tracked == s.tracked && Armour(s, c, d).counts == s.counts
    ensures c in s.records ==> Armour(s, c, d).records == s.records[c := Armoured(s.records[c], d)]
  {
  }

  lemma MoveTracked(s: State, o: Object, p: Placement)
    requires o in s.place && o.id in s.tracked
    ensures Move(s, o, p).tracked == s.tracked && Move(s, o, p).counts == s.counts
    ensures Move(s, o, p).place == s.place[o := p] && Move(s, o, p).records == s.records
  {
    assert s.place[o := Nowhere][o := p] == s.place[o := p];
  }

  lemma ShedLists(s: State, u: State, o: Object, c: Character, pos: int, p: Placement)
    requires Linked(s) && Linked(u) && o in s.place && s.place[o] == WornBy(c, pos) && At(s, WornBy(c, pos)) == [o]
    requires u.place == s.place[o := Nowhere] && u.lists == Detach(s, o).lists
    requires p.InRoom? || p.InContainer?
    ensures forall q :: At(Move(u, o, p), q) ==
                        if q == WornBy(c, pos) then [] else if q == p then [o] + At(s, q) else At(s, q)
  {
    DetachLists(s, o);
    MoveLists(u, o, p);
    forall q ensures At(Move(u, o, p), q) ==
                     if q == WornBy(c, pos) then [] else if q == p then [o] + At(s, q) else At(s, q)
    {
      assert At(u, q) == At(Detach(s, o), q);
      if q == WornBy(c, pos) {
        assert At(u, q) == Without([o], o) == [];
      } else {
        assert o !in At(u, q);
      }
      WithoutAbsent(At(u, q), o);
    }
  }

  /** Everything c wore in the first n slots is at p, last slot in front; c's armour figure has
      given back what those slots were worth; nothing else has moved. */
  ghost predicate Stripped(s: State, c: Character, p: Placement, n: nat, t: State)
    requires c in s.records
  {
    && t.tracked == s.tracked && t.counts == s.counts && t.place.Keys == s.place.Keys
    && t.records == s.records[c := Armoured(s.records[c], WornArmour(s, c, n))]
    && (forall x | x in s.place :: t.place[x] == if x in WornList(s, c, n) then p else s.place[x])
  }

  function StrippedAt(s: State, c: Character, p: Placement, n: nat, q: Placement): seq<Object> {
    if q.WornBy? && q.holder == c && 0 <= q.at < n then []
    else if q == p then Reverse(WornList(s, c, n)) + At(s, q)
    else At(s, q)
  }

  lemma StripNothing(s: State, c: Character, p: Placement)
    requires c in s.records
    ensures Stripped(s, c, p, 0, s)
    ensures forall q :: At(s, q) == StrippedAt(s, c, p, 0, q)
  {
    assert s.records[c := Armoured(s.records[c], 0)] == s.records;
    forall q ensures At(s, q) == StrippedAt(s, c, p, 0, q) {
      assert [] + At(s, q) == At(s, q);
    }
  }

  lemma {:induction false} StripEffect(s: State, c: Character, p: Placement, n: nat)
    requires Inv(s) && c in s.records && n <= NUM_WEARS && Sink(s, p)
    ensures var t := Strip(s, c, p, n); Inv(t) && Sink(t, p) && Stripped(s, c, p, n, t)
    ensures forall q :: At(Strip(s, c, p, n), q) == StrippedAt(s, c, p, n, q)
  {
    hide Inv, Sink, StrippedAt, ShedAt, Shed;
    if n == 0 {
      StripNothing(s, c, p);
    } else {
      StripEffect(s, c, p, n - 1);
      var u := Strip(s, c, p, n - 1);
      ShedOne(u, c, n - 1, p);
      WornStays(s, c, p, n, u);
      forall q ensures At(Strip(s, c, p, n), q) == StrippedAt(s, c, p, n, q) {
        SinkIsNoSlot(s, p);
        StripStepAt(s, c, p, n, u, q);
      }
      StripStep(s, c, p, n, u, Shed(u, c, n - 1, p));
    }
  }

  lemma SinkIsNoSlot(s: State, p: Placement)
    requires Sink(s, p)
    ensures !p.WornBy?
  {
  }

  lemma WornStays(s: State, c: Character, p: Placement, n: nat, u: State)
    requires 0 < n && Sink(s, p)
    requires forall q :: At(u, q) == StrippedAt(s, c, p, n - 1, q)
    ensures At(u, WornBy(c, n - 1)) == At(s, WornBy(c, n - 1))
  {
  }

  lemma StripStepAt(s: State, c: Character, p: Placement, n: nat, u: State, q: Placement)
    requires 0 < n && !p.WornBy? && |At(s, WornBy(c, n - 1))| <= 1
    requires At(u, WornBy(c, n - 1)) == At(s, WornBy(c, n - 1))
    requires At(u, q) == StrippedAt(s, c, p, n - 1, q)
    ensures ShedAt(u, c, n - 1, p, q) == StrippedAt(s, c, p, n, q)
  {
    var worn, before := At(s, WornBy(c, n - 1)), WornList(s, c, n - 1);
    if q == p {
      assert Reverse(before + worn) == worn + Reverse(before) by {
        if worn == [] {
          assert before + worn == before;
        } else {
          assert worn == [worn[0]];
          ReverseSnoc(before, worn[0]);
        }
      }
      assert worn + (Reverse(before) + At(s, q)) == (worn + Reverse(before)) + At(s, q);
    }
  }

  lemma StripStep(s: State, c: Character, p: Placement, n: nat, u: State, t: State)
    requires c in s.records && 0 < n && Stripped(s, c, p, n - 1, u)
    requires At(u, WornBy(c, n - 1)) == At(s, WornBy(c, n - 1))
    requires var worn := At(u, WornBy(c, n - 1));
      && t.tracked == u.tracked && t.counts == u.counts && t.place.Keys == u.place.Keys
      && t.records == u.records[c := Armoured(u.records[c], if worn == [] then 0 else ArmorClassOf(worn[0], n - 1))]
      && (forall x | x in u.place :: t.place[x] == if x in worn then p else u.place[x])
    ensures Stripped(s, c, p, n, t)
  {
    assert t.records == s.records[c := Armoured(s.records[c], WornArmour(s, c, n))];
  }

  // ----- everything -------------------------------------------------------

  /** What c carries, then what c wears, all moved to p. */
  function Gathered(s: State, c: Character, p: Placement): State {
    Strip(MoveAll(s, At(s, CarriedBy(c)), p), c, p, NUM_WEARS)
  }

  /** Whose inventory or slot this is. */
  function BodyOf(p: Placement): Option<Character> {
    match p
    case CarriedBy(c) => Some(c)
    case WornBy(c, _) => Some(c)
    case _ => None
  }

  lemma {:induction false} MoveAllKeepsInv(s: State, kids: seq<Object>, p: Placement)
    requires Inv(s) && Sink(s, p)
    requires forall k | k in kids :: k in s.place && (p.InContainer? ==> k != p.container)
    ensures Inv(MoveAll(s, kids, p)) && Sink(MoveAll(s, kids, p), p)
    ensures MoveAll(s, kids, p).place.Keys == s.place.Keys
  {
    hide Inv;
    if kids != [] {
      var init, last := kids[..|kids| - 1], kids[|kids| - 1];
      MoveAllKeepsInv(s, init, p);
      var u := MoveAll(s, init, p);
      SinkTakes(u, last, p);
      MovedPlace(u, last, p);
    }
  }

  lemma MovedPlace(s: State, o: Object, p: Placement)
    ensures Move(s, o, p).place == s.place[o := p]
  {
    assert s.place[o := Nowhere][o := p] == s.place[o := p];
  }

  lemma {:induction false} WornListExact(s: State, c: Character, n: nat)
    requires Linked(s) && CompleteBut(s, {})
    ensures forall x :: x in WornList(s, c, n) <==>
                        x in s.place && s.place[x].WornBy? && s.place[x].holder == c && 0 <= s.place[x].at < n
  {
    if n > 0 {
      WornListExact(s, c, n - 1);
      forall x ensures x in At(s, WornBy(c, n - 1)) <==> x in s.place && s.place[x] == WornBy(c, n - 1) {
        if x in s.place && s.place[x] == WornBy(c, n - 1) {
          assert x in At(s, s.place[x]);
        }
      }
    }
  }

  lemma CarriedMoved(s: State, c: Character, p: Placement)
    requires Inv(s) && c in s.records && Sink(s, p)
    ensures var t, kids := MoveAll(s, At(s, CarriedBy(c)), p), At(s, CarriedBy(c));
      && Inv(t) && Sink(t, p)
      && t.records == s.records && t.tracked == s.tracked && t.counts == s.counts && t.place.Keys == s.place.Keys
      && (forall x | x in s.place :: t.place[x] == if s.place[x] == CarriedBy(c) then p else s.place[x])
      && (forall q :: At(t, q) == if q == CarriedBy(c) then [] else if q == p then Reverse(kids) + At(s, q) else At(s, q))
  {
    var kids := At(s, CarriedBy(c));
    CarriedExact(s, c);
    InvLinked(s);
    forall k | k in kids ensures k.id in s.tracked {
      PlacedIsTracked(s, k);
    }
    ListIsDistinct(s, CarriedBy(c));
    hide Inv;
    MoveAllKeepsInv(s, kids, p);
    assert Elems(kids) <= s.place.Keys;
    MoveAllLists(s, kids, p);
    MoveAllTracked(s, kids, p);
    forall q ensures At(MoveAll(s, kids, p), q) ==
                     if q == CarriedBy(c) then [] else if q == p then Reverse(kids) + At(s, q) else At(s, q)
    {
      CarriedMovedAt(s, c, p, q);
    }
  }

  lemma ListedThere(s: State, x: Object, q: Placement, r: Placement)
    requires Linked(s) && x in At(s, q) && q != r
    ensures x !in At(s, r)
  {
    assert q in s.lists && x in s.lists[q];
    assert s.place[x] == q;
    assert r in s.lists ==> forall y | y in s.lists[r] :: y in s.place && s.place[y] == r;
  }

  lemma CarriedMovedAt(s: State, c: Character, p: Placement, q: Placement)
    requires Linked(s) && !p.CarriedBy?
    ensures var kids := At(s, CarriedBy(c));
      (if q == p then Reverse(kids) else []) + Minus(At(s, q), Elems(kids)) ==
      if q == CarriedBy(c) then [] else if q == p then Reverse(kids) + At(s, q) else At(s, q)
  {
    var kids := At(s, CarriedBy(c));
    MinusElements(At(s, q), Elems(kids));
    if q == CarriedBy(c) {
      assert forall x | x in kids :: x in Elems(kids);
    } else {
      forall x | x in At(s, q) ensures x !in Elems(kids) {
        ListedThere(s, x, q, CarriedBy(c));
      }
      assert [] + At(s, q) == At(s, q);
    }
  }

  lemma CarriedExact(s: State, c: Character)
    requires Inv(s)
    ensures forall x :: x in At(s, CarriedBy(c)) <==> x in s.place && s.place[x] == CarriedBy(c)
  {
    forall x ensures x in At(s, CarriedBy(c)) <==> x in s.place && s.place[x] == CarriedBy(c) {
      assert x in s.place && s.place[x] == CarriedBy(c) ==> x in At(s, s.place[x]);
    }
  }

  function GatheredAt(s: State, c: Character, p: Placement, q: Placement): seq<Object> {
    if BodyOf(q) == Some(c) && (q.WornBy? ==> 0 <= q.at < NUM_WEARS) then []
    else if q == p then Reverse(WornList(s, c, NUM_WEARS)) + Reverse(At(s, CarriedBy(c))) + At(s, q)
    else At(s, q)
  }

  /** Gathering conserves: what was on the body, and nothing else, is now at p, worn things in
      front; the body is bare; its armour figure has back what every slot was worth. */
  ghost predicate GatheredFrom(s: State, c: Character, p: Placement, t: State)
    requires c in s.records
  {
    && t.tracked == s.tracked && t.counts == s.counts && t.place.Keys == s.place.Keys
    && t.records == s.records[c := Armoured(s.records[c], WornArmour(s, c, NUM_WEARS))]
    && (forall x | x in s.place :: t.place[x] == if BodyOf(s.place[x]) == Some(c) then p else s.place[x])
  }

  lemma {:induction false} SameWorn(s: State, t: State, c: Character, n: nat)
    requires forall i | 0 <= i < n :: At(t, WornBy(c, i)) == At(s, WornBy(c, i))
    ensures WornList(t, c, n) == WornList(s, c, n) && WornArmour(t, c, n) == WornArmour(s, c, n)
  {
    if n > 0 {
      SameWorn(s, t, c, n - 1);
    }
  }

  lemma GatheredEffect(s: State, c: Character, p: Placement)
    requires Inv(s) && c in s.records && Sink(s, p)
    ensures Inv(Gathered(s, c, p)) && Sink(Gathered(s, c, p), p)
    ensures GatheredFrom(s, c, p, Gathered(s, c, p))
    ensures forall q :: At(Gathered(s, c, p), q) == GatheredAt(s, c, p, q)
  {
    hide Inv, Strip, MoveAll, Sink, WornList, WornArmour;
    var kids := At(s, CarriedBy(c));
    var u, t := MoveAll(s, kids, p), Gathered(s, c, p);
    CarriedMoved(s, c, p);
    SinkIsNoSlot(s, p);
    StripEffect(u, c, p, NUM_WEARS);
    SameWorn(s, u, c, NUM_WEARS);
    SinkIsNoBody(s, p);
    forall q ensures At(t, q) == GatheredAt(s, c, p, q) {
      GatheredAtIs(s, u, c, p, q);
    }
    OnBody(s, c);
    GatheredPlaces(s, u, t, c, p);
  }

  lemma GatheredAtIs(s: State, u: State, c: Character, p: Placement, q: Placement)
    requires WornList(u, c, NUM_WEARS) == WornList(s, c, NUM_WEARS) && BodyOf(p) == None
    requires At(u, q) == if q == CarriedBy(c) then []
                         else if q == p then Reverse(At(s, CarriedBy(c))) + At(s, q) else At(s, q)
    ensures StrippedAt(u, c, p, NUM_WEARS, q) == GatheredAt(s, c, p, q)
  {
    var worn, kids := Reverse(WornList(s, c, NUM_WEARS)), Reverse(At(s, CarriedBy(c)));
    assert worn + (kids + At(s, q)) == worn + kids + At(s, q);
  }

  lemma GatheredPlaces(s: State, u: State, t: State, c: Character, p: Placement)
    requires c in s.records && WornList(u, c, NUM_WEARS) == WornList(s, c, NUM_WEARS)
    requires WornArmour(u, c, NUM_WEARS) == WornArmour(s, c, NUM_WEARS)
    requires u.records == s.records && u.tracked == s.tracked && u.counts == s.counts && u.place.Keys == s.place.Keys
    requires forall x | x in s.place :: u.place[x] == if s.place[x] == CarriedBy(c) then p else s.place[x]
    requires forall x | x in s.place :: BodyOf(s.place[x]) == Some(c) <==>
                                        x in WornList(s, c, NUM_WEARS) || s.place[x] == CarriedBy(c)
    requires Stripped(u, c, p, NUM_WEARS, t)
    ensures GatheredFrom(s, c, p, t)
  {
    hide WornList, WornArmour, BodyOf;
  }

  lemma SinkIsNoBody(s: State, p: Placement)
    requires Sink(s, p)
    ensures BodyOf(p) == None
  {
  }

  lemma OnBody(s: State, c: Character)
    requires Inv(s)
    ensures forall x | x in s.place :: BodyOf(s.place[x]) == Some(c) <==>
                                       x in WornList(s, c, NUM_WEARS) || s.place[x] == CarriedBy(c)
  {
    WornListExact(s, c, NUM_WEARS);
    forall x | x in s.place && s.place[x].WornBy? ensures 0 <= s.place[x].at < NUM_WEARS {
      assert Known(s, s.place[x]);
    }
  }
}
