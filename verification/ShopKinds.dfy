/** What a kind of thing is to a shop, said of prototypes, prices, flags and affects, and what selling,
    sliding and sorting then keep and destroy. */
module ShopKinds {
  import opened ObjectGraph
  import opened Extraction
  import opened ShopStock
  import opened ShopTrading
  import opened ShopKeeping

  /** The prototype itself, the price, the flags and the six affect slots, empty ones included. */
  datatype Kind = Kind(def: ObjDef?, cost: int, extraFlags: set<nat>, slots: seq<ObjAffect>)

  function Slots(affects: seq<ObjAffect>): seq<ObjAffect> {
    seq(6, i requires 0 <= i < 6 => if i < |affects| then affects[i] else ObjAffect(0, 0))
  }

  function KindOf(o: Object): Kind {
    Kind(o.def, o.cost, o.extraFlags, Slots(o.affects))
  }

  function KindMade(def: ObjDef): Kind {
    Kind(def, def.cost, def.extraFlags, Slots(def.affects))
  }

  lemma SlotsSame(a: seq<ObjAffect>, b: seq<ObjAffect>)
    ensures SameAffects(a, b) <==> Slots(a) == Slots(b)
  {
    assert forall i | 0 <= i < MAX_OBJ_AFFECTS :: Slots(a)[i] == AffectAt(a, i) && Slots(b)[i] == AffectAt(b, i);
  }

  lemma SameIsKind(a: Object, b: Object)
    ensures SameObject(a, b) <==> KindOf(a) == KindOf(b)
  {
    SlotsSame(a.affects, b.affects);
  }

  /** Of a kind that one of the prototypes the shop makes from is of. */
  predicate MadeHere(shop: Shop, o: Object) {
    o.def != null && exists v | v in shop.producing && v in shop.defs :: KindOf(o) == KindMade(shop.defs[v])
  }

  lemma ProducesKind(shop: Shop, o: Object)
    ensures Produces(shop, o) <==> MadeHere(shop, o)
  {
    forall v | v in shop.producing && v in shop.defs
      ensures SameAsPrototype(o, shop.defs[v]) <==> KindOf(o) == KindMade(shop.defs[v])
    {
      SlotsSame(o.affects, shop.defs[v].affects);
    }
  }

  /** A thing slid beside one other goes behind it when it is of its kind and before it when not. */
  lemma SlideTellsKinds(a: Object, o: Object)
    ensures Slide([a], o) == if KindOf(a) == KindOf(o) then [a, o] else [o, a]
  {
    hide SameObject;
    SameIsKind(a, o);
    assert [a][..0 + 1] + [o] + [a][0 + 1..] == [a, o] && [o] + [a] == [o, a];
  }

  /** Stock is grouped when between two of one kind there is nothing else. */
  lemma GroupedByKind(list: seq<Object>)
    ensures Grouped(list) <==>
            forall i, j, k | 0 <= i < j < k < |list| && KindOf(list[i]) == KindOf(list[k]) :: KindOf(list[i]) == KindOf(list[j])
  {
    hide SameObject, KindOf;
    forall i, j | 0 <= i < |list| && 0 <= j < |list| ensures SameObject(list[i], list[j]) <==> KindOf(list[i]) == KindOf(list[j]) {
      SameIsKind(list[i], list[j]);
    }
  }

  /** Still as its prototype made it. */
  predicate AsMade(o: Object) {
    o.def != null && o.cost == o.def.cost && o.extraFlags == o.def.extraFlags && o.affects == o.def.affects
  }

  /** Of things as they were made, those of one prototype are one kind and no others are. */
  lemma MadeAlike(a: Object, b: Object)
    requires AsMade(a) && AsMade(b)
    ensures KindOf(a) == KindOf(b) <==> a.def == b.def
  {
  }

  /** Of no prototype that the shop makes from, whatever its price and marks. */
  predicate Foreign(shop: Shop, o: Object) {
    forall v | v in shop.producing && v in shop.defs :: o.def != shop.defs[v]
  }

  lemma ForeignIsKept(shop: Shop, o: Object)
    requires Foreign(shop, o)
    ensures !Produces(shop, o)
  {
    ProducesKind(shop, o);
  }

  /** Sliding destroys exactly what is of a kind made there: anything else is the keeper's, and tracked. */
  lemma DestroyedExactly(s: State, shop: Shop, c: Character, o: Object)
    requires Inv(s) && o in s.place && c in s.records
    ensures var t := SlideState(s, shop, c, o);
      && (MadeHere(shop, o) ==> o.id !in t.tracked)
      && (!MadeHere(shop, o) ==> o.id in t.tracked && o in t.place && t.place[o] == CarriedBy(c) && o in At(t, CarriedBy(c)))
  {
    hide *;
    ProducesKind(shop, o);
    InvParts(s);
    SlideEither(s, shop, c, o);
    if Produces(shop, o) {
      GoneFromTable(s, o);
    } else {
      SlidIn(s, shop, c, o);
    }
  }

  lemma SlidIn(s: State, shop: Shop, c: Character, o: Object)
    requires Linked(s) && o in s.place && !Produces(shop, o)
    ensures var t := SlideState(s, shop, c, o); o in t.place && t.place[o] == CarriedBy(c) && o in At(t, CarriedBy(c))
  {
    hide *;
    SlideLists(s, shop, c, o);
    SlideElements(Without(At(s, CarriedBy(c)), o), o);
  }

  lemma InvParts(s: State)
    requires Inv(s)
    ensures Linked(s)
  {
  }

  lemma SlideEither(s: State, shop: Shop, c: Character, o: Object)
    ensures Produces(shop, o) ==> SlideState(s, shop, c, o) == Extract(s, o)
    ensures !Produces(shop, o) ==> o.id in SlideState(s, shop, c, o).tracked
  {
    hide Extract, Produces;
  }

  lemma GoneFromTable(s: State, o: Object)
    requires Inv(s) && o in s.place
    ensures o.id !in Extract(s, o).tracked
  {
    NothingInHand(s);
    hide Inv, InvBut, Extract;
    if s.place[o] == Nowhere {
      ExtractLooseEffect(s, o);
    } else {
      ContentsLand(s, o, {});
    }
  }

  // ----- a sort -----------------------------------------------------------

  /** Shelving takes nothing off the shelf, and leaves on it every arrival that is foreign. */
  lemma {:induction false} ForeignShelved(shop: Shop, shelf: Shelf, arrivals: seq<Object>, inside: map<Object, seq<Object>>)
    ensures var end := ShelveAll(shop, shelf, arrivals, inside).list;
      && (forall x | x in shelf.list :: x in end)
      && forall x | x in arrivals && Foreign(shop, x) :: x in end
  {
    hide Produces, Foreign, HasSame, Slide, Surplus;
    if arrivals != [] {
      var init, last := arrivals[..|arrivals| - 1], arrivals[|arrivals| - 1];
      assert arrivals == init + [last];
      ForeignShelved(shop, shelf, init, inside);
      var mid := ShelveAll(shop, shelf, init, inside).list;
      SlideElements(mid, last);
      if Foreign(shop, last) { ForeignIsKept(shop, last); }
    }
  }

  /** After a sort, whatever it spills and destroys, everything that had been counted is in the keeper's
      list, and so is every arrival of a prototype the shop does not make from. */
  lemma ForeignStays(s: State, shop: Shop, c: Character, sorted: nat, t: State, sorted': int)
    requires sorted <= |At(s, CarriedBy(c))| && SortedInto(s, shop, c, sorted, t, sorted')
    ensures forall o | o in Stocked(At(s, CarriedBy(c)), sorted) :: o in At(t, CarriedBy(c))
    ensures forall o | o in At(s, CarriedBy(c)) && Foreign(shop, o) :: o in At(t, CarriedBy(c))
  {
    hide Inv, Shuffled, ListsKept, ShelveAll, Foreign, Reverse;
    var list := At(s, CarriedBy(c));
    ForeignShelved(shop, Shelf(Stocked(list, sorted), sorted), Arrivals(list, sorted), Holdings(s, Arrivals(list, sorted)));
    EitherPart(list, sorted);
  }

  lemma EitherPart(list: seq<Object>, sorted: nat)
    requires sorted <= |list|
    ensures forall o | o in list :: o in Arrivals(list, sorted) || o in Stocked(list, sorted)
  {
    var k := |list| - sorted;
    ReverseElements(list[..k]);
    assert list == list[..k] + list[k..];
  }

  /** When nothing spills and everything is as it was made, things of one prototype stand together. */
  lemma PrototypesTogether(s: State, shop: Shop, c: Character, sorted: nat, t: State, sorted': nat)
    requires Inv(s) && sorted <= |At(s, CarriedBy(c))| && SortedInto(s, shop, c, sorted, t, sorted')
    requires forall o | o in At(s, CarriedBy(c)) :: AsMade(o)
    requires NoneSpills(s, shop, c, sorted)
    requires var stock := Stocked(At(s, CarriedBy(c)), sorted);
      forall i, j, k | 0 <= i < j < k < |stock| && stock[i].def == stock[k].def :: stock[i].def == stock[j].def
    ensures var end := At(t, CarriedBy(c));
      forall i, j, k | 0 <= i < j < k < |end| && end[i].def == end[k].def :: end[i].def == end[j].def
  {
    hide Inv, SortedInto, NoneSpills, Grouped, AsMade, Sorted;
    var list, end := At(s, CarriedBy(c)), At(t, CarriedBy(c));
    var stock := Stocked(list, sorted);
    PartsOfList(list, sorted);
    GroupedByPrototype(stock);
    SortedWell(s, shop, c, sorted, t, sorted');
    SortedHolds(shop, stock, Arrivals(list, sorted), end);
    GroupedByPrototype(end);
  }

  lemma PartsOfList(list: seq<Object>, sorted: nat)
    requires sorted <= |list|
    ensures forall o | o in Arrivals(list, sorted) :: o in list
    ensures forall o | o in Stocked(list, sorted) :: o in list
  {
    ReverseElements(list[..|list| - sorted]);
  }

  lemma SortedHolds(shop: Shop, list: seq<Object>, arrivals: seq<Object>, end: seq<Object>)
    requires Sorted(shop, list, arrivals, end)
    ensures Grouped(end) && forall x | x in end :: x in list || x in arrivals
  {
    hide Grouped;
  }

  lemma GroupedByPrototype(list: seq<Object>)
    requires forall o | o in list :: AsMade(o)
    ensures Grouped(list) <==>
            forall i, j, k | 0 <= i < j < k < |list| && list[i].def == list[k].def :: list[i].def == list[j].def
  {
    GroupedByKind(list);
    hide Grouped, KindOf, AsMade;
    forall i, j | 0 <= i < |list| && 0 <= j < |list| ensures KindOf(list[i]) == KindOf(list[j]) <==> list[i].def == list[j].def {
      assert list[i] in list && list[j] in list;
      MadeAlike(list[i], list[j]);
    }
  }
}
