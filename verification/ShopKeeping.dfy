/** Sorting a keeper's stock, on the heap: SortShopObjects and SlideShopObject. */
module ShopKeeping {
  import opened ObjectGraph
  import opened Extraction
  import opened Carry
  import opened ShopStock
  import opened ShopTrading

  /** Puts o into c's inventory, the list becoming l. */
  function Insert(s: State, o: Object, c: Character, l: seq<Object>): State {
    s.(place := s.place[o := CarriedBy(c)], lists := Put(s.lists, CarriedBy(c), l))
  }

  /** SlideShopObject. */
  function SlideState(s: State, shop: Shop, c: Character, o: Object): State {
    if Produces(shop, o) then Extract(s, o)
    else
      var d := Detach(s, o);
      Track(Insert(d, o, c, Slide(At(d, CarriedBy(c)), o)), o)
  }

  /** One turn of the loop of SortShopObjects. */
  function ShelveState(s: State, shop: Shop, c: Character, o: Object): State {
    if Produces(shop, o) && !HasSame(At(s, CarriedBy(c)), o) then Insert(s, o, c, [o] + At(s, CarriedBy(c)))
    else SlideState(s, shop, c, o)
  }

  function ShelveStates(s: State, shop: Shop, c: Character, arrivals: seq<Object>): State {
    if arrivals == [] then s
    else ShelveState(ShelveStates(s, shop, c, arrivals[..|arrivals| - 1]), shop, c, arrivals[|arrivals| - 1])
  }

  // ----- inserting --------------------------------------------------------

  lemma InsertLists(s: State, o: Object, c: Character, l: seq<Object>)
    requires Linked(s) && o in s.place && NoDup(l)
    requires forall q :: o !in At(s, q)
    requires forall x :: x in l <==> x in At(s, CarriedBy(c)) || x == o
    ensures forall q :: At(Insert(s, o, c, l), q) == if q == CarriedBy(c) then l else At(s, q)
    ensures Linked(Insert(s, o, c, l))
  {
    var t, p := Insert(s, o, c, l), CarriedBy(c);
    assert o in l;
    forall q ensures At(t, q) == if q == p then l else At(s, q) {
      ListedPut(s.lists, p, l, q);
    }
    forall q | q in t.lists
      ensures q != Nowhere && t.lists[q] != [] && NoDup(t.lists[q])
      ensures q.WornBy? ==> 0 <= q.at < NUM_WEARS && |t.lists[q]| == 1
      ensures forall x | x in t.lists[q] :: x in t.place && t.place[x] == q
    {
      assert t.lists[q] == At(t, q);
      if q != p {
        assert q in s.lists && o !in At(s, q);
      } else {
        forall x | x in l ensures x in t.place && t.place[x] == q {
          if x != o {
            assert p in s.lists && x in s.lists[p];
          }
        }
      }
    }
  }

  lemma InsertKeepsInv(s: State, o: Object, c: Character, l: seq<Object>, loose: set<Object>)
    requires InvBut(s, loose) && o in s.place && s.place[o] == Nowhere && c in s.records && NoDup(l)
    requires forall q :: o !in At(s, q)
    requires forall x :: x in l <==> x in At(s, CarriedBy(c)) || x == o
    ensures InvBut(Track(Insert(s, o, c, l), o), loose)
  {
    var t := Insert(s, o, c, l);
    InsertLists(s, o, c, l);
    InsertPlaces(s, o, c, l, loose);
    ShallowKeepsAcyclic(s, o, CarriedBy(c));
    TrackInserted(s, o, c, l);
    hide IndexAgrees, TracksPlaced;
    SameGraph(t, Track(t, o), loose);
  }

  lemma InsertPlaces(s: State, o: Object, c: Character, l: seq<Object>, loose: set<Object>)
    requires Closed(s) && CompleteBut(s, loose) && o in s.place && c in s.records
    requires forall q :: At(Insert(s, o, c, l), q) == if q == CarriedBy(c) then l else At(s, q)
    requires forall x :: x in l <==> x in At(s, CarriedBy(c)) || x == o
    ensures Closed(Insert(s, o, c, l)) && CompleteBut(Insert(s, o, c, l), loose)
  {
    var t := Insert(s, o, c, l);
    forall x | x in t.place ensures Known(t, t.place[x]) {
      assert x != o ==> Known(s, s.place[x]);
    }
    forall x | x in t.place && t.place[x] != Nowhere && x !in loose ensures x in At(t, t.place[x]) {
      assert x != o ==> x in At(s, s.place[x]);
    }
  }

  lemma TrackInserted(s: State, o: Object, c: Character, l: seq<Object>)
    requires IndexAgrees(s) && TracksPlaced(s) && o in s.place
    ensures var t := Track(Insert(s, o, c, l), o); IndexAgrees(t) && TracksPlaced(t)
  {
    var t := Insert(s, o, c, l);
    assert t.place.Keys == s.place.Keys && IndexAgrees(t);
    TrackKeepsIndex(t, o);
    forall x | x in t.place && t.place[x] != Nowhere ensures x.id in Track(t, o).tracked {
      assert x != o ==> s.place[x] != Nowhere;
    }
  }

  // ----- sliding ----------------------------------------------------------

  lemma SlideKeepsInv(s: State, shop: Shop, c: Character, o: Object, loose: set<Object>)
    requires InvBut(s, loose) && o in s.place && c in s.records && Elems(Contents(s, o)) !! loose
    requires s.place[o] == Nowhere ==> loose == {}
    ensures InvBut(SlideState(s, shop, c, o), loose - {o})
  {
    hide InvBut;
    if Produces(shop, o) {
      ExtractInv(s, o, loose);
    } else {
      var d := Detach(s, o);
      DetachKeepsInv(s, o, loose);
      LinkedIn(d, loose - {o});
      ListIsDistinct(d, CarriedBy(c));
      SlideElements(At(d, CarriedBy(c)), o);
      InsertKeepsInv(d, o, c, Slide(At(d, CarriedBy(c)), o), loose - {o});
    }
  }

  /** The lists after something not made here has been slid in. */
  lemma SlideLists(s: State, shop: Shop, c: Character, o: Object)
    requires Linked(s) && o in s.place && !Produces(shop, o)
    ensures var t := SlideState(s, shop, c, o);
      && t.place == s.place[o := CarriedBy(c)] && t.records == s.records
      && (o.id in s.tracked ==> t.tracked == s.tracked)
      && forall q :: At(t, q) == if q == CarriedBy(c) then Slide(Without(At(s, q), o), o) else Without(At(s, q), o)
  {
    hide *;
    var d, p := Detach(s, o), CarriedBy(c);
    DetachedLists(s, o);
    ListIsDistinct(d, p);
    SlideElements(At(d, p), o);
    InsertLists(d, o, c, Slide(At(d, p), o));
    SlideIsInsert(s, shop, c, o);
  }

  lemma DetachedLists(s: State, o: Object)
    requires Linked(s) && o in s.place
    ensures var d := Detach(s, o);
      && Linked(d) && o in d.place && forall q :: At(d, q) == Without(At(s, q), o) && o !in At(d, q)
  {
    var d := Detach(s, o);
    DetachLists(s, o);
    forall q ensures At(d, q) == Without(At(s, q), o) && o !in At(d, q) {
      if q != s.place[o] {
        assert o !in At(d, q);
        WithoutAbsent(At(s, q), o);
      }
    }
  }

  lemma SlideIsInsert(s: State, shop: Shop, c: Character, o: Object)
    requires o in s.place && !Produces(shop, o)
    ensures var d := Detach(s, o);
      var t, u := SlideState(s, shop, c, o), Insert(d, o, c, Slide(At(d, CarriedBy(c)), o));
      && t.place == s.place[o := CarriedBy(c)] && t.records == s.records
      && (o.id in s.tracked ==> t.tracked == s.tracked)
      && forall q :: At(t, q) == At(u, q)
  {
    hide Produces, Slide;
    assert s.place[o := Nowhere][o := CarriedBy(c)] == s.place[o := CarriedBy(c)];
  }

  /** Sliding in something not made here is a sale, seen in the keeper's list. */
  lemma SlideIsSale(s: State, shop: Shop, c: Character, o: Object, sorted: int)
    requires Linked(s) && o in s.place && !Produces(shop, o)
    ensures Shelf(At(SlideState(s, shop, c, o), CarriedBy(c)), sorted + 1) ==
            Do(shop, Shelf(Without(At(s, CarriedBy(c)), o), sorted), Sold(o))
  {
    hide SlideState, Produces, Slide;
    SlideLists(s, shop, c, o);
  }

  /** With what was counted in order, once o is out of the keeper's list, sliding o in leaves it in
      order exactly when o slides well there. */
  lemma SlideKeepsStockGrouped(s: State, shop: Shop, c: Character, o: Object, sorted: int)
    requires Linked(s) && o in s.place && !Produces(shop, o)
    requires InOrder(Shelf(Without(At(s, CarriedBy(c)), o), sorted))
    ensures InOrder(Shelf(At(SlideState(s, shop, c, o), CarriedBy(c)), sorted + 1)) <==>
            SlidesWell(Shelf(Without(At(s, CarriedBy(c)), o), sorted), o)
  {
    hide SlideState, Produces, InOrder, SlidesWell;
    SlideIsSale(s, shop, c, o, sorted);
    DoExactly(shop, Shelf(Without(At(s, CarriedBy(c)), o), sorted), Sold(o));
  }

  /** Something made here is destroyed: from a customer's hands, which have let go of it, without
      touching the keeper's list; from a place, as any extraction does. */
  lemma ProducedSlides(s: State, shop: Shop, c: Character, o: Object)
    requires Inv(s) && o in s.place && Produces(shop, o)
    ensures At(SlideState(s, shop, c, o), CarriedBy(c)) ==
            if s.place[o] == Nowhere then At(s, CarriedBy(c)) else ListAfter(s, o, CarriedBy(c))
  {
    hide Inv, InvBut, Extract, ExtractPlaced, ListAfter, Produces;
    if s.place[o] == Nowhere {
      ExtractLooseLists(s, o, CarriedBy(c));
    } else {
      IsExtracted(s, o);
      NothingInHand(s);
      ExtractPlacedEffect(s, o, {});
    }
  }

  lemma NothingInHand(s: State)
    requires Inv(s)
    ensures InvBut(s, {})
  {
  }

  /** The sale that spoils the order: a gift like what is counted stands unsorted in front, and
      something like nothing here is sold. The gift is counted where it stands, apart from its kind. */
  lemma SaleSpoilsOrder(s: State, shop: Shop, c: Character, gift: Object, a: Object, b: Object, o: Object)
    requires Linked(s) && o in s.place && !Produces(shop, o) && At(s, CarriedBy(c)) == [gift, a, b] && o !in [gift, a, b]
    requires SameObject(gift, b) && !SameObject(gift, a)
    requires !SameObject(gift, o) && !SameObject(a, o) && !SameObject(b, o)
    ensures InOrder(Shelf(At(s, CarriedBy(c)), 2))
    ensures At(SlideState(s, shop, c, o), CarriedBy(c)) == [o, gift, a, b]
    ensures !InOrder(Shelf(At(SlideState(s, shop, c, o), CarriedBy(c)), 3))
  {
    hide SlideState, Produces, SameObject, Without;
    SlideLists(s, shop, c, o);
    WithoutAbsent([gift, a, b], o);
    var end := [o, gift, a, b];
    assert [gift, a, b][1..] == [a, b];
    assert [o] + [gift, a, b] == end;
    assert end[1..] == [gift, a, b] && [gift, a, b][0] == gift && [gift, a, b][1] == a && [gift, a, b][2] == b;
    NoneLike([gift, a, b], o);
  }

  lemma NoneLike(list: seq<Object>, o: Object)
    requires forall i | 0 <= i < |list| :: !SameObject(list[i], o)
    ensures Slide(list, o) == [o] + list
  {
    assert FirstSame(list, o) == |list|;
  }

  /** A sort that starts with some of the list uncounted is one of the trades. */
  lemma SortIsTrade(s: State, shop: Shop, c: Character, sorted: nat, t: State, sorted': int)
    requires sorted < |At(s, CarriedBy(c))| && SortedInto(s, shop, c, sorted, t, sorted')
    ensures Shelf(At(t, CarriedBy(c)), sorted') ==
            Do(shop, Shelf(At(s, CarriedBy(c)), sorted),
               SortedOut(Holdings(s, Arrivals(At(s, CarriedBy(c)), sorted))))
  {
    hide Inv, Shuffled, ListsKept, ShelveAll;
  }

  // ----- sorting ----------------------------------------------------------

  /** o is about to be shelved: in c's hands, but out of every list. */
  ghost predicate InHand(s: State, c: Character, o: Object) {
    o in s.place && s.place[o] == CarriedBy(c) && o !in At(s, CarriedBy(c))
  }

  /** What shelving o does to the placements. */
  ghost predicate Shelved(s: State, c: Character, o: Object, gone: bool, t: State) {
    && t.place.Keys == s.place.Keys && t.records == s.records
    && t.tracked.Keys == (if gone then s.tracked.Keys - {o.id} else s.tracked.Keys)
    && forall x | x in s.place ::
         t.place[x] == if gone && x == o then Nowhere else if gone && x in Contents(s, o) then CarriedBy(c) else s.place[x]
  }

  lemma InNoList(s: State, c: Character, o: Object)
    requires Linked(s) && InHand(s, c, o)
    ensures forall q :: o !in At(s, q)
    ensures Detach(s, o) == s.(place := s.place[o := Nowhere])
  {
    forall q ensures o !in At(s, q) {
      assert q in s.lists && o in s.lists[q] ==> s.place[o] == q;
    }
    WithoutAbsent(At(s, CarriedBy(c)), o);
    assert Put(s.lists, CarriedBy(c), At(s, CarriedBy(c))) == s.lists;
  }

  /** Kept: put in the list, and nothing else changes. */
  lemma KeepStep(s: State, c: Character, o: Object, l: seq<Object>, left: set<Object>)
    requires InvBut(s, left) && InHand(s, c, o) && c in s.records && o.id in s.tracked && NoDup(l)
    requires forall x :: x in l <==> x in At(s, CarriedBy(c)) || x == o
    ensures InvBut(Insert(s, o, c, l), left - {o}) && Shelved(s, c, o, false, Insert(s, o, c, l))
    ensures forall q :: At(Insert(s, o, c, l), q) == if q == CarriedBy(c) then l else At(s, q)
    ensures Track(Insert(Detach(s, o), o, c, l), o) == Insert(s, o, c, l)
  {
    LinkedIn(s, left);
    InNoList(s, c, o);
    hide InvBut, Linked, NoDup;
    DetachKeepsInv(s, o, left);
    SameInsert(s, o, c, l);
    InsertKeepsInv(Detach(s, o), o, c, l, left - {o});
    InsertLists(s, o, c, l);
  }

  lemma SameInsert(s: State, o: Object, c: Character, l: seq<Object>)
    requires o in s.place && s.place[o] == CarriedBy(c) && o.id in s.tracked
    requires Detach(s, o) == s.(place := s.place[o := Nowhere])
    ensures Track(Insert(Detach(s, o), o, c, l), o) == Insert(s, o, c, l)
    ensures Insert(s, o, c, l).place == s.place
    ensures forall q :: At(Detach(s, o), q) == At(s, q)
  {
    assert s.place[o := Nowhere][o := CarriedBy(c)] == s.place[o := CarriedBy(c)] == s.place;
  }

  lemma HeadElements(list: seq<Object>, o: Object)
    requires NoDup(list) && o !in list
    ensures NoDup([o] + list) && forall x :: x in [o] + list <==> x in list || x == o
  {
    forall i, j | 0 <= i < j < |list| + 1 ensures ([o] + list)[i] != ([o] + list)[j] {
      assert list[j - 1] in list;
    }
  }

  lemma PlacedIsTrackedBut(s: State, o: Object, loose: set<Object>)
    requires InvBut(s, loose) && o in s.place && s.place[o] != Nowhere
    ensures o.id in s.tracked
  {
  }

  lemma ShelveStep(s: State, shop: Shop, c: Character, o: Object, left: set<Object>)
    requires InvBut(s, left) && InHand(s, c, o) && c in s.records && Elems(Contents(s, o)) !! left
    ensures var t, gone := ShelveState(s, shop, c, o), Surplus(shop, At(s, CarriedBy(c)), o);
      && InvBut(t, left - {o}) && Shelved(s, c, o, gone, t)
    ensures forall q :: At(ShelveState(s, shop, c, o), q) ==
                        if q == CarriedBy(c) then Shelve(shop, At(s, q), o, Contents(s, o))
                        else if q == InContainer(o) && Surplus(shop, At(s, CarriedBy(c)), o) then []
                        else At(s, q)
  {
    var list := At(s, CarriedBy(c));
    PlacedIsTrackedBut(s, o, left);
    LinkedIn(s, left);
    ListIsDistinct(s, CarriedBy(c));
    InNoList(s, c, o);
    hide InvBut, Produces, HasSame, SameObject, Insert;
    if !Produces(shop, o) {
      SlideElements(list, o);
      KeepStep(s, c, o, Slide(list, o), left);
    } else if !HasSame(list, o) {
      HeadElements(list, o);
      KeepStep(s, c, o, [o] + list, left);
    } else {
      DestroyStep(s, shop, c, o, left);
    }
  }

  /** Destroyed: what it held is in the keeper's hands, and nothing else changes. */
  lemma DestroyStep(s: State, shop: Shop, c: Character, o: Object, left: set<Object>)
    requires InvBut(s, left) && InHand(s, c, o) && Elems(Contents(s, o)) !! left
    requires Surplus(shop, At(s, CarriedBy(c)), o)
    ensures InvBut(Extract(s, o), left - {o}) && Shelved(s, c, o, true, Extract(s, o))
    ensures forall q :: At(Extract(s, o), q) ==
                        if q == CarriedBy(c) then Shelve(shop, At(s, q), o, Contents(s, o))
                        else if q == InContainer(o) then []
                        else At(s, q)
  {
    hide InvBut, Linked, Produces, HasSame, SameObject, ListAfter, Extract, ExtractPlaced, Shelve;
    LinkedIn(s, left);
    InNoList(s, c, o);
    IsExtracted(s, o);
    ExtractPlacedEffect(s, o, left);
    forall q ensures At(Extract(s, o), q) ==
                     if q == CarriedBy(c) then Shelve(shop, At(s, q), o, Contents(s, o))
                     else if q == InContainer(o) then [] else At(s, q)
    {
      DestroyedList(s, shop, c, o, q);
    }
  }

  lemma DestroyedList(s: State, shop: Shop, c: Character, o: Object, q: Placement)
    requires InHand(s, c, o) && o !in At(s, q) && Surplus(shop, At(s, CarriedBy(c)), o)
    ensures ListAfter(s, o, q) == if q == CarriedBy(c) then Shelve(shop, At(s, q), o, Contents(s, o))
                                  else if q == InContainer(o) then [] else At(s, q)
  {
    WithoutAbsent(At(s, q), o);
    assert [] + At(s, q) == At(s, q);
  }

  // ----- a whole delivery -------------------------------------------------

  /** All of a delivery is in the keeper's hands and out of every list. */
  ghost predicate Delivered(s: State, c: Character, all: seq<Object>) {
    && InvBut(s, Elems(all)) && NoDup(all) && c in s.records
    && forall o | o in all :: InHand(s, c, o)
  }

  function Holdings(s: State, all: seq<Object>): map<Object, seq<Object>> {
    map o | o in all :: Contents(s, o)
  }

  /** Nothing has moved but things destroyed, which are nowhere, and what they held. */
  ghost predicate Shuffled(s: State, c: Character, all: seq<Object>, t: State) {
    && t.place.Keys == s.place.Keys && t.records == s.records && t.tracked.Keys <= s.tracked.Keys
    && forall x | x in s.place ::
         || t.place[x] == s.place[x]
         || (x in all && t.place[x] == Nowhere && x.id !in t.tracked)
         || (s.place[x].InContainer? && s.place[x].container in all && t.place[x] == CarriedBy(c))
  }

  /** Every list but the keeper's is what it was, in order, or held what is destroyed and is empty. */
  ghost predicate ListsKept(s: State, c: Character, all: seq<Object>, t: State) {
    forall q | q in s.lists.Keys + t.lists.Keys && q != CarriedBy(c) ::
      At(t, q) == At(s, q) || (q.InContainer? && q.container in all && PlaceOf(t, q.container) == Nowhere && At(t, q) == [])
  }

  /** The state after the first of a delivery has been shelved. */
  ghost predicate PartlyShelved(s: State, shop: Shop, c: Character, all: seq<Object>, n: nat, sorted: int, t: State)
    requires n <= |all|
  {
    && InvBut(t, Elems(all) - Elems(all[..n])) && Shuffled(s, c, all, t) && ListsKept(s, c, all, t)
    && At(t, CarriedBy(c)) == ShelveAll(shop, Shelf(At(s, CarriedBy(c)), sorted), all[..n], Holdings(s, all)).list
    && forall o | o in all[n..] :: InHand(t, c, o) && Contents(t, o) == Contents(s, o)
  }

  lemma HeldNotInHand(s: State, c: Character, o: Object, left: set<Object>)
    requires InvBut(s, left) && forall x | x in left :: x in s.place && s.place[x] == CarriedBy(c)
    ensures Elems(Contents(s, o)) !! left
    ensures forall x | x in Contents(s, o) :: x in s.place && s.place[x] == InContainer(o)
  {
    LinkedIn(s, left);
    forall x | x in Contents(s, o) ensures x in s.place && s.place[x] == InContainer(o) {
      assert InContainer(o) in s.lists && x in s.lists[InContainer(o)];
    }
  }

  lemma {:induction false} ShelvesPartly(s: State, shop: Shop, c: Character, all: seq<Object>, n: nat, sorted: int)
    requires Delivered(s, c, all) && n <= |all|
    ensures PartlyShelved(s, shop, c, all, n, sorted, ShelveStates(s, shop, c, all[..n]))
  {
    hide InvBut, ShelveState, Produces, HasSame, SameObject;
    ListsKeptFirst(s, c, all);
    if n == 0 {
      assert all[..0] == [] && all[0..] == all;
      assert Elems(all) - Elems(all[..0]) == Elems(all);
    } else {
      ShelvesPartly(s, shop, c, all, n - 1, sorted);
      assert all[..n][..n - 1] == all[..n - 1];
      ShelvesNext(s, shop, c, all, n - 1, sorted, ShelveStates(s, shop, c, all[..n - 1]));
    }
  }

  /** The things still to be shelved. */
  lemma LeftOver(all: seq<Object>, n: nat)
    requires NoDup(all) && n < |all|
    ensures all[n] in all[n..] && all[n] !in all[n + 1..] && all[n] in all
    ensures Elems(all) - Elems(all[..n]) == Elems(all[n..])
    ensures Elems(all) - Elems(all[..n + 1]) == Elems(all) - Elems(all[..n]) - {all[n]}
    ensures forall o | o in all[n + 1..] :: o in all[n..] && o in all
  {
    assert all == all[..n] + all[n..];
    assert all[n..] == [all[n]] + all[n + 1..];
    assert all[..n + 1] == all[..n] + [all[n]];
    forall o | o in all[n..] ensures o !in all[..n] && o in all {
      var i :| n <= i < |all| && all[i] == o;
    }
    forall o | o in all[n + 1..] ensures o in all[n..] && o in all && o != all[n] {
      var i :| n + 1 <= i < |all| && all[i] == o;
      assert all[n..][i - n] == o;
    }
  }

  lemma ShelvesNext(s: State, shop: Shop, c: Character, all: seq<Object>, n: nat, sorted: int, u: State)
    requires Delivered(s, c, all) && n < |all| && PartlyShelved(s, shop, c, all, n, sorted, u)
    ensures PartlyShelved(s, shop, c, all, n + 1, sorted, ShelveState(u, shop, c, all[n]))
  {
    hide InvBut, Produces, HasSame, SameObject, ShelveState, ListsKept, Shelve, Reverse;
    var o, left := all[n], Elems(all) - Elems(all[..n]);
    LeftOver(all, n);
    HeldNotInHand(u, c, o, left);
    ShelveStep(u, shop, c, o, left);
    var t := ShelveState(u, shop, c, o);
    var shelf := Shelf(At(s, CarriedBy(c)), sorted);
    assert all[..n + 1][..n] == all[..n];
    assert At(t, CarriedBy(c)) == ShelveAll(shop, shelf, all[..n + 1], Holdings(s, all)).list;
    ShelvedShuffles(s, c, all, o, u, Surplus(shop, At(u, CarriedBy(c)), o), t);
    ShelvedLists(s, c, all, o, u, Surplus(shop, At(u, CarriedBy(c)), o), t);
    forall x | x in all[n + 1..] ensures InHand(t, c, x) && Contents(t, x) == Contents(s, x) {
      assert x in all[n..] && x != o;
      ShelveMembers(shop, At(u, CarriedBy(c)), o, Contents(u, o));
    }
  }

  lemma ShelveMembers(shop: Shop, list: seq<Object>, o: Object, inside: seq<Object>)
    ensures forall x :: x in Shelve(shop, list, o, inside) ==> x in list || x == o || x in inside
  {
    SlideElements(list, o);
    ReverseElements(inside);
  }

  lemma ShelvedShuffles(s: State, c: Character, all: seq<Object>, o: Object, u: State, gone: bool, t: State)
    requires Shuffled(s, c, all, u) && Shelved(u, c, o, gone, t) && o in all && o in u.place
    requires u.place[o] == CarriedBy(c)
    requires forall x | x in Contents(u, o) :: x in u.place && u.place[x] == InContainer(o)
    requires forall x | x in all :: x in s.place && s.place[x] == CarriedBy(c)
    ensures Shuffled(s, c, all, t)
  {
  }

  lemma ListsKeptFirst(s: State, c: Character, all: seq<Object>)
    ensures ListsKept(s, c, all, s)
  {
  }

  lemma ShelvedLists(s: State, c: Character, all: seq<Object>, o: Object, u: State, gone: bool, t: State)
    requires ListsKept(s, c, all, u) && Shelved(u, c, o, gone, t) && o in all && o in u.place
    requires forall x | x in Contents(u, o) :: x in u.place && u.place[x] == InContainer(o)
    requires forall q | q != CarriedBy(c) :: At(t, q) == if q == InContainer(o) && gone then [] else At(u, q)
    ensures ListsKept(s, c, all, t)
  {
    forall q | q != CarriedBy(c)
      ensures At(t, q) == At(s, q)
              || (q.InContainer? && q.container in all && PlaceOf(t, q.container) == Nowhere && At(t, q) == [])
    {
      assert q.InContainer? && q.container in u.place && u.place[q.container] == Nowhere ==> q.container !in Contents(u, o);
    }
  }

  // ----- on the heap ------------------------------------------------------

  /** The runtime state of a shop. */
  class ShopState {
    var bank: int
    var sorted: nat

    constructor ()
      ensures bank == 0 && sorted == 0
    {
      bank, sorted := 0, 0;
    }

    /** Something counted has been bought. */
    method DecrementShopSort()
      modifies `sorted
      ensures sorted == if old(sorted) > 0 then old(sorted) - 1 else old(sorted)
    {
      if sorted > 0 {
        sorted := sorted - 1;
      }
    }

    method ResetShopSort()
      modifies `sorted
      ensures sorted == 0
    {
      sorted := 0;
    }
  }

  /** hasSameObject. */
  method HasSameObject(list: seq<Object>, o: Object) returns (found: bool)
    ensures found == HasSame(list, o)
  {
    for i := 0 to |list|
      invariant forall j | 0 <= j < i :: !SameObject(list[j], o)
    {
      if SameObject(list[i], o) {
        assert list[i] in list;
        return true;
      }
    }
    return false;
  }

  /** Beside the first of its kind, or at the head. */
  method Splice(list: seq<Object>, o: Object) returns (r: seq<Object>)
    ensures r == Slide(list, o)
  {
    for i := 0 to |list|
      invariant i <= FirstSame(list, o)
    {
      if SameObject(list[i], o) {
        return list[..i + 1] + [o] + list[i + 1..];
      }
    }
    return [o] + list;
  }

  lemma Listing(l: Live, c: Character)
    requires c in l.Chars
    ensures At(l.View(), CarriedBy(c)) == c.carrying && c in l.View().records
  {
    l.Sees();
    l.ListedAt(CarriedBy(c));
  }

  method SlideShopObject(l: Live, shop: Shop, st: ShopState, keeper: Character?, o: Object?, ghost loose: set<Object> := {})
    requires l.Heap() && InvBut(l.View(), loose) && (keeper != null ==> keeper in l.Chars) && (o != null ==> o in l.Objs)
    requires o != null ==> Elems(o.contents) !! loose && (o.placement == Nowhere ==> loose == {})
    modifies l`roomObjects, l`objects, l`objCounts, st`sorted
    modifies l.Objs`placement, l.Objs`contents, l.Chars`carrying, l.Chars`equipment
    ensures l.Heap()
    ensures keeper == null || o == null ==> l.View() == old(l.View()) && st.sorted == old(st.sorted)
    ensures keeper != null && o != null ==>
              && l.View() == SlideState(old(l.View()), shop, keeper, o)
              && st.sorted == (if Produces(shop, o) then old(st.sorted) else old(st.sorted) + 1)
              && InvBut(l.View(), loose - {o})
  {
    hide InvBut, Live.View, Live.Heap, Produces, ObjectGraph.Detach, ObjectGraph.Track, Slide, Insert, Extract;
    if keeper == null || o == null {
      return;
    }
    l.Sees();
    l.ContentsSeen(o);
    SlideKeepsInv(l.View(), shop, keeper, o, loose);
    if Produces(shop, o) {
      l.ExtractObject(o, loose);
      return;
    }
    st.sorted := st.sorted + 1;
    l.Detach(o);
    Listing(l, keeper);
    var carrying := Splice(keeper.carrying, o);
    PutInHands(l, keeper, o, carrying);
    l.Track(o);
  }

  method PutInHands(l: Live, c: Character, o: Object, list: seq<Object>)
    requires l.Heap() && c in l.Chars && o in l.Objs
    modifies o`placement, c`carrying
    ensures l.Heap() && l.View() == Insert(old(l.View()), o, c, list)
  {
    l.SetPlacement(o, CarriedBy(c));
    l.SetCarrying(c, list);
  }

  /** The world once the arrivals have been taken out of the keeper's list. */
  function TakenDown(s: State, c: Character, sorted: nat): State
    requires sorted <= |At(s, CarriedBy(c))|
  {
    s.(lists := Put(s.lists, CarriedBy(c), Stocked(At(s, CarriedBy(c)), sorted)))
  }

  lemma ArrivalsSplit(list: seq<Object>, sorted: nat)
    requires sorted <= |list| && NoDup(list)
    ensures NoDup(Arrivals(list, sorted)) && NoDup(Stocked(list, sorted))
    ensures forall o | o in Arrivals(list, sorted) :: o in list && o !in Stocked(list, sorted)
    ensures forall o | o in list :: o in Arrivals(list, sorted) || o in Stocked(list, sorted)
    ensures forall o | o in Stocked(list, sorted) :: o in list
    ensures NoDup(Stocked(list, sorted) + Arrivals(list, sorted))
  {
    var k := |list| - sorted;
    var a, b := Arrivals(list, sorted), Stocked(list, sorted);
    ReverseElements(list[..k]);
    assert list == list[..k] + b;
    forall o | o in a ensures o in list && o !in b {
      var i :| 0 <= i < k && list[i] == o;
    }
    forall i, j | 0 <= i < j < |b + a| ensures (b + a)[i] != (b + a)[j] {
      if i < |b| && j >= |b| {
        assert (b + a)[j] in a && (b + a)[i] in b;
      }
    }
  }

  lemma TakenDownDelivers(s: State, c: Character, sorted: nat)
    requires Inv(s) && c in s.records && sorted <= |At(s, CarriedBy(c))|
    ensures var t, all := TakenDown(s, c, sorted), Arrivals(At(s, CarriedBy(c)), sorted);
      && Delivered(t, c, all) && At(t, CarriedBy(c)) == Stocked(At(s, CarriedBy(c)), sorted)
      && Holdings(t, all) == Holdings(s, all) && t.place == s.place && t.tracked == s.tracked && t.records == s.records
  {
    hide *;
    var list, t := At(s, CarriedBy(c)), TakenDown(s, c, sorted);
    var all, rest := Arrivals(list, sorted), Stocked(list, sorted);
    TakenDownParts(s, c);
    ArrivalsSplit(list, sorted);
    TakenDownAt(s, c, sorted);
    TakenDownLinked(s, c, t, all, rest);
    ElemsHas(all);
    TakenDownRest(s, t, Elems(all));
    HoldingsSame(s, t, c, all);
    DeliveredIs(t, c, all, rest);
  }

  lemma ElemsHas(all: seq<Object>)
    ensures forall x :: x in Elems(all) <==> x in all
  {
  }

  lemma TakenDownAt(s: State, c: Character, sorted: nat)
    requires sorted <= |At(s, CarriedBy(c))|
    ensures var t, rest := TakenDown(s, c, sorted), Stocked(At(s, CarriedBy(c)), sorted);
      && t.place == s.place && t.records == s.records && t.tracked == s.tracked && t.counts == s.counts
      && t.lists == Put(s.lists, CarriedBy(c), rest)
      && forall q :: At(t, q) == if q == CarriedBy(c) then rest else At(s, q)
  {
    var t, rest := TakenDown(s, c, sorted), Stocked(At(s, CarriedBy(c)), sorted);
    forall q ensures At(t, q) == if q == CarriedBy(c) then rest else At(s, q) {
      ListedPut(s.lists, CarriedBy(c), rest, q);
    }
  }

  lemma HoldingsSame(s: State, t: State, c: Character, all: seq<Object>)
    requires forall q | q != CarriedBy(c) :: At(t, q) == At(s, q)
    ensures Holdings(t, all) == Holdings(s, all)
  {
  }

  lemma DeliveredIs(t: State, c: Character, all: seq<Object>, rest: seq<Object>)
    requires InvBut(t, Elems(all)) && NoDup(all) && c in t.records && At(t, CarriedBy(c)) == rest
    requires forall o | o in all :: o in t.place && t.place[o] == CarriedBy(c) && o !in rest
    ensures Delivered(t, c, all)
  {
  }

  lemma TakenDownParts(s: State, c: Character)
    requires Inv(s)
    ensures Linked(s) && CompleteBut(s, {}) && NoDup(At(s, CarriedBy(c)))
    ensures forall o | o in At(s, CarriedBy(c)) :: o in s.place && s.place[o] == CarriedBy(c)
  {
  }

  lemma TakenDownLinked(s: State, c: Character, t: State, all: seq<Object>, rest: seq<Object>)
    requires Linked(s) && CompleteBut(s, {}) && NoDup(rest) && t.lists == Put(s.lists, CarriedBy(c), rest) && t.place == s.place
    requires forall q :: At(t, q) == if q == CarriedBy(c) then rest else At(s, q)
    requires forall o | o in rest :: o in At(s, CarriedBy(c))
    requires forall o | o in At(s, CarriedBy(c)) :: o in all || o in rest
    ensures Linked(t) && CompleteBut(t, Elems(all))
  {
    forall q | q in t.lists
      ensures q != Nowhere && t.lists[q] != [] && NoDup(t.lists[q])
      ensures q.WornBy? ==> 0 <= q.at < NUM_WEARS && |t.lists[q]| == 1
      ensures forall x | x in t.lists[q] :: x in t.place && t.place[x] == q
    {
      assert t.lists[q] == At(t, q);
      if q == CarriedBy(c) {
        forall x | x in t.lists[q] ensures x in t.place && t.place[x] == q {
          assert q in s.lists && x in s.lists[q];
        }
      }
    }
    forall x | x in t.place && t.place[x] != Nowhere && x !in Elems(all) ensures x in At(t, t.place[x]) {
      assert x in At(s, s.place[x]);
    }
  }

  lemma TakenDownRest(s: State, t: State, loose: set<Object>)
    requires Inv(s) && Linked(t) && CompleteBut(t, loose)
    requires t.place == s.place && t.records == s.records && t.tracked == s.tracked && t.counts == s.counts
    ensures InvBut(t, loose)
  {
    forall x | x in t.place ensures Known(t, t.place[x]) {
      assert Known(s, s.place[x]);
    }
    assert IndexAgrees(t) && TracksPlaced(t);
  }

  /** What the sort leaves, however the delivery was made up. */
  ghost predicate SortedInto(s: State, shop: Shop, c: Character, sorted: nat, t: State, sorted': int)
    requires sorted <= |At(s, CarriedBy(c))|
  {
    var list := At(s, CarriedBy(c));
    var all, stock := Arrivals(list, sorted), Stocked(list, sorted);
    var end := ShelveAll(shop, Shelf(stock, sorted), all, Holdings(s, all));
    && Inv(t) && Shuffled(s, c, all, t) && ListsKept(s, c, all, t)
    && At(t, CarriedBy(c)) == end.list && sorted' == end.sorted
  }

  /** No arrival that is one too many holds anything. */
  ghost predicate NoneSpills(s: State, shop: Shop, c: Character, sorted: nat)
    requires sorted <= |At(s, CarriedBy(c))|
  {
    var list := At(s, CarriedBy(c));
    var all := Arrivals(list, sorted);
    NothingSpills(shop, Stocked(list, sorted), all, Holdings(s, all))
  }

  /** When what was sorted was grouped and no arrival that is one too many holds anything, the
      whole stock is grouped, and only surplus copies are gone. */
  lemma SortedWell(s: State, shop: Shop, c: Character, sorted: nat, t: State, sorted': nat)
    requires Inv(s) && sorted <= |At(s, CarriedBy(c))| && SortedInto(s, shop, c, sorted, t, sorted')
    requires Grouped(Stocked(At(s, CarriedBy(c)), sorted)) && NoneSpills(s, shop, c, sorted)
    ensures Sorted(shop, Stocked(At(s, CarriedBy(c)), sorted), Arrivals(At(s, CarriedBy(c)), sorted), At(t, CarriedBy(c)))
  {
    hide Inv, Grouped, Sorted, Shuffled, ListsKept, ShelveAll, NothingSpills;
    var list := At(s, CarriedBy(c));
    var all, stock := Arrivals(list, sorted), Stocked(list, sorted);
    TakenDownParts(s, c);
    ArrivalsSplit(list, sorted);
    ShelvesSorted(shop, Shelf(stock, sorted), all, Holdings(s, all));
  }

  /** The count agrees with the stock exactly when no arrival that is one too many holds anything. */
  lemma SortedCount(s: State, shop: Shop, c: Character, sorted: nat, t: State, sorted': nat)
    requires sorted <= |At(s, CarriedBy(c))| && SortedInto(s, shop, c, sorted, t, sorted')
    ensures sorted' == |At(t, CarriedBy(c))| <==> NoneSpills(s, shop, c, sorted)
  {
    hide Inv, Shuffled, ListsKept, ShelveAll, NothingSpills;
    var list := At(s, CarriedBy(c));
    var all, stock := Arrivals(list, sorted), Stocked(list, sorted);
    CountTrailsList(shop, Shelf(stock, sorted), all, Holdings(s, all));
    SpiltIs(shop, Shelf(stock, sorted), all, Holdings(s, all));
  }

  /** The delivery that is miscounted: a second copy of something made here, with one thing in it.
      The copy goes, what it held is stocked in front, and only one of the two is counted. */
  lemma FullCopyMiscounts(s: State, shop: Shop, c: Character, copy: Object, stocked: Object, held: Object, t: State, sorted': nat)
    requires At(s, CarriedBy(c)) == [copy, stocked] && Contents(s, copy) == [held]
    requires Produces(shop, copy) && SameObject(stocked, copy) && SortedInto(s, shop, c, 1, t, sorted')
    ensures At(t, CarriedBy(c)) == [held, stocked] && sorted' == 1 && !NoneSpills(s, shop, c, 1)
  {
    hide Inv, Shuffled, ListsKept, Produces, SameObject, NoneSpills, ShelveAll, Reverse;
    ArrivedBefore(copy, stocked);
    FullCopyShelved(shop, copy, stocked, held, Holdings(s, [copy]));
    SortedCount(s, shop, c, 1, t, sorted');
  }

  lemma ArrivedBefore(copy: Object, stocked: Object)
    ensures Arrivals([copy, stocked], 1) == [copy] && Stocked([copy, stocked], 1) == [stocked]
  {
    assert [copy, stocked][..1] == [copy];
    assert Reverse([copy]) == [copy];
  }

  /** The peeled-off arrivals, oldest first. */
  method PeelOff(carrying: seq<Object>, n: nat) returns (unsorted: seq<Object>)
    requires n <= |carrying|
    ensures unsorted == Reverse(carrying[..n])
  {
    unsorted := [];
    ReverseElements(carrying[..n]);
    for i := n downto 0
      invariant |unsorted| == n - i
      invariant forall j | 0 <= j < n - i :: unsorted[j] == carrying[n - 1 - j]
    {
      unsorted := unsorted + [carrying[i]];
    }
  }

  /** The loop body: one arrival. */
  method ShelveOneObject(l: Live, shop: Shop, st: ShopState, keeper: Character, o: Object, ghost loose: set<Object>)
    requires l.Heap() && InvBut(l.View(), loose) && keeper in l.Chars && o in l.Objs
    requires InHand(l.View(), keeper, o) && Elems(Contents(l.View(), o)) !! loose
    modifies l`roomObjects, l`objects, l`objCounts, st`sorted
    modifies l.Objs`placement, l.Objs`contents, l.Chars`carrying, l.Chars`equipment
    ensures l.Heap() && l.View() == ShelveState(old(l.View()), shop, keeper, o)
    ensures st.sorted == old(st.sorted) + if Surplus(shop, At(old(l.View()), CarriedBy(keeper)), o) then 0 else 1
  {
    hide InvBut, Live.View, Live.Heap, Produces, HasSame, SlideState, Insert;
    l.Sees();
    Listing(l, keeper);
    l.ContentsSeen(o);
    var stocked := HasSameObject(keeper.carrying, o);
    if Produces(shop, o) && !stocked {
      PutInHands(l, keeper, o, [o] + keeper.carrying);
      st.sorted := st.sorted + 1;
      return;
    }
    SlideShopObject(l, shop, st, keeper, o, loose);
  }

  /** Before arrival n: sound, and the arrival ready to be shelved. */
  lemma ReadyToShelve(s: State, shop: Shop, c: Character, all: seq<Object>, n: nat, sorted: int)
    requires Delivered(s, c, all) && n < |all|
    ensures var u, left := ShelveStates(s, shop, c, all[..n]), Elems(all) - Elems(all[..n]);
      && InvBut(u, left) && InHand(u, c, all[n]) && all[n] in u.place && c in u.records
      && Elems(Contents(u, all[n])) !! left
      && ShelveStates(s, shop, c, all[..n + 1]) == ShelveState(u, shop, c, all[n])
    ensures var before := ShelveAll(shop, Shelf(At(s, CarriedBy(c)), sorted), all[..n], Holdings(s, all));
      var after := ShelveAll(shop, Shelf(At(s, CarriedBy(c)), sorted), all[..n + 1], Holdings(s, all));
      after.sorted == before.sorted +
      if Surplus(shop, At(ShelveStates(s, shop, c, all[..n]), CarriedBy(c)), all[n]) then 0 else 1
  {
    hide InvBut, Produces, HasSame, SameObject, ShelveState;
    ShelvesPartly(s, shop, c, all, n, sorted);
    LeftOver(all, n);
    HeldNotInHand(ShelveStates(s, shop, c, all[..n]), c, all[n], Elems(all) - Elems(all[..n]));
    assert all[..n + 1][..n] == all[..n];
  }

  lemma AllShelved(s: State, shop: Shop, c: Character, all: seq<Object>, sorted: int)
    requires Delivered(s, c, all)
    ensures var t := ShelveStates(s, shop, c, all);
      && Inv(t) && Shuffled(s, c, all, t) && ListsKept(s, c, all, t)
      && At(t, CarriedBy(c)) == ShelveAll(shop, Shelf(At(s, CarriedBy(c)), sorted), all, Holdings(s, all)).list
  {
    hide InvBut;
    ShelvesPartly(s, shop, c, all, |all|, sorted);
    assert all[..|all|] == all && Elems(all) - Elems(all) == {};
  }

  method ShelveArrivals(l: Live, shop: Shop, st: ShopState, keeper: Character, unsorted: seq<Object>)
    requires l.Heap() && l.Numbered() && keeper in l.Chars && Delivered(l.View(), keeper, unsorted)
    modifies l`roomObjects, l`objects, l`objCounts, st`sorted
    modifies l.Objs`placement, l.Objs`contents, l.Chars`carrying, l.Chars`equipment
    ensures l.Valid() && l.View() == ShelveStates(old(l.View()), shop, keeper, unsorted)
    ensures st.sorted == ShelveAll(shop, Shelf(At(old(l.View()), CarriedBy(keeper)), old(st.sorted)), unsorted,
                                   Holdings(old(l.View()), unsorted)).sorted
  {
    hide *;
    ghost var s, sorted := l.View(), st.sorted;
    NoneShelved(s, shop, keeper, unsorted, sorted);
    for i := 0 to |unsorted|
      invariant l.Heap() && l.Numbered() && l.View() == ShelveStates(s, shop, keeper, unsorted[..i])
      invariant st.sorted == ShelveAll(shop, Shelf(At(s, CarriedBy(keeper)), sorted), unsorted[..i], Holdings(s, unsorted)).sorted
    {
      ReadyToShelve(s, shop, keeper, unsorted, i, sorted);
      l.Sees();
      ShelveOneObject(l, shop, st, keeper, unsorted[i], Elems(unsorted) - Elems(unsorted[..i]));
    }
    assert unsorted[..|unsorted|] == unsorted;
    AllShelved(s, shop, keeper, unsorted, sorted);
    IsValid(l);
  }

  lemma NoneShelved(s: State, shop: Shop, c: Character, all: seq<Object>, sorted: int)
    ensures ShelveStates(s, shop, c, all[..0]) == s
    ensures ShelveAll(shop, Shelf(At(s, CarriedBy(c)), sorted), all[..0], Holdings(s, all)).sorted == sorted
  {
  }

  /** From the shelved delivery back to the world the sort began in. */
  lemma SortedIntoIs(s: State, shop: Shop, c: Character, sorted: nat, sorted': int)
    requires Inv(s) && c in s.records && sorted <= |At(s, CarriedBy(c))|
    requires var u, all := TakenDown(s, c, sorted), Arrivals(At(s, CarriedBy(c)), sorted);
      sorted' == ShelveAll(shop, Shelf(At(u, CarriedBy(c)), sorted), all, Holdings(u, all)).sorted
    ensures var u, all := TakenDown(s, c, sorted), Arrivals(At(s, CarriedBy(c)), sorted);
      SortedInto(s, shop, c, sorted, ShelveStates(u, shop, c, all), sorted')
  {
    hide InvBut, ShelveStates, ShelveAll, Arrivals, Stocked;
    TakenDownAt(s, c, sorted);
    var u, all := TakenDown(s, c, sorted), Arrivals(At(s, CarriedBy(c)), sorted);
    TakenDownDelivers(s, c, sorted);
    AllShelved(u, shop, c, all, sorted);
  }

  lemma TakenDownIs(s: State, c: Character, list: seq<Object>, sorted: nat)
    requires At(s, CarriedBy(c)) == list && sorted <= |list|
    ensures TakenDown(s, c, sorted) == s.(lists := Put(s.lists, CarriedBy(c), list[|list| - sorted..]))
    ensures Arrivals(list, sorted) == Reverse(list[..|list| - sorted])
  {
  }

  method SortShopObjects(l: Live, shop: Shop, st: ShopState, keeper: Character?)
    requires l.Valid() && (keeper != null ==> keeper in l.Chars)
    modifies l`roomObjects, l`objects, l`objCounts, st`sorted
    modifies l.Objs`placement, l.Objs`contents, l.Chars`carrying, l.Chars`equipment
    ensures l.Valid()
    ensures keeper == null || old(st.sorted) >= |old(keeper.carrying)| ==>
              l.View() == old(l.View()) && st.sorted == old(st.sorted)
    ensures keeper != null && old(st.sorted) < |old(keeper.carrying)| ==>
              && old(keeper.carrying) == At(old(l.View()), CarriedBy(keeper))
              && SortedInto(old(l.View()), shop, keeper, old(st.sorted), l.View(), st.sorted)
  {
    if keeper == null || st.sorted >= |keeper.carrying| {
      return;
    }
    ghost var s, sorted := l.View(), st.sorted;
    Listing(l, keeper);
    hide *;
    IsWhole(l);
    TakenDownIs(s, keeper, keeper.carrying, sorted);
    TakenDownDelivers(s, keeper, sorted);
    var n := |keeper.carrying| - st.sorted;
    var unsorted := PeelOff(keeper.carrying, n);
    l.SetCarrying(keeper, keeper.carrying[n..]);
    ShelveArrivals(l, shop, st, keeper, unsorted);
    SortedIntoIs(s, shop, keeper, sorted, st.sorted);
  }
}
