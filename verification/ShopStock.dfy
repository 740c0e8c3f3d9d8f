/** A keeper's stock is kept grouped: things a customer cannot tell apart stay adjacent. The list
    functions here are what SortShopObjects and SlideShopObject of ShopKeeping.dfy do to it. */
module ShopStock {
  import opened ObjectGraph

  const MAX_OBJ_AFFECTS: nat := 6

  /** What a shop makes, and the prototypes there are. */
  datatype Shop = Shop(producing: seq<ObjVnum>, defs: map<ObjVnum, ObjDef>)

  function AffectAt(affects: seq<ObjAffect>, i: nat): ObjAffect {
    if i < |affects| then affects[i] else ObjAffect(0, 0)
  }

  predicate SameAffects(a: seq<ObjAffect>, b: seq<ObjAffect>) {
    forall i | 0 <= i < MAX_OBJ_AFFECTS :: AffectAt(a, i) == AffectAt(b, i)
  }

  predicate SameObject(a: Object, b: Object) {
    a.def == b.def && a.cost == b.cost && a.extraFlags == b.extraFlags && SameAffects(a.affects, b.affects)
  }

  /** The object against a prototype seen as an object. */
  predicate SameAsPrototype(o: Object, def: ObjDef) {
    o.def == def && o.cost == def.cost && o.extraFlags == def.extraFlags && SameAffects(o.affects, def.affects)
  }

  predicate Produces(shop: Shop, o: Object) {
    o.def != null && exists v | v in shop.producing && v in shop.defs :: SameAsPrototype(o, shop.defs[v])
  }

  lemma SameIsEquivalence(a: Object, b: Object, c: Object)
    ensures SameObject(a, a)
    ensures SameObject(a, b) ==> SameObject(b, a)
    ensures SameObject(a, b) && SameObject(b, c) ==> SameObject(a, c)
  {
  }

  lemma SameIsProduced(shop: Shop, a: Object, b: Object)
    requires SameObject(a, b)
    ensures Produces(shop, a) <==> Produces(shop, b)
  {
    assert forall v | v in shop.producing && v in shop.defs ::
        SameAsPrototype(a, shop.defs[v]) <==> SameAsPrototype(b, shop.defs[v]);
  }

  predicate HasSame(list: seq<Object>, o: Object) {
    exists x | x in list :: SameObject(x, o)
  }

  /** Things of one kind are adjacent. */
  ghost predicate Grouped(list: seq<Object>) {
    forall i, j, k | 0 <= i < j < k < |list| && SameObject(list[i], list[k]) :: SameObject(list[i], list[j])
  }

  /** Where the first thing of o's kind is; the length of the list when there is none. */
  function FirstSame(list: seq<Object>, o: Object): (i: nat)
    ensures i <= |list|
    ensures forall j | 0 <= j < i :: !SameObject(list[j], o)
    ensures i < |list| ==> SameObject(list[i], o)
  {
    if list == [] then 0 else if SameObject(list[0], o) then 0 else 1 + FirstSame(list[1..], o)
  }

  /** Beside the first of its kind, or at the head. */
  function Slide(list: seq<Object>, o: Object): seq<Object> {
    var i := FirstSame(list, o);
    if i < |list| then list[..i + 1] + [o] + list[i + 1..] else [o] + list
  }

  /** The stock after one arrival, and whether it was destroyed. What a destroyed thing held goes
      to the keeper, in front. */
  function Shelve(shop: Shop, list: seq<Object>, o: Object, inside: seq<Object>): seq<Object> {
    if !Produces(shop, o) then Slide(list, o)
    else if HasSame(list, o) then Reverse(inside) + list
    else [o] + list
  }

  predicate Surplus(shop: Shop, list: seq<Object>, o: Object) {
    Produces(shop, o) && HasSame(list, o)
  }

  lemma SlideElements(list: seq<Object>, o: Object)
    ensures |Slide(list, o)| == |list| + 1
    ensures forall x :: x in Slide(list, o) <==> x in list || x == o
    ensures NoDup(list) && o !in list ==> NoDup(Slide(list, o))
  {
    var i, s := FirstSame(list, o), Slide(list, o);
    forall x ensures x in s <==> x in list || x == o {
      if x in list {
        var j :| 0 <= j < |list| && list[j] == x;
        assert i < |list| ==> s[if j <= i then j else j + 1] == x;
        assert i == |list| ==> s[j + 1] == x;
      }
    }
    if i < |list| {
      assert s[i + 1] == o;
    } else {
      assert s[0] == o;
    }
  }

  lemma SameThrough(a: Object, b: Object, c: Object)
    requires SameObject(a, b) && SameObject(b, c)
    ensures SameObject(a, c)
  {
    SameIsEquivalence(a, b, c);
  }

  lemma GroupedAt(list: seq<Object>, a: nat, b: nat, c: nat)
    requires Grouped(list) && a <= b <= c < |list| && SameObject(list[a], list[c])
    ensures SameObject(list[a], list[b])
  {
    SameIsEquivalence(list[a], list[a], list[a]);
  }

  /** Sliding something in keeps the stock grouped. */
  lemma SlideKeepsGrouped(list: seq<Object>, o: Object)
    requires Grouped(list)
    ensures Grouped(Slide(list, o))
  {
    hide SameObject, Slide;
    SlideIs(list, o);
    if FirstSame(list, o) == |list| {
      HeadKeepsGrouped(list, o);
    } else {
      var s := Slide(list, o);
      forall i, j, k | 0 <= i < j < k < |s| && SameObject(s[i], s[k]) ensures SameObject(s[i], s[j]) {
        SlideTriple(list, o, i, j, k);
      }
    }
  }

  lemma SlideIs(list: seq<Object>, o: Object)
    ensures |Slide(list, o)| == |list| + 1
    ensures FirstSame(list, o) == |list| ==> Slide(list, o) == [o] + list
  {
  }

  /** Seen in the list, with o's place holding what was just before it. */
  lemma SlideTriple(list: seq<Object>, o: Object, i: nat, j: nat, k: nat)
    requires Grouped(list) && FirstSame(list, o) < |list| && i < j < k < |Slide(list, o)| == |list| + 1
    requires SameObject(Slide(list, o)[i], Slide(list, o)[k])
    ensures SameObject(Slide(list, o)[i], Slide(list, o)[j])
  {
    hide SameObject, Slide, Grouped;
    var n, s := FirstSame(list, o), Slide(list, o);
    var a, b, c := if i <= n then i else i - 1, if j <= n then j else j - 1, if k <= n then k else k - 1;
    SlideLikeBefore(list, o, i);
    SlideLikeBefore(list, o, j);
    SlideLikeBefore(list, o, k);
    SameThrough(list[a], s[i], s[k]);
    SameThrough(list[a], s[k], list[c]);
    GroupedAt(list, a, b, c);
    SameThrough(s[i], list[a], list[b]);
    SameThrough(s[i], list[b], s[j]);
  }

  /** Each position of the new list is like one of the old: o like the one it was put beside. */
  lemma SlideLikeBefore(list: seq<Object>, o: Object, i: nat)
    requires FirstSame(list, o) < |list| && i <= |list|
    ensures var b := if i <= FirstSame(list, o) then i else i - 1;
      SameObject(list[b], Slide(list, o)[i]) && SameObject(Slide(list, o)[i], list[b])
  {
    var n := FirstSame(list, o);
    var b := if i <= n then i else i - 1;
    SameIsEquivalence(list[b], list[b], list[b]);
    SameIsEquivalence(list[n], o, o);
  }

  /** Putting at the head something there is none like keeps the stock grouped. */
  lemma HeadKeepsGrouped(list: seq<Object>, o: Object)
    requires Grouped(list) && FirstSame(list, o) == |list|
    ensures Grouped([o] + list)
  {
    hide SameObject;
    var s := [o] + list;
    forall m | 0 <= m < |list| ensures !SameObject(o, list[m]) {
      SameIsEquivalence(o, list[m], o);
    }
    forall i, j, k | 0 <= i < j < k < |s| && SameObject(s[i], s[k]) ensures SameObject(s[i], s[j]) {
      assert s[j] == list[j - 1] && s[k] == list[k - 1];
      assert i > 0;
      assert s[i] == list[i - 1];
    }
  }

  // ----- a whole delivery -------------------------------------------------

  /** The keeper's list and the count of it known to be grouped. */
  datatype Shelf = Shelf(list: seq<Object>, sorted: int)

  function ShelveOne(shop: Shop, shelf: Shelf, o: Object, inside: map<Object, seq<Object>>): Shelf {
    Shelf(Shelve(shop, shelf.list, o, if o in inside then inside[o] else []),
          if Surplus(shop, shelf.list, o) then shelf.sorted else shelf.sorted + 1)
  }

  /** Arrivals shelved first to last; `inside` is what each of them holds. */
  function ShelveAll(shop: Shop, shelf: Shelf, arrivals: seq<Object>, inside: map<Object, seq<Object>>): Shelf {
    if arrivals == [] then shelf
    else ShelveOne(shop, ShelveAll(shop, shelf, arrivals[..|arrivals| - 1], inside), arrivals[|arrivals| - 1], inside)
  }

  /** The arrivals in the order they are shelved, oldest first. */
  function Arrivals(list: seq<Object>, sorted: nat): seq<Object>
    requires sorted <= |list|
  {
    Reverse(list[..|list| - sorted])
  }

  function Stocked(list: seq<Object>, sorted: nat): seq<Object>
    requires sorted <= |list|
  {
    list[|list| - sorted..]
  }

  /** How much spills out of the arrivals that are destroyed. */
  function Spilt(shop: Shop, shelf: Shelf, arrivals: seq<Object>, inside: map<Object, seq<Object>>): nat {
    if arrivals == [] then 0
    else
      var init, last := arrivals[..|arrivals| - 1], arrivals[|arrivals| - 1];
      Spilt(shop, shelf, init, inside) +
      if Surplus(shop, ShelveAll(shop, shelf, init, inside).list, last) && last in inside then |inside[last]| else 0
  }

  /** The count trails the list by exactly what was spilt, so the two agree when, and only when,
      nothing destroyed held anything. */
  lemma {:induction false} CountTrailsList(shop: Shop, shelf: Shelf, arrivals: seq<Object>, inside: map<Object, seq<Object>>)
    ensures var end := ShelveAll(shop, shelf, arrivals, inside);
      |end.list| - end.sorted == |shelf.list| - shelf.sorted + Spilt(shop, shelf, arrivals, inside)
  {
    if arrivals != [] {
      var init, last := arrivals[..|arrivals| - 1], arrivals[|arrivals| - 1];
      CountTrailsList(shop, shelf, init, inside);
      var mid := ShelveAll(shop, shelf, init, inside);
      SlideElements(mid.list, last);
      ReverseElements(if last in inside then inside[last] else []);
    }
  }

  /** Whether arrival i is kept: it is not made here, or nothing like it was stocked before it. */
  ghost predicate Kept(shop: Shop, list: seq<Object>, arrivals: seq<Object>, i: nat)
    requires i < |arrivals|
  {
    !Surplus(shop, list + arrivals[..i], arrivals[i])
  }

  /** What a delivery leaves when nothing spills. */
  ghost predicate Sorted(shop: Shop, list: seq<Object>, arrivals: seq<Object>, end: seq<Object>) {
    && Grouped(end) && NoDup(end)
    && SameKinds(list, arrivals, end)
    && (forall x | x in list :: x in end)
    && (forall i | 0 <= i < |arrivals| :: arrivals[i] in end <==> Kept(shop, list, arrivals, i))
  }

  lemma SameStocked(shop: Shop, list: seq<Object>, arrivals: seq<Object>, end: seq<Object>, o: Object)
    requires SameKinds(list, arrivals, end)
    ensures HasSame(end, o) <==> HasSame(list + arrivals, o)
  {
    if x :| x in end && SameObject(x, o) {
      assert x in list + arrivals;
    }
    if x :| x in list + arrivals && SameObject(x, o) {
      var y :| y in end && SameObject(y, x);
      SameIsEquivalence(y, x, o);
    }
  }

  /** No arrival that is one too many, by what stood and came before it, holds anything. */
  ghost predicate NothingSpills(shop: Shop, list: seq<Object>, arrivals: seq<Object>, inside: map<Object, seq<Object>>) {
    forall i | 0 <= i < |arrivals| ::
      Surplus(shop, list + arrivals[..i], arrivals[i]) && arrivals[i] in inside ==> inside[arrivals[i]] == []
  }

  lemma NothingSpillsFirst(shop: Shop, list: seq<Object>, arrivals: seq<Object>, inside: map<Object, seq<Object>>)
    requires arrivals != []
    ensures var init, last := arrivals[..|arrivals| - 1], arrivals[|arrivals| - 1];
      NothingSpills(shop, list, arrivals, inside) <==>
      && NothingSpills(shop, list, init, inside)
      && (Surplus(shop, list + init, last) && last in inside ==> inside[last] == [])
  {
    hide Surplus;
    var init := arrivals[..|arrivals| - 1];
    assert forall i | 0 <= i < |init| :: init[..i] == arrivals[..i] && init[i] == arrivals[i];
  }

  /** What is on the shelf is of the kinds that stood there or came, and all of those. */
  ghost predicate SameKinds(list: seq<Object>, arrivals: seq<Object>, end: seq<Object>) {
    && (forall x :: x in end ==> x in list || x in arrivals)
    && (forall x | x in list + arrivals :: HasSame(end, x))
  }

  lemma KindsOfOneMore(shop: Shop, list: seq<Object>, init: seq<Object>, last: Object, mid: seq<Object>, inside: seq<Object>)
    requires SameKinds(list, init, mid) && (Surplus(shop, mid, last) ==> inside == [])
    ensures SameKinds(list, init + [last], Shelve(shop, mid, last, inside))
  {
    hide Produces, SameObject;
    var end := Shelve(shop, mid, last, inside);
    SlideElements(mid, last);
    assert Reverse([]) + mid == mid;
    assert forall x :: x in [last] + mid <==> x == last || x in mid;
    SameIsEquivalence(last, last, last);
    assert forall x | x in mid :: x in end;
    assert HasSame(end, last);
    forall x | x in list + (init + [last]) ensures HasSame(end, x) {
      if x != last {
        assert x in list + init;
        var y :| y in mid && SameObject(y, x);
      }
    }
  }

  lemma {:induction false} KindsKept(shop: Shop, shelf: Shelf, arrivals: seq<Object>, inside: map<Object, seq<Object>>)
    requires NothingSpills(shop, shelf.list, arrivals, inside)
    ensures SameKinds(shelf.list, arrivals, ShelveAll(shop, shelf, arrivals, inside).list)
  {
    hide Surplus, Produces, Shelve, SameObject, SameKinds, HasSame;
    if arrivals == [] {
      KindsAtFirst(shelf.list);
    } else {
      var init, last := arrivals[..|arrivals| - 1], arrivals[|arrivals| - 1];
      assert arrivals == init + [last];
      NothingSpillsFirst(shop, shelf.list, arrivals, inside);
      KindsKept(shop, shelf, init, inside);
      SurplusThere(shop, shelf, init, inside, last);
      KindsOfOneMore(shop, shelf.list, init, last, ShelveAll(shop, shelf, init, inside).list,
                     if last in inside then inside[last] else []);
    }
  }

  lemma KindsAtFirst(list: seq<Object>)
    ensures SameKinds(list, [], list)
  {
    forall x | x in list ensures HasSame(list, x) {
      SameIsEquivalence(x, x, x);
    }
  }

  /** While nothing has spilt, what is one too many on the shelf is so by what stood and came. */
  lemma SurplusThere(shop: Shop, shelf: Shelf, init: seq<Object>, inside: map<Object, seq<Object>>, o: Object)
    requires SameKinds(shelf.list, init, ShelveAll(shop, shelf, init, inside).list)
    ensures Surplus(shop, ShelveAll(shop, shelf, init, inside).list, o) <==> Surplus(shop, shelf.list + init, o)
  {
    hide HasSame, Produces, ShelveAll;
    SameStocked(shop, shelf.list, init, ShelveAll(shop, shelf, init, inside).list, o);
  }

  /** Nothing is spilt exactly when no arrival that is one too many holds anything. */
  lemma {:induction false} SpiltIs(shop: Shop, shelf: Shelf, arrivals: seq<Object>, inside: map<Object, seq<Object>>)
    ensures Spilt(shop, shelf, arrivals, inside) == 0 <==> NothingSpills(shop, shelf.list, arrivals, inside)
  {
    hide Surplus, ShelveAll, SameKinds, NothingSpills;
    if arrivals == [] {
      NoArrivals(shop, shelf.list, inside);
    } else {
      var init, last := arrivals[..|arrivals| - 1], arrivals[|arrivals| - 1];
      NothingSpillsFirst(shop, shelf.list, arrivals, inside);
      SpiltIs(shop, shelf, init, inside);
      if Spilt(shop, shelf, init, inside) == 0 {
        KindsKept(shop, shelf, init, inside);
        SurplusThere(shop, shelf, init, inside, last);
      }
    }
  }

  lemma NoArrivals(shop: Shop, list: seq<Object>, inside: map<Object, seq<Object>>)
    ensures NothingSpills(shop, list, [], inside)
  {
  }

  /** Shelving one more thing, given what it does to the list's members. */
  lemma ShelveSorted(shop: Shop, mid: seq<Object>, o: Object)
    requires Grouped(mid) && NoDup(mid) && o !in mid
    ensures var end := Shelve(shop, mid, o, []);
      && Grouped(end) && NoDup(end)
      && (forall x :: x in end <==> x in mid || (x == o && !Surplus(shop, mid, o)))
      && HasSame(end, o)
  {
    SameIsEquivalence(o, o, o);
    if !Produces(shop, o) {
      SlideElements(mid, o);
      SlideKeepsGrouped(mid, o);
      assert o in Slide(mid, o);
    } else if HasSame(mid, o) {
      assert Reverse([]) + mid == mid;
    } else {
      assert FirstSame(mid, o) == |mid|;
      HeadKeepsGrouped(mid, o);
      assert ([o] + mid)[0] == o;
      forall i, j | 0 <= i < j < |mid| + 1 ensures ([o] + mid)[i] != ([o] + mid)[j] {
        assert mid[j - 1] in mid;
      }
    }
  }

  lemma {:induction false} ShelvesSorted(shop: Shop, shelf: Shelf, arrivals: seq<Object>, inside: map<Object, seq<Object>>)
    requires Grouped(shelf.list) && NoDup(shelf.list + arrivals)
    requires NothingSpills(shop, shelf.list, arrivals, inside)
    ensures Sorted(shop, shelf.list, arrivals, ShelveAll(shop, shelf, arrivals, inside).list)
  {
    hide Grouped, SameObject, Surplus, Produces, NothingSpills;
    var list := shelf.list;
    if arrivals == [] {
      assert list + arrivals == list;
      forall x | x in list ensures HasSame(list, x) {
        SameIsEquivalence(x, x, x);
      }
    } else {
      var init, last := arrivals[..|arrivals| - 1], arrivals[|arrivals| - 1];
      assert arrivals == init + [last];
      assert list + arrivals == (list + init) + [last];
      assert NoDup(list + init) && last !in list + init by {
        assert list + init == (list + arrivals)[..|list| + |init|];
      }
      NothingSpillsFirst(shop, list, arrivals, inside);
      ShelvesSorted(shop, shelf, init, inside);
      var mid := ShelveAll(shop, shelf, init, inside).list;
      assert last !in mid;
      ShelveSorted(shop, mid, last);
      SortedStep(shop, list, init, last, mid, Shelve(shop, mid, last, []));
      SurplusThere(shop, shelf, init, inside, last);
      NothingInside(shop, mid, last, if last in inside then inside[last] else []);
    }
  }

  /** A second copy of something made here goes; what it held stands in front, and is not counted. */
  lemma FullCopyShelved(shop: Shop, copy: Object, stocked: Object, held: Object, inside: map<Object, seq<Object>>)
    requires Produces(shop, copy) && SameObject(stocked, copy) && copy in inside && inside[copy] == [held]
    ensures ShelveAll(shop, Shelf([stocked], 1), [copy], inside) == Shelf([held, stocked], 1)
  {
    hide Produces, SameObject;
    assert [copy][..0] == [] && stocked in [stocked];
    assert Reverse([held]) == [held];
    assert [held] + [stocked] == [held, stocked];
  }

  lemma NothingInside(shop: Shop, list: seq<Object>, o: Object, inside: seq<Object>)
    requires Surplus(shop, list, o) ==> inside == []
    ensures Shelve(shop, list, o, inside) == Shelve(shop, list, o, [])
  {
  }

  lemma SortedStep(shop: Shop, list: seq<Object>, init: seq<Object>, last: Object, mid: seq<Object>, end: seq<Object>)
    requires Sorted(shop, list, init, mid) && last !in list + init
    requires Grouped(end) && NoDup(end) && HasSame(end, last)
    requires forall x :: x in end <==> x in mid || (x == last && !Surplus(shop, mid, last))
    ensures Sorted(shop, list, init + [last], end)
  {
    var arrivals := init + [last];
    SameStocked(shop, list, init, mid, last);
    assert arrivals[..|init|] == init;
    forall i | 0 <= i < |arrivals| ensures arrivals[i] in end <==> Kept(shop, list, arrivals, i) {
      if i < |init| {
        assert arrivals[..i] == init[..i] && arrivals[i] == init[i];
        assert init[i] in list + init;
        assert Kept(shop, list, arrivals, i) <==> Kept(shop, list, init, i);
      } else {
        assert last !in mid;
      }
    }
    forall x | x in list + arrivals ensures HasSame(end, x) {
      if x != last {
        assert x in list + init;
        var y :| y in mid && SameObject(y, x);
        assert y in end;
      }
    }
  }
}
