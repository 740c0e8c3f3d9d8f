/** A keeper's stock over time. Only the last of the list is known to be grouped, as many as have been
    counted: what keeps that so, trade by trade, and what does not. */
module ShopTrading {
  import opened ObjectGraph
  import opened ShopStock

  /** How many of the list, at its head, have not been sorted. */
  function Unsorted(shelf: Shelf): (n: nat)
    ensures n <= |shelf.list|
  {
    if shelf.sorted >= |shelf.list| then 0 else if shelf.sorted < 0 then |shelf.list| else |shelf.list| - shelf.sorted
  }

  /** The part that has been. */
  function Counted(shelf: Shelf): seq<Object> {
    shelf.list[Unsorted(shelf)..]
  }

  ghost predicate InOrder(shelf: Shelf) {
    shelf.sorted >= 0 && Grouped(Counted(shelf))
  }

  /** What may stand just before a grouped list and leave it grouped. */
  predicate Heads(x: Object, list: seq<Object>) {
    !HasSame(list, x) || SameObject(list[0], x)
  }

  /** Whether something not made here leaves the counted part in order: nothing stands before that,
      or the first of its kind stands in it, or what ends up just before it may stand there. */
  predicate SlidesWell(shelf: Shelf, o: Object) {
    var n, i := Unsorted(shelf), FirstSame(shelf.list, o);
    n == 0 || n <= i < |shelf.list| || Heads(if i == n - 1 then o else shelf.list[n - 1], Counted(shelf))
  }

  /** The same of one arrival, made here or not. */
  predicate ShelvesWell(shop: Shop, shelf: Shelf, o: Object) {
    var n := Unsorted(shelf);
    if !Produces(shop, o) then SlidesWell(shelf, o)
    else HasSame(shelf.list, o) || n == 0 || Heads(shelf.list[n - 1], Counted(shelf))
  }

  // ----- one thing in front, or one less ----------------------------------

  lemma HeadGrouped(x: Object, list: seq<Object>)
    requires Grouped(list)
    ensures Grouped([x] + list) <==> Heads(x, list)
  {
    hide SameObject;
    var s := [x] + list;
    if HasSame(list, x) {
      var y :| y in list && SameObject(y, x);
      var k :| 0 <= k < |list| && list[k] == y;
      SameIsEquivalence(y, x, y);
      if Grouped(s) {
        assert s[0] == x && s[1] == list[0] && s[k + 1] == y;
        GroupedAt(s, 0, 1, k + 1);
        SameIsEquivalence(x, list[0], x);
      }
      if SameObject(list[0], x) {
        LikeHead(x, list);
      }
    } else {
      assert FirstSame(list, x) == |list|;
      HeadKeepsGrouped(list, x);
    }
  }

  lemma LikeHead(x: Object, list: seq<Object>)
    requires Grouped(list) && list != [] && SameObject(list[0], x)
    ensures Grouped([x] + list)
  {
    hide SameObject, Grouped;
    var s := [x] + list;
    SameIsEquivalence(list[0], x, x);
    forall i, j, k | 0 <= i < j < k < |s| && SameObject(s[i], s[k]) ensures SameObject(s[i], s[j]) {
      var a := if i == 0 then 0 else i - 1;
      assert s[j] == list[j - 1] && s[k] == list[k - 1];
      if i == 0 { SameThrough(list[0], x, list[k - 1]); }
      GroupedAt(list, a, j - 1, k - 1);
      if i == 0 { SameThrough(x, list[0], list[j - 1]); }
    }
    GroupedIs(s);
  }

  lemma GroupedIs(s: seq<Object>)
    requires forall i, j, k | 0 <= i < j < k < |s| && SameObject(s[i], s[k]) :: SameObject(s[i], s[j])
    ensures Grouped(s)
  {
  }

  /** With one thing fewer a grouped list is still grouped. */
  lemma OneFewer(list: seq<Object>, n: nat)
    requires Grouped(list) && n < |list|
    ensures Grouped(list[..n] + list[n + 1..])
  {
    hide SameObject, Grouped;
    var s := list[..n] + list[n + 1..];
    forall i, j, k | 0 <= i < j < k < |s| && SameObject(s[i], s[k]) ensures SameObject(s[i], s[j]) {
      var a, b, c := if i < n then i else i + 1, if j < n then j else j + 1, if k < n then k else k + 1;
      assert s[i] == list[a] && s[j] == list[b] && s[k] == list[c];
      GroupedAt(list, a, b, c);
    }
    GroupedIs(s);
  }

  lemma HeadOff(x: Object, list: seq<Object>)
    requires Grouped([x] + list)
    ensures Grouped(list)
  {
    OneFewer([x] + list, 0);
    assert ([x] + list)[..0] + ([x] + list)[0 + 1..] == list;
  }

  lemma SlideOff(list: seq<Object>, o: Object)
    requires Grouped(Slide(list, o))
    ensures Grouped(list)
  {
    hide Grouped;
    var i, s := FirstSame(list, o), Slide(list, o);
    var n := if i < |list| then i + 1 else 0;
    OneFewer(s, n);
    assert s[..n] + s[n + 1..] == list;
  }

  // ----- a sale -----------------------------------------------------------

  lemma {:induction false} FirstSameFrom(list: seq<Object>, o: Object, n: nat)
    requires n <= |list| && FirstSame(list, o) >= n
    ensures FirstSame(list[n..], o) == FirstSame(list, o) - n
  {
    if n == 0 {
      assert list[0..] == list;
    } else {
      FirstSameFrom(list[1..], o, n - 1);
      assert list[1..][n - 1..] == list[n..];
    }
  }

  /** The end of a list after something has been slid into it. */
  lemma SlideEnd(list: seq<Object>, o: Object, n: nat)
    requires n <= |list|
    ensures var i, s := FirstSame(list, o), list[n..];
      Slide(list, o)[n..] ==
      if n == 0 || n <= i < |list| then Slide(s, o) else [if i == n - 1 then o else list[n - 1]] + s
  {
    hide *;
    var i := FirstSame(list, o);
    SlideCases(list, o);
    if n == 0 {
      FromStart(list);
      FromStart(Slide(list, o));
    } else if n <= i < |list| {
      FirstSameFrom(list, o, n);
      SlideCases(list[n..], o);
      EndSpliced(list, o, i, n);
    } else if i == |list| {
      EndOfMore(list, o, n);
    } else {
      EndShifted(list, o, i, n);
    }
  }

  lemma SlideCases(list: seq<Object>, o: Object)
    ensures var i := FirstSame(list, o);
      Slide(list, o) == if i < |list| then list[..i + 1] + [o] + list[i + 1..] else [o] + list
  {
    hide SameObject;
  }

  lemma FromStart(list: seq<Object>)
    ensures list[0..] == list
  {
  }

  lemma EndOfMore(list: seq<Object>, o: Object, n: nat)
    requires 0 < n <= |list|
    ensures ([o] + list)[n..] == [list[n - 1]] + list[n..]
  {
  }

  lemma EndSpliced(list: seq<Object>, o: Object, i: nat, n: nat)
    requires n <= i < |list|
    ensures (list[..i + 1] + [o] + list[i + 1..])[n..] ==
            list[n..][..i - n + 1] + [o] + list[n..][i - n + 1..]
  {
  }

  lemma EndShifted(list: seq<Object>, o: Object, i: nat, n: nat)
    requires i < n <= |list|
    ensures (list[..i + 1] + [o] + list[i + 1..])[n..] == [if i == n - 1 then o else list[n - 1]] + list[n..]
  {
  }

  /** Sliding something in front of which things stand unsorted: the counted part is in order exactly
      when it slides well. */
  lemma SlidExactly(shelf: Shelf, o: Object)
    requires InOrder(shelf)
    ensures InOrder(Shelf(Slide(shelf.list, o), shelf.sorted + 1)) <==> SlidesWell(shelf, o)
  {
    hide Grouped, SameObject, Slide, HasSame, Heads;
    var list, n := shelf.list, Unsorted(shelf);
    var i := FirstSame(list, o);
    SlideIs(list, o);
    SlideEnd(list, o, n);
    if n == 0 || n <= i < |list| {
      SlideKeepsGrouped(list[n..], o);
    } else {
      HeadGrouped(if i == n - 1 then o else list[n - 1], list[n..]);
    }
  }

  lemma SlidBack(shelf: Shelf, o: Object)
    requires shelf.sorted >= 0 && InOrder(Shelf(Slide(shelf.list, o), shelf.sorted + 1))
    ensures InOrder(shelf)
  {
    hide Grouped, SameObject, Slide, HasSame;
    var list, n := shelf.list, Unsorted(shelf);
    var i := FirstSame(list, o);
    SlideIs(list, o);
    SlideEnd(list, o, n);
    if n == 0 || n <= i < |list| {
      SlideOff(list[n..], o);
    } else {
      HeadOff(if i == n - 1 then o else list[n - 1], list[n..]);
    }
  }

  // ----- a delivery -------------------------------------------------------

  /** Every arrival, one after another, shelves well where it finds the shelf. */
  predicate AllShelveWell(shop: Shop, shelf: Shelf, arrivals: seq<Object>, inside: map<Object, seq<Object>>) {
    if arrivals == [] then true
    else
      var init, last := arrivals[..|arrivals| - 1], arrivals[|arrivals| - 1];
      AllShelveWell(shop, shelf, init, inside) && ShelvesWell(shop, ShelveAll(shop, shelf, init, inside), last)
  }

  lemma ShelvedCount(shop: Shop, shelf: Shelf, o: Object, inside: map<Object, seq<Object>>)
    requires 0 <= shelf.sorted <= |shelf.list|
    ensures var t := ShelveOne(shop, shelf, o, inside); 0 <= t.sorted <= |t.list|
  {
    SlideElements(shelf.list, o);
  }

  /** A shelf with more in front is in order when it was. */
  lemma MoreInFront(front: seq<Object>, shelf: Shelf)
    requires 0 <= shelf.sorted <= |shelf.list|
    ensures InOrder(Shelf(front + shelf.list, shelf.sorted)) <==> InOrder(shelf)
  {
    hide Grouped;
    assert (front + shelf.list)[|front| + Unsorted(shelf)..] == Counted(shelf);
  }

  /** One more counted, and one more in front. */
  lemma OneMoreCounted(o: Object, shelf: Shelf)
    requires 0 <= shelf.sorted <= |shelf.list|
    ensures var n := Unsorted(shelf);
      Counted(Shelf([o] + shelf.list, shelf.sorted + 1)) == [if n == 0 then o else shelf.list[n - 1]] + Counted(shelf)
  {
  }

  lemma ShelvedExactly(shop: Shop, shelf: Shelf, o: Object, inside: map<Object, seq<Object>>)
    requires 0 <= shelf.sorted <= |shelf.list|
    ensures InOrder(ShelveOne(shop, shelf, o, inside)) <==> InOrder(shelf) && ShelvesWell(shop, shelf, o)
  {
    hide Grouped, SameObject, Slide, Reverse, Produces, SlidesWell, InOrder, Heads, HasSame;
    if !Produces(shop, o) {
      if InOrder(shelf) { SlidExactly(shelf, o); }
      if InOrder(ShelveOne(shop, shelf, o, inside)) { SlidBack(shelf, o); }
    } else if HasSame(shelf.list, o) {
      MoreInFront(Reverse(if o in inside then inside[o] else []), shelf);
    } else {
      NewExactly(shelf, o);
    }
  }

  lemma NewExactly(shelf: Shelf, o: Object)
    requires 0 <= shelf.sorted <= |shelf.list| && !HasSame(shelf.list, o)
    ensures var n := Unsorted(shelf);
      InOrder(Shelf([o] + shelf.list, shelf.sorted + 1)) <==>
      InOrder(shelf) && (n == 0 || Heads(shelf.list[n - 1], Counted(shelf)))
  {
    hide Grouped, SameObject, HasSame;
    var n := Unsorted(shelf);
    var x := if n == 0 then o else shelf.list[n - 1];
    OneMoreCounted(o, shelf);
    if InOrder(shelf) { HeadGrouped(x, Counted(shelf)); }
    if Grouped([x] + Counted(shelf)) { HeadOff(x, Counted(shelf)); }
    if n == 0 { assert Counted(shelf) == shelf.list; }
  }

  /** A delivery leaves the counted part in order exactly when every arrival shelves well. */
  lemma {:induction false} DeliveredExactly(shop: Shop, shelf: Shelf, arrivals: seq<Object>, inside: map<Object, seq<Object>>)
    requires 0 <= shelf.sorted <= |shelf.list| && InOrder(shelf)
    ensures var end := ShelveAll(shop, shelf, arrivals, inside);
      0 <= end.sorted <= |end.list| && (InOrder(end) <==> AllShelveWell(shop, shelf, arrivals, inside))
  {
    hide InOrder, ShelveOne, ShelvesWell;
    if arrivals != [] {
      var init, last := arrivals[..|arrivals| - 1], arrivals[|arrivals| - 1];
      DeliveredExactly(shop, shelf, init, inside);
      var mid := ShelveAll(shop, shelf, init, inside);
      ShelvedCount(shop, mid, last, inside);
      ShelvedExactly(shop, mid, last, inside);
    }
  }

  /** When everything is counted and nothing spills, everything shelves well. */
  lemma {:induction false} NothingSpiltShelvesWell(shop: Shop, shelf: Shelf, arrivals: seq<Object>, inside: map<Object, seq<Object>>)
    requires shelf.sorted == |shelf.list| && NothingSpills(shop, shelf.list, arrivals, inside)
    ensures AllShelveWell(shop, shelf, arrivals, inside)
  {
    hide NothingSpills, Surplus, ShelveAll;
    if arrivals != [] {
      var init := arrivals[..|arrivals| - 1];
      NothingSpillsFirst(shop, shelf.list, arrivals, inside);
      NothingSpiltShelvesWell(shop, shelf, init, inside);
      SpiltIs(shop, shelf, init, inside);
      CountTrailsList(shop, shelf, init, inside);
    }
  }

  // ----- what happens to a stock ------------------------------------------

  /** Something handed to the keeper; something sold, out of a customer's hands; something bought;
      something gone by another way; a sort, with what each of the list holds; the count reset. */
  datatype Trade =
    | Given(o: Object)
    | Sold(o: Object)
    | Bought(i: nat)
    | Gone(i: nat)
    | SortedOut(inside: map<Object, seq<Object>>)
    | Unsettled

  function LessOne(list: seq<Object>, i: nat): seq<Object> {
    if i < |list| then list[..i] + list[i + 1..] else list
  }

  function Do(shop: Shop, shelf: Shelf, t: Trade): Shelf {
    match t
    case Given(o) => shelf.(list := [o] + shelf.list)
    case Sold(o) => if Produces(shop, o) then shelf else Shelf(Slide(shelf.list, o), shelf.sorted + 1)
    case Bought(i) =>
      if i < |shelf.list| then Shelf(LessOne(shelf.list, i), if shelf.sorted > 0 then shelf.sorted - 1 else shelf.sorted)
      else shelf
    case Gone(i) => shelf.(list := LessOne(shelf.list, i))
    case SortedOut(inside) =>
      if 0 <= shelf.sorted < |shelf.list| then
        ShelveAll(shop, Shelf(Stocked(shelf.list, shelf.sorted), shelf.sorted), Arrivals(shelf.list, shelf.sorted), inside)
      else shelf
    case Unsettled => shelf.(sorted := 0)
  }

  /** The guard of each trade: what it must find for the counted part to stay in order. */
  predicate Safe(shop: Shop, shelf: Shelf, t: Trade) {
    var n, list := Unsorted(shelf), shelf.list;
    match t
    case Given(o) => shelf.sorted <= |list| || Heads(o, list)
    case Sold(o) => Produces(shop, o) || SlidesWell(shelf, o)
    case Bought(_) => true
    case Gone(i) => n == 0 || i < n || i >= |list| || Heads(list[n - 1], LessOne(list[n..], i - n))
    case SortedOut(inside) =>
      0 <= shelf.sorted < |list| ==>
        AllShelveWell(shop, Shelf(Stocked(list, shelf.sorted), shelf.sorted), Arrivals(list, shelf.sorted), inside)
    case Unsettled => true
  }

  lemma GivenExactly(shelf: Shelf, o: Object)
    requires InOrder(shelf)
    ensures InOrder(shelf.(list := [o] + shelf.list)) <==> shelf.sorted <= |shelf.list| || Heads(o, shelf.list)
  {
    hide Grouped, Heads, InOrder;
    if shelf.sorted <= |shelf.list| {
      NotBelow(shelf);
      MoreInFront([o], shelf);
    } else {
      AllCounted(shelf);
      AllCounted(shelf.(list := [o] + shelf.list));
      HeadGrouped(o, shelf.list);
    }
  }

  lemma NotBelow(shelf: Shelf)
    requires InOrder(shelf)
    ensures shelf.sorted >= 0
  {
    hide Grouped;
  }

  lemma AllCounted(shelf: Shelf)
    requires shelf.sorted >= |shelf.list|
    ensures InOrder(shelf) <==> Grouped(shelf.list)
  {
    hide Grouped;
    FromStart(shelf.list);
  }

  lemma BoughtSafely(shelf: Shelf, i: nat)
    requires InOrder(shelf) && i < |shelf.list|
    ensures InOrder(Shelf(LessOne(shelf.list, i), if shelf.sorted > 0 then shelf.sorted - 1 else shelf.sorted))
  {
    hide Grouped;
    var n, list := Unsorted(shelf), shelf.list;
    var t := Shelf(LessOne(list, i), if shelf.sorted > 0 then shelf.sorted - 1 else shelf.sorted);
    if shelf.sorted == 0 {
      assert Counted(t) == [];
      NoneGrouped();
    } else if i < n {
      OneFewer(list[n..], 0);
      assert Counted(t) == list[n + 1..] == list[n..][..0] + list[n..][0 + 1..];
    } else {
      OneFewer(list[n..], i - n);
      assert Counted(t) == list[n..][..i - n] + list[n..][i - n + 1..];
    }
  }

  lemma NoneGrouped()
    ensures Grouped([])
  {
  }

  lemma GoneExactly(shelf: Shelf, i: nat)
    requires InOrder(shelf)
    ensures var n := Unsorted(shelf);
      InOrder(shelf.(list := LessOne(shelf.list, i))) <==>
      n == 0 || i < n || i >= |shelf.list| || Heads(shelf.list[n - 1], LessOne(shelf.list[n..], i - n))
  {
    hide Grouped, Heads;
    var n, list := Unsorted(shelf), shelf.list;
    var t := shelf.(list := LessOne(list, i));
    if i >= |list| {
    } else if i < n {
      assert Counted(t) == list[n..];
    } else {
      OneFewer(list[n..], i - n);
      assert LessOne(list[n..], i - n) == list[n..][..i - n] + list[n..][i - n + 1..];
      if n == 0 {
        assert Counted(t) == LessOne(list[0..], i) && list[0..] == list;
      } else {
        assert Counted(t) == [list[n - 1]] + LessOne(list[n..], i - n);
        HeadGrouped(list[n - 1], LessOne(list[n..], i - n));
      }
    }
  }

  lemma SortedOutExactly(shop: Shop, shelf: Shelf, inside: map<Object, seq<Object>>)
    requires InOrder(shelf) && shelf.sorted < |shelf.list|
    ensures var stock := Shelf(Stocked(shelf.list, shelf.sorted), shelf.sorted);
      var arrivals := Arrivals(shelf.list, shelf.sorted);
      InOrder(ShelveAll(shop, stock, arrivals, inside)) <==> AllShelveWell(shop, stock, arrivals, inside)
  {
    hide *;
    NotBelow(shelf);
    var stock := Shelf(Stocked(shelf.list, shelf.sorted), shelf.sorted);
    StockInOrder(shelf);
    DeliveredExactly(shop, stock, Arrivals(shelf.list, shelf.sorted), inside);
  }

  lemma StockInOrder(shelf: Shelf)
    requires InOrder(shelf) && shelf.sorted < |shelf.list|
    ensures 0 <= shelf.sorted <= |Stocked(shelf.list, shelf.sorted)|
    ensures InOrder(Shelf(Stocked(shelf.list, shelf.sorted), shelf.sorted))
  {
    hide Grouped;
    FromStart(Stocked(shelf.list, shelf.sorted));
  }

  /** From a stock in order, one trade leaves it in order exactly when its guard holds. */
  lemma DoExactly(shop: Shop, shelf: Shelf, t: Trade)
    requires InOrder(shelf)
    ensures InOrder(Do(shop, shelf, t)) <==> Safe(shop, shelf, t)
  {
    hide Grouped, Heads, SlidesWell, Produces, Slide, LessOne, ShelveAll, AllShelveWell, Arrivals, Stocked;
    match t
    case Given(o) => GivenExactly(shelf, o);
    case Sold(o) => if !Produces(shop, o) { SlidExactly(shelf, o); }
    case Bought(i) => if i < |shelf.list| { BoughtSafely(shelf, i); }
    case Gone(i) => GoneExactly(shelf, i);
    case SortedOut(inside) => if shelf.sorted < |shelf.list| { SortedOutExactly(shop, shelf, inside); }
    case Unsettled =>
      assert Counted(shelf.(sorted := 0)) == [];
      NoneGrouped();
  }

  function After(shop: Shop, shelf: Shelf, trades: seq<Trade>): Shelf {
    if trades == [] then shelf else Do(shop, After(shop, shelf, trades[..|trades| - 1]), trades[|trades| - 1])
  }

  /** In order before, between and after all of the trades. */
  ghost predicate AlwaysInOrder(shop: Shop, shelf: Shelf, trades: seq<Trade>) {
    forall k | 0 <= k <= |trades| :: InOrder(After(shop, shelf, trades[..k]))
  }

  /** Each of the trades finds its guard true. */
  ghost predicate AlwaysSafe(shop: Shop, shelf: Shelf, trades: seq<Trade>) {
    forall k | 0 <= k < |trades| :: Safe(shop, After(shop, shelf, trades[..k]), trades[k])
  }

  lemma AlwaysBefore(shop: Shop, shelf: Shelf, trades: seq<Trade>)
    requires trades != []
    ensures var init := trades[..|trades| - 1];
      && (AlwaysInOrder(shop, shelf, trades) <==> AlwaysInOrder(shop, shelf, init) && InOrder(After(shop, shelf, trades)))
      && (AlwaysInOrder(shop, shelf, init) ==> InOrder(After(shop, shelf, init)))
      && (AlwaysSafe(shop, shelf, trades) <==>
          AlwaysSafe(shop, shelf, init) && Safe(shop, After(shop, shelf, init), trades[|trades| - 1]))
  {
    hide InOrder, Safe, After;
    var init := trades[..|trades| - 1];
    assert trades[..|trades|] == trades && init[..|init|] == init;
    assert forall k | 0 <= k <= |init| :: init[..k] == trades[..k];
    assert forall k | 0 <= k < |init| :: init[k] == trades[k];
  }

  /** A stock is in order all along a run of trades exactly when each finds its guard true. */
  lemma {:induction false} RunExactly(shop: Shop, shelf: Shelf, trades: seq<Trade>)
    requires InOrder(shelf)
    ensures AlwaysInOrder(shop, shelf, trades) <==> AlwaysSafe(shop, shelf, trades)
  {
    hide InOrder, Safe, Do, AlwaysInOrder, AlwaysSafe;
    if trades == [] {
      NoTrades(shop, shelf);
    } else {
      var init, last := trades[..|trades| - 1], trades[|trades| - 1];
      RunExactly(shop, shelf, init);
      AlwaysBefore(shop, shelf, trades);
      if InOrder(After(shop, shelf, init)) { DoExactly(shop, After(shop, shelf, init), last); }
    }
  }

  lemma NoTrades(shop: Shop, shelf: Shelf)
    requires InOrder(shelf)
    ensures AlwaysInOrder(shop, shelf, []) && AlwaysSafe(shop, shelf, [])
  {
    var none: seq<Trade> := [];
    assert none[..0] == none;
  }

  /** Trades that need no luck: sales and losses while nothing stands unsorted, gifts while no more is
      counted than there is, sorts that spill nothing. */
  ghost predicate Calm(shop: Shop, shelf: Shelf, t: Trade) {
    match t
    case Given(_) => shelf.sorted <= |shelf.list|
    case Sold(_) => shelf.sorted >= |shelf.list|
    case Gone(_) => shelf.sorted >= |shelf.list|
    case SortedOut(inside) =>
      0 <= shelf.sorted < |shelf.list| ==>
        NothingSpills(shop, Stocked(shelf.list, shelf.sorted), Arrivals(shelf.list, shelf.sorted), inside)
    case _ => true
  }

  lemma CalmIsSafe(shop: Shop, shelf: Shelf, t: Trade)
    requires shelf.sorted >= 0 && Calm(shop, shelf, t)
    ensures Safe(shop, shelf, t)
  {
    if t.SortedOut? && shelf.sorted < |shelf.list| {
      NothingSpiltShelvesWell(shop, Shelf(Stocked(shelf.list, shelf.sorted), shelf.sorted), Arrivals(shelf.list, shelf.sorted),
                              t.inside);
    }
  }
}
