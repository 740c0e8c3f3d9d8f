/** TotalWeight and CarriedWeight: the recursion over contents ends, and counts everything an
    object encloses exactly once. */
module Weight {
  import opened ObjectGraph
  import opened Options
  import opened Int32s
  import opened Carry
  import opened Belongings

  /** What an object encloses, itself included. */
  ghost function Enclosed(s: State, o: Object): set<Object> {
    set x | x in s.place && Encloses(s.place, o, x)
  }

  ghost function EnclosedByAny(s: State, kids: seq<Object>): set<Object> {
    set x, k | k in kids && x in Enclosed(s, k) :: x
  }

  /** The sum of the weights of a set of objects. */
  ghost function SumOf(weights: map<Object, int>, xs: set<Object>): int {
    if xs == {} then 0
    else
      var x :| x in xs;
      (if x in weights then weights[x] else 0) + SumOf(weights, xs - {x})
  }

  lemma {:induction false} SumWith(weights: map<Object, int>, xs: set<Object>, x: Object)
    requires x in xs
    ensures SumOf(weights, xs) == (if x in weights then weights[x] else 0) + SumOf(weights, xs - {x})
    decreases |xs|
  {
    var y :| y in xs && SumOf(weights, xs) == (if y in weights then weights[y] else 0) + SumOf(weights, xs - {y});
    if y != x {
      SumWith(weights, xs - {y}, x);
      SumWith(weights, xs - {x}, y);
      assert xs - {y} - {x} == xs - {x} - {y};
    }
  }

  lemma {:induction false} SumDisjoint(weights: map<Object, int>, a: set<Object>, b: set<Object>)
    requires a !! b
    ensures SumOf(weights, a + b) == SumOf(weights, a) + SumOf(weights, b)
    decreases |a|
  {
    if a == {} {
      assert a + b == b;
    } else {
      var x :| x in a;
      SumDisjoint(weights, a - {x}, b);
      SumWith(weights, a, x);
      SumWith(weights, a + b, x);
      assert a + b - {x} == (a - {x}) + b;
    }
  }

  /** Going up n + m steps is going up n, then m. */
  lemma {:induction false} AroundAdds(place: map<Object, Placement>, o: Object, n: nat, x: Object, m: nat)
    requires Around(place, o, n) == Some(x)
    ensures Around(place, o, n + m) == Around(place, x, m)
  {
    if m > 0 {
      AroundAdds(place, o, n, x, m - 1);
    }
  }

  lemma UpIsOut(s: State)
    requires Inv(s)
    ensures Acyclic(s.place) && Closed(s)
  {
  }

  /** Two things directly in the same container enclose nothing in common. */
  lemma SiblingsDisjoint(s: State, o: Object, a: Object, b: Object)
    requires Inv(s) && o in s.place && a in s.place && b in s.place && a != b
    requires s.place[a] == InContainer(o) && s.place[b] == InContainer(o)
    ensures Enclosed(s, a) !! Enclosed(s, b)
  {
    hide Inv, Closed, Acyclic, Around;
    UpIsOut(s);
    if x :| x in Enclosed(s, a) && x in Enclosed(s, b) {
      var n: nat :| Around(s.place, x, n) == Some(a);
      var m: nat :| Around(s.place, x, m) == Some(b);
      if n < m {
        NotAbove(s, o, a, b, x, n, m);
      } else if m < n {
        NotAbove(s, o, b, a, x, m, n);
      }
    }
  }

  lemma NotAbove(s: State, o: Object, low: Object, high: Object, x: Object, n: nat, m: nat)
    requires Acyclic(s.place) && Closed(s) && o in s.place && low in s.place && high in s.place && n < m
    requires s.place[low] == InContainer(o) && s.place[high] == InContainer(o)
    requires Around(s.place, x, n) == Some(low)
    ensures Around(s.place, x, m) != Some(high)
  {
    if Around(s.place, x, m) == Some(high) {
      var rank :| Ranked(s.place, rank);
      AroundAdds(s.place, x, n, low, m - n);
      assert Around(s.place, low, 1) == Some(o) by {
        assert Around(s.place, low, 0) == Some(low);
      }
      AroundAdds(s.place, low, 1, o, m - n - 1);
      AroundRanksUp(s.place, rank, o, m - n - 1);
    }
  }

  lemma EnclosedBelow(s: State, o: Object, x: Object)
    requires Inv(s) && o in s.place
    ensures x in EnclosedByAny(s, At(s, InContainer(o))) ==> x in Enclosed(s, o)
    ensures x in Enclosed(s, o) && x != o ==> x in EnclosedByAny(s, At(s, InContainer(o)))
  {
    var kids := At(s, InContainer(o));
    if x in Enclosed(s, o) && x != o {
      var n: nat :| Around(s.place, x, n) == Some(o);
      var k := Around(s.place, x, n - 1).value;
      assert s.place[k] == InContainer(o);
      assert k in At(s, s.place[k]);
      assert x in Enclosed(s, k);
    }
    if k :| k in kids && x in Enclosed(s, k) {
      var n: nat :| Around(s.place, x, n) == Some(k);
      assert s.place[k] == InContainer(o);
      assert Around(s.place, x, n + 1) == Some(o);
    }
  }

  lemma NotEnclosedByContents(s: State, o: Object)
    requires Inv(s) && o in s.place
    ensures o !in EnclosedByAny(s, At(s, InContainer(o)))
  {
    if k :| k in At(s, InContainer(o)) && o in Enclosed(s, k) {
      OnePlaced(s, k, InContainer(o));
      var rank :| Ranked(s.place, rank);
      assert rank[k.id] < rank[o.id];
      var n: nat :| Around(s.place, o, n) == Some(k);
      AroundRanksUp(s.place, rank, o, n);
    }
  }

  /** An object encloses itself and what its contents enclose. */
  lemma EnclosedSplits(s: State, o: Object)
    requires Inv(s) && o in s.place
    ensures Enclosed(s, o) == {o} + EnclosedByAny(s, At(s, InContainer(o)))
    ensures o !in EnclosedByAny(s, At(s, InContainer(o)))
  {
    hide Inv;
    var below := EnclosedByAny(s, At(s, InContainer(o)));
    assert o in Enclosed(s, o) by {
      assert Around(s.place, o, 0) == Some(o);
    }
    forall x | x in below ensures x in Enclosed(s, o) {
      EnclosedBelow(s, o, x);
    }
    forall x | x in Enclosed(s, o) && x != o ensures x in below {
      EnclosedBelow(s, o, x);
    }
    NotEnclosedByContents(s, o);
  }

  lemma KidsDisjoint(s: State, o: Object, done: seq<Object>, next: Object)
    requires Inv(s) && o in s.place && done + [next] <= At(s, InContainer(o))
    ensures EnclosedByAny(s, done + [next]) == EnclosedByAny(s, done) + Enclosed(s, next)
    ensures EnclosedByAny(s, done) !! Enclosed(s, next)
  {
    hide Inv, Enclosed;
    forall x | x in EnclosedByAny(s, done) ensures x !in Enclosed(s, next) {
      var k :| k in done && x in Enclosed(s, k);
      KidsApart(s, o, done, next, k);
      SiblingsDisjoint(s, o, k, next);
    }
    forall x ensures x in EnclosedByAny(s, done + [next]) <==> x in EnclosedByAny(s, done) + Enclosed(s, next) {
      forall k ensures k in done + [next] <==> k in done || k == next {}
    }
  }

  lemma KidsApart(s: State, o: Object, done: seq<Object>, next: Object, k: Object)
    requires Inv(s) && done + [next] <= At(s, InContainer(o)) && k in done
    ensures k != next && k in s.place && next in s.place
    ensures s.place[k] == InContainer(o) && s.place[next] == InContainer(o)
  {
    var kids := At(s, InContainer(o));
    assert NoDup(kids) && next == kids[|done|] && done == kids[..|done|];
    assert k in kids && next in kids;
  }

  lemma NoneEnclosed(s: State, weights: map<Object, int>)
    ensures EnclosedByAny(s, []) == {} && SumOf(weights, {}) == 0
  {
  }

  /** The weights of everything there is. */
  ghost function Weights(l: Live): map<Object, int>
    reads l`Objs, l.Objs`weight
  {
    map o | o in l.Objs :: o.weight
  }

  lemma NextInside(s: State, rank: map<nat, nat>, weights: map<Object, int>, o: Object, kids: seq<Object>, i: nat)
    requires Inv(s) && Ranked(s.place, rank) && o in s.place && kids == At(s, InContainer(o)) && i < |kids|
    ensures kids[i] in s.place && kids[i].id in rank && o.id in rank && rank[kids[i].id] < rank[o.id]
    ensures SumOf(weights, EnclosedByAny(s, kids[..i + 1])) ==
            SumOf(weights, EnclosedByAny(s, kids[..i])) + SumOf(weights, Enclosed(s, kids[i]))
  {
    hide Inv, EnclosedByAny, Enclosed, SumOf;
    assert kids[i] in At(s, InContainer(o));
    OnePlaced(s, kids[i], InContainer(o));
    assert kids[..i] + [kids[i]] == kids[..i + 1] <= kids;
    KidsDisjoint(s, o, kids[..i], kids[i]);
    SumDisjoint(weights, EnclosedByAny(s, kids[..i]), Enclosed(s, kids[i]));
  }

  lemma OwnWeight(s: State, weights: map<Object, int>, o: Object)
    requires Inv(s) && o in s.place && o in weights
    ensures SumOf(weights, Enclosed(s, o)) == weights[o] + SumOf(weights, EnclosedByAny(s, At(s, InContainer(o))))
  {
    EnclosedSplits(s, o);
    SumWith(weights, Enclosed(s, o), o);
    assert Enclosed(s, o) - {o} == EnclosedByAny(s, At(s, InContainer(o)));
  }

  lemma OwnWeightSeen(l: Live, rank: map<nat, nat>, o: Object)
    requires l.Heap() && Inv(l.View()) && o in l.Objs && Ranked(l.View().place, rank)
    ensures o in l.View().place && At(l.View(), InContainer(o)) == o.contents
    ensures l.View().place.Keys == l.Objs
    ensures SumOf(Weights(l), Enclosed(l.View(), o)) == o.weight + SumOf(Weights(l), EnclosedByAny(l.View(), o.contents))
    ensures EnclosedByAny(l.View(), []) == {} && SumOf(Weights(l), {}) == 0
  {
    l.Sees();
    l.ContentsSeen(o);
    OwnWeight(l.View(), Weights(l), o);
    NoneEnclosed(l.View(), Weights(l));
  }

  /** The weight of everything the object encloses, itself included, each counted once. */
  method TotalWeight(l: Live, o: Object?, ghost rank: map<nat, nat>) returns (total: Int32)
    requires l.Heap() && Inv(l.View()) && (o != null ==> o in l.Objs) && Ranked(l.View().place, rank)
    ensures total == if o == null then 0 else Wrap(SumOf(Weights(l), Enclosed(l.View(), o)))
    decreases if o == null || o.id !in rank then 0 else rank[o.id] + 1
  {
    hide *;
    if o == null {
      return 0;
    }
    ghost var s, weights := l.View(), Weights(l);
    OwnWeightSeen(l, rank, o);
    total := o.weight;
    WrapSame(total);
    var contents := o.contents;
    assert contents[..0] == [];
    for i := 0 to |contents|
      invariant total == Wrap(o.weight + SumOf(weights, EnclosedByAny(s, contents[..i])))
    {
      NextInside(s, rank, weights, o, contents, i);
      var w := TotalWeight(l, contents[i], rank);
      WrapSum(o.weight + SumOf(weights, EnclosedByAny(s, contents[..i])), SumOf(weights, Enclosed(s, contents[i])));
      total := Wrap(total + w);
    }
    assert contents[..|contents|] == contents;
  }

  // ----- what a body carries ----------------------------------------------

  /** Two different things that are in no container enclose nothing in common. */
  lemma TopsDisjoint(s: State, a: Object, b: Object)
    requires a in s.place && b in s.place && a != b && !s.place[a].InContainer? && !s.place[b].InContainer?
    ensures Enclosed(s, a) !! Enclosed(s, b)
  {
    if x :| x in Enclosed(s, a) && x in Enclosed(s, b) {
      var n: nat :| Around(s.place, x, n) == Some(a);
      var m: nat :| Around(s.place, x, m) == Some(b);
      if n < m {
        TopIsLast(s, a, x, n, m);
      } else if m < n {
        TopIsLast(s, b, x, m, n);
      }
    }
  }

  lemma TopIsLast(s: State, a: Object, x: Object, n: nat, m: nat)
    requires a in s.place && !s.place[a].InContainer? && Around(s.place, x, n) == Some(a) && n < m
    ensures Around(s.place, x, m) == None
  {
    AroundAdds(s.place, x, n, a, m - n);
    assert Around(s.place, a, 0) == Some(a);
    assert Around(s.place, a, 1) == None;
    AroundStops(s.place, a, 1, m - n);
  }

  lemma NextTop(s: State, weights: map<Object, int>, done: seq<Object>, next: Object)
    requires forall k | k in done + [next] :: k in s.place && !s.place[k].InContainer?
    requires next !in done
    ensures SumOf(weights, EnclosedByAny(s, done + [next])) ==
            SumOf(weights, EnclosedByAny(s, done)) + SumOf(weights, Enclosed(s, next))
  {
    assert next in done + [next] && forall k | k in done :: k in done + [next];
    forall x | x in EnclosedByAny(s, done) ensures x !in Enclosed(s, next) {
      var k :| k in done && x in Enclosed(s, k);
      TopsDisjoint(s, k, next);
    }
    assert EnclosedByAny(s, done + [next]) == EnclosedByAny(s, done) + Enclosed(s, next) by {
      assert forall k :: k in done + [next] <==> k in done || k == next;
    }
    SumDisjoint(weights, EnclosedByAny(s, done), Enclosed(s, next));
  }

  /** Everything c carries, then everything c wears. */
  function Belonging(s: State, c: Character): seq<Object> {
    At(s, CarriedBy(c)) + WornList(s, c, NUM_WEARS)
  }

  lemma NextBelonging(s: State, weights: map<Object, int>, c: Character, i: nat)
    requires Inv(s) && i < |At(s, CarriedBy(c))|
    ensures var kids := At(s, CarriedBy(c));
      && kids[i] in s.place
      && SumOf(weights, EnclosedByAny(s, kids[..i + 1])) ==
         SumOf(weights, EnclosedByAny(s, kids[..i])) + SumOf(weights, Enclosed(s, kids[i]))
  {
    var kids := At(s, CarriedBy(c));
    hide EnclosedByAny, Enclosed, SumOf;
    CarriedExact(s, c);
    InvLinked(s);
    ListIsDistinct(s, CarriedBy(c));
    assert kids[..i] + [kids[i]] == kids[..i + 1];
    assert kids[i] in kids && forall k | k in kids[..i] :: k in kids;
    NextTop(s, weights, kids[..i], kids[i]);
  }

  lemma {:induction false} WornIsWorn(s: State, c: Character, n: nat, k: Object)
    requires Linked(s) && k in WornList(s, c, n)
    ensures k in s.place && s.place[k].WornBy?
  {
    if k !in At(s, WornBy(c, n - 1)) {
      WornIsWorn(s, c, n - 1, k);
    }
  }

  lemma DoneAreTops(s: State, c: Character, pos: nat)
    requires Inv(s)
    ensures forall k | k in At(s, CarriedBy(c)) + WornList(s, c, pos) :: k in s.place && !s.place[k].InContainer?
  {
    CarriedExact(s, c);
    InvLinked(s);
    hide Inv, WornList, Linked;
    forall k | k in At(s, CarriedBy(c)) + WornList(s, c, pos) ensures k in s.place && !s.place[k].InContainer? {
      if k !in At(s, CarriedBy(c)) {
        assert k in WornList(s, c, pos);
        WornIsWorn(s, c, pos, k);
      }
    }
  }

  lemma NextWorn(s: State, weights: map<Object, int>, c: Character, pos: nat)
    requires Inv(s) && pos < NUM_WEARS
    ensures var done, worn := At(s, CarriedBy(c)) + WornList(s, c, pos), At(s, WornBy(c, pos));
      && (worn != [] ==> worn[0] in s.place)
      && SumOf(weights, EnclosedByAny(s, At(s, CarriedBy(c)) + WornList(s, c, pos + 1))) ==
         SumOf(weights, EnclosedByAny(s, done)) + if worn == [] then 0 else SumOf(weights, Enclosed(s, worn[0]))
  {
    var done, worn := At(s, CarriedBy(c)) + WornList(s, c, pos), At(s, WornBy(c, pos));
    CarriedExact(s, c);
    WornListExact(s, c, pos);
    assert At(s, CarriedBy(c)) + WornList(s, c, pos + 1) == done + worn;
    DoneAreTops(s, c, pos);
    if worn == [] {
      assert done + worn == done;
    } else {
      OneInSlot(s, c, pos);
      assert worn[0] in worn;
      OnePlaced(s, worn[0], WornBy(c, pos));
      hide Inv, EnclosedByAny, Enclosed, SumOf, WornList;
      assert forall k | k in done + [worn[0]] :: k in done || k == worn[0];
      NextTop(s, weights, done, worn[0]);
    }
  }

  lemma BodyWeightSeen(l: Live, c: Character)
    requires l.Heap() && Inv(l.View()) && c in l.Chars
    ensures |c.equipment| == NUM_WEARS && l.View().place.Keys == l.Objs
    ensures At(l.View(), CarriedBy(c)) == c.carrying
    ensures forall pos | 0 <= pos < NUM_WEARS ::
              At(l.View(), WornBy(c, pos)) == if c.equipment[pos] == null then [] else [c.equipment[pos]]
    ensures EnclosedByAny(l.View(), []) == {} && SumOf(Weights(l), {}) == 0
    ensures c.carrying + WornList(l.View(), c, 0) == c.carrying
  {
    l.Sees();
    forall p ensures At(l.View(), p) == l.ListAt(p) { l.ListedAt(p); }
    NoneEnclosed(l.View(), Weights(l));
  }

  /** The weight of everything on the body and in it, each thing counted once. */
  method CarriedWeight(l: Live, c: Character, ghost rank: map<nat, nat>) returns (total: Int32)
    requires l.Heap() && Inv(l.View()) && c in l.Chars && Ranked(l.View().place, rank)
    ensures total == Wrap(SumOf(Weights(l), EnclosedByAny(l.View(), Belonging(l.View(), c))))
  {
    hide *;
    ghost var s, weights := l.View(), Weights(l);
    BodyWeightSeen(l, c);
    total := 0;
    WrapSame(total);
    var carrying := c.carrying;
    assert carrying[..0] == [];
    for i := 0 to |carrying|
      invariant total == Wrap(SumOf(weights, EnclosedByAny(s, carrying[..i])))
    {
      NextBelonging(s, weights, c, i);
      var w := TotalWeight(l, carrying[i], rank);
      WrapSum(SumOf(weights, EnclosedByAny(s, carrying[..i])), SumOf(weights, Enclosed(s, carrying[i])));
      total := Wrap(total + w);
    }
    assert carrying[..|carrying|] == carrying;
    for pos := 0 to NUM_WEARS
      invariant total == Wrap(SumOf(weights, EnclosedByAny(s, carrying + WornList(s, c, pos))))
    {
      NextWorn(s, weights, c, pos);
      var w := TotalWeight(l, c.equipment[pos], rank);
      WrapWorn(SumOf(weights, EnclosedByAny(s, carrying + WornList(s, c, pos))), weights, s, c.equipment[pos]);
      total := Wrap(total + w);
    }
    BelongingIs(s, c);
  }

  lemma WrapWorn(before: int, weights: map<Object, int>, s: State, o: Object?)
    ensures o == null ==> Wrap(Wrap(before) + 0) == Wrap(before)
    ensures o != null ==>
              Wrap(Wrap(before) + Wrap(SumOf(weights, Enclosed(s, o)))) == Wrap(before + SumOf(weights, Enclosed(s, o)))
  {
    hide SumOf, Enclosed;
    WrapOnce(before, 0);
    if o != null { WrapSum(before, SumOf(weights, Enclosed(s, o))); }
  }

  lemma BelongingIs(s: State, c: Character)
    ensures Belonging(s, c) == At(s, CarriedBy(c)) + WornList(s, c, NUM_WEARS)
  {
  }

  /** A new, empty object nowhere changes nothing about what others enclose. */
  lemma {:induction false} AroundUntouched(place: map<Object, Placement>, o: Object, x: Object, n: nat)
    requires o !in place
    ensures Around(place[o := Nowhere], x, n) == Around(place, x, n)
  {
    if n > 0 {
      AroundUntouched(place, o, x, n - 1);
    }
  }

  lemma {:induction false} SumSame(a: map<Object, int>, b: map<Object, int>, xs: set<Object>)
    requires forall x | x in xs :: x in a && x in b && a[x] == b[x]
    ensures SumOf(a, xs) == SumOf(b, xs)
    decreases |xs|
  {
    if xs != {} {
      var x :| x in xs;
      SumWith(a, xs, x);
      SumWith(b, xs, x);
      SumSame(a, b, xs - {x});
    }
  }

  lemma EnclosedUntouched(s: State, t: State, o: Object, kids: seq<Object>)
    requires o !in s.place && t.place == s.place[o := Nowhere] && o !in kids
    ensures EnclosedByAny(t, kids) == EnclosedByAny(s, kids)
  {
    forall k | k in kids ensures Enclosed(t, k) == Enclosed(s, k) {
      forall x, n: nat ensures Around(t.place, x, n) == Around(s.place, x, n) {
        AroundUntouched(s.place, o, x, n);
      }
      forall m: nat ensures Around(t.place, o, m) != Some(k) {
        assert Around(t.place, o, 0) == Some(o);
        if m > 0 {
          assert Around(t.place, o, 1) == None;
          AroundStops(t.place, o, 1, m);
        }
      }
    }
  }
}
