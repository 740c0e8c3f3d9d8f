/** Corpses rotting away: which go, and where what they held ends up, whatever the order the object
    table is walked in. */
module Decay {
  import opened ObjectGraph
  import opened Options
  import opened Extraction
  import opened Carry

  /** The graph after some objects have been extracted, one after another. */
  function DecayAll(s: State, due: seq<Object>): State {
    if due == [] then s else Extract(DecayAll(s, due[..|due| - 1]), due[|due| - 1])
  }

  ghost predicate Bounded(rank: map<nat, nat>, top: nat) {
    forall id | id in rank :: rank[id] <= top
  }

  /** How far up a placement points; 0 when it is no container of this graph. */
  function Height(place: map<Object, Placement>, rank: map<nat, nat>, p: Placement): nat {
    if p.InContainer? && p.container in place && p.container.id in rank then rank[p.container.id] + 1 else 0
  }

  /** The first place on the way out of p that is not inside something gone. */
  ghost function Home(place: map<Object, Placement>, rank: map<nat, nat>, top: nat, gone: set<Object>, p: Placement): Placement
    requires Ranked(place, rank) && Bounded(rank, top)
    decreases if Height(place, rank, p) == 0 then 0 else top + 2 - Height(place, rank, p)
  {
    if p.InContainer? && p.container in gone && p.container in place then
      Home(place, rank, top, gone, Refuge(place[p.container]))
    else p
  }

  lemma {:induction false} HomeSomewhere(place: map<Object, Placement>, rank: map<nat, nat>, top: nat, gone: set<Object>, p: Placement)
    requires Ranked(place, rank) && Bounded(rank, top) && p != Nowhere
    requires forall k | k in gone && k in place :: place[k] != Nowhere
    ensures Home(place, rank, top, gone, p) != Nowhere
    decreases if Height(place, rank, p) == 0 then 0 else top + 2 - Height(place, rank, p)
  {
    if p.InContainer? && p.container in gone && p.container in place {
      HomeSomewhere(place, rank, top, gone, Refuge(place[p.container]));
    }
  }

  /** What comes off a body into its hands does so whether it is looked at before or after. */
  lemma {:induction false} HomeRefuge(place: map<Object, Placement>, rank: map<nat, nat>, top: nat, gone: set<Object>, p: Placement)
    requires Ranked(place, rank) && Bounded(rank, top)
    ensures Home(place, rank, top, gone, Refuge(p)) == Refuge(Home(place, rank, top, gone, p))
    decreases if Height(place, rank, p) == 0 then 0 else top + 2 - Height(place, rank, p)
  {
    if p.InContainer? && p.container in gone && p.container in place {
      HomeRefuge(place, rank, top, gone, Refuge(place[p.container]));
    }
  }

  /** The way out only goes up. */
  lemma {:induction false} HomeIsUp(place: map<Object, Placement>, rank: map<nat, nat>, top: nat, gone: set<Object>, p: Placement)
    requires Ranked(place, rank) && Bounded(rank, top)
    ensures var q := Home(place, rank, top, gone, p);
      Height(place, rank, q) > 0 ==> 0 < Height(place, rank, p) <= Height(place, rank, q)
    decreases if Height(place, rank, p) == 0 then 0 else top + 2 - Height(place, rank, p)
  {
    if p.InContainer? && p.container in gone && p.container in place {
      HomeIsUp(place, rank, top, gone, Refuge(place[p.container]));
    }
  }

  /** One more gone: whatever would have been left in it is where it would have been. */
  lemma {:induction false} HomeMore(place: map<Object, Placement>, rank: map<nat, nat>, top: nat, gone: set<Object>, o: Object, p: Placement)
    requires Ranked(place, rank) && Bounded(rank, top) && o in place && o !in gone
    ensures Home(place, rank, top, gone + {o}, p) ==
            var q := Home(place, rank, top, gone, p);
            if q == InContainer(o) then Refuge(Home(place, rank, top, gone, place[o])) else q
    decreases if Height(place, rank, p) == 0 then 0 else top + 2 - Height(place, rank, p)
  {
    if p.InContainer? && p.container in place {
      if p.container in gone {
        HomeMore(place, rank, top, gone, o, Refuge(place[p.container]));
      } else if p.container == o {
        var r := Refuge(place[o]);
        HomeMore(place, rank, top, gone, o, r);
        HomeRefuge(place, rank, top, gone, place[o]);
        HomeIsUp(place, rank, top, gone, r);
        assert Height(place, rank, InContainer(o)) > 0;
      }
    }
  }

  /** When what decays is somewhere: only it is lost, and everything that was in it, however deep,
      is where the first thing around it that does not decay is, or in that. */
  lemma {:induction false} DecayEffect(s: State, due: seq<Object>, rank: map<nat, nat>, top: nat)
    requires Inv(s) && NoDup(due) && Ranked(s.place, rank) && Bounded(rank, top)
    requires forall o | o in due :: o in s.place && s.place[o] != Nowhere
    ensures var t := DecayAll(s, due);
      && Inv(t) && t.place.Keys == s.place.Keys && t.records == s.records && t.tracked == s.tracked - Ids(due)
      && forall x | x in s.place ::
           t.place[x] == if x in due then Nowhere else Home(s.place, rank, top, Elems(due), s.place[x])
  {
    hide Inv, Extract, Home;
    if due == [] {
      NoneDue(s, due, rank, top);
    } else {
      var front, o := due[..|due| - 1], due[|due| - 1];
      assert due == front + [o];
      DecayEffect(s, front, rank, top);
      HomeSomewhere(s.place, rank, top, Elems(front), s.place[o]);
      DecayStep(s, DecayAll(s, front), front, o, rank, top);
    }
  }

  lemma NoneDue(s: State, due: seq<Object>, rank: map<nat, nat>, top: nat)
    requires due == [] && Ranked(s.place, rank) && Bounded(rank, top)
    ensures Ids(due) == {} && s.tracked - Ids(due) == s.tracked
    ensures forall x | x in s.place :: Home(s.place, rank, top, Elems(due), s.place[x]) == s.place[x]
  {
    assert s.tracked - {} == s.tracked;
  }

  lemma DecayStep(s: State, u: State, front: seq<Object>, o: Object, rank: map<nat, nat>, top: nat)
    requires Inv(u) && o in s.place && o !in front && Ranked(s.place, rank) && Bounded(rank, top)
    requires u.place.Keys == s.place.Keys && u.tracked == s.tracked - Ids(front) && u.place[o] != Nowhere
    requires forall x | x in s.place ::
               u.place[x] == if x in front then Nowhere else Home(s.place, rank, top, Elems(front), s.place[x])
    ensures var t, due := Extract(u, o), front + [o];
      && Inv(t) && t.place.Keys == s.place.Keys && t.records == u.records && t.tracked == s.tracked - Ids(due)
      && forall x | x in s.place ::
           t.place[x] == if x in due then Nowhere else Home(s.place, rank, top, Elems(due), s.place[x])
  {
    hide Home, Extract, Inv, Elems, Ids, Ranked, Bounded;
    PlacedOut(u, o);
    var t, due := Extract(u, o), front + [o];
    OneMoreGone(s, front, o);
    forall x | x in s.place
      ensures t.place[x] == if x in due then Nowhere else Home(s.place, rank, top, Elems(due), s.place[x])
    {
      HomeMore(s.place, rank, top, Elems(front), o, s.place[x]);
    }
  }

  lemma OneMoreGone(s: State, front: seq<Object>, o: Object)
    ensures o !in front ==> o !in Elems(front)
    ensures Elems(front + [o]) == Elems(front) + {o}
    ensures s.tracked - Ids(front) - {o.id} == s.tracked - Ids(front + [o])
  {
    assert Ids(front + [o]) == Ids(front) + {o.id};
  }

  lemma PlacedOut(u: State, o: Object)
    requires Inv(u) && o in u.place && u.place[o] != Nowhere
    ensures Inv(Extract(u, o))
    ensures var t := Extract(u, o);
      && t.place.Keys == u.place.Keys && t.records == u.records && t.tracked == u.tracked - {o.id}
      && forall x | x in u.place ::
           t.place[x] == if x == o then Nowhere else if u.place[x] == InContainer(o) then Refuge(u.place[o]) else u.place[x]
  {
    ExtractPlacedEffect(u, o, {});
    assert {} - {o} == {};
    ContentsExact(u, o, {});
  }

  /** The object table is walked in no particular order: what is left, where each thing is, and
      what each list holds, depend only on which corpses were due. */
  lemma DecayInAnyOrder(s: State, a: seq<Object>, b: seq<Object>)
    requires Inv(s) && NoDup(a) && NoDup(b) && Elems(a) == Elems(b)
    requires forall o | o in a :: o in s.place && s.place[o] != Nowhere
    ensures DecayAll(s, a).place == DecayAll(s, b).place
    ensures DecayAll(s, a).tracked == DecayAll(s, b).tracked && DecayAll(s, a).records == DecayAll(s, b).records
    ensures forall q :: multiset(At(DecayAll(s, a), q)) == multiset(At(DecayAll(s, b), q))
  {
    hide Inv, DecayAll, Home, Elems, Ids, NoDup, Ranked;
    var rank := RankOf(s);
    var top := RankBound(rank);
    SameSet(a, b);
    BoundedBy(rank, top);
    DecayEffect(s, a, rank, top);
    DecayEffect(s, b, rank, top);
    assert DecayAll(s, a).place == DecayAll(s, b).place;
    forall q ensures multiset(At(DecayAll(s, a), q)) == multiset(At(DecayAll(s, b), q)) {
      ListIsPlaced(DecayAll(s, a), DecayAll(s, b), q);
    }
  }

  lemma BoundedBy(rank: map<nat, nat>, top: nat)
    requires forall id | id in rank :: rank[id] <= top
    ensures Bounded(rank, top)
  {
  }

  lemma SameSet(a: seq<Object>, b: seq<Object>)
    requires Elems(a) == Elems(b)
    ensures Ids(a) == Ids(b) && forall o :: o in a <==> o in b
  {
    forall o ensures o in a <==> o in b {
      assert o in a <==> o in Elems(a);
      assert o in b <==> o in Elems(b);
    }
  }

  lemma RankOf(s: State) returns (rank: map<nat, nat>)
    requires Inv(s)
    ensures Ranked(s.place, rank)
  {
    rank :| Ranked(s.place, rank);
  }

  /** Once what has gone is known, so is what every list holds. */
  lemma ListIsPlaced(u: State, v: State, q: Placement)
    requires Inv(u) && Inv(v) && u.place == v.place
    ensures multiset(At(u, q)) == multiset(At(v, q))
  {
    ListHolds(u, q);
    ListHolds(v, q);
    OnceEach(At(u, q));
    OnceEach(At(v, q));
  }

  lemma ListHolds(u: State, q: Placement)
    requires Inv(u)
    ensures NoDup(At(u, q)) && forall x :: x in At(u, q) <==> x in u.place && u.place[x] == q != Nowhere
  {
    forall x ensures x in At(u, q) <==> x in u.place && u.place[x] == q != Nowhere {
      assert q in u.lists && x in u.lists[q] ==> u.place[x] == q;
    }
  }

  lemma {:induction false} OnceEach(s: seq<Object>)
    requires NoDup(s)
    ensures forall x :: multiset(s)[x] == if x in s then 1 else 0
  {
    if s != [] {
      var front, last := s[..|s| - 1], s[|s| - 1];
      assert s == front + [last] && last !in front;
      OnceEach(front);
    }
  }

  // ----- on the heap ------------------------------------------------------

  /** What is reported of a corpse that went: the room it lay in, or who had it. */
  datatype DecayResult = DecayResult(corpse: Object, room: RoomVnum, carriedBy: Option<Character>)

  function ResultOf(o: Object, p: Placement): DecayResult {
    match p
    case InRoom(room) => DecayResult(o, room, None)
    case CarriedBy(holder) => DecayResult(o, NO_ROOM, Some(holder))
    case WornBy(holder, _) => DecayResult(o, NO_ROOM, Some(holder))
    case _ => DecayResult(o, NO_ROOM, None)
  }

  /** The reports, each of where the corpse was when its turn came. */
  function Results(s: State, due: seq<Object>): seq<DecayResult> {
    if due == [] then []
    else
      var front, o := due[..|due| - 1], due[|due| - 1];
      Results(s, front) + [ResultOf(o, PlaceOf(DecayAll(s, front), o))]
  }

  /** Objects: the table's, in whatever order. */
  method Objects(l: Live) returns (out: seq<Object>)
    requires l.Valid()
    ensures NoDup(out) && forall o :: o in out <==> o.id in l.objects && l.objects[o.id] == o
    ensures forall o | o in out :: o in l.Objs
  {
    l.Sees();
    TableIsHere(l);
    hide Inv, Live.Valid, Live.View;
    out := [];
    var left := l.objects.Keys;
    while left != {}
      invariant left <= l.objects.Keys && NoDup(out)
      invariant forall o :: o in out <==> o.id in l.objects && l.objects[o.id] == o && o.id !in left
    {
      var id :| id in left;
      out := out + [l.objects[id]];
      left := left - {id};
    }
  }

  lemma TableIsHere(l: Live)
    requires l.Valid()
    ensures forall id | id in l.objects :: l.objects[id] in l.Objs && l.objects[id].id == id
  {
    l.Sees();
  }

  /** What is said of something that goes: its room, or whoever held or wore it, or neither. */
  lemma ReportSays(s: State, o: Object)
    ensures |Results(s, [o])| == 1 && Results(s, [o])[0].corpse == o
    ensures Results(s, [o])[0].room == if PlaceOf(s, o).InRoom? then PlaceOf(s, o).room else -1
    ensures Results(s, [o])[0].carriedBy ==
            if PlaceOf(s, o).CarriedBy? || PlaceOf(s, o).WornBy? then Some(PlaceOf(s, o).holder) else None
  {
    StartsDecay(s);
    DecayOn(s, [], o);
    assert [] + [o] == [o];
  }

  /** One corpse goes. */
  method RotAway(l: Live, o: Object, ghost s: State, ghost due: seq<Object>) returns (r: DecayResult)
    requires l.Heap() && Inv(l.View()) && o in l.Objs && l.View() == DecayAll(s, due)
    modifies l`roomObjects, l`objects, l`objCounts
    modifies l.Objs`placement, l.Objs`contents, l.Chars`carrying, l.Chars`equipment
    ensures l.Heap() && Inv(l.View()) && l.View() == DecayAll(s, due + [o])
    ensures Results(s, due + [o]) == Results(s, due) + [r]
  {
    hide Inv, InvBut, Live.View, Live.Heap, Extract, DecayAll, Results;
    l.Sees();
    DecayOn(s, due, o);
    NothingLoose(l, o);
    r := ResultOf(o, o.placement);
    l.ExtractObject(o);
  }

  /** Every corpse a tick older; those whose time is up are extracted, and nothing else happens. */
  method DecayObjects(l: Live) returns (decayed: seq<DecayResult>, ghost due: seq<Object>)
    requires l.Valid()
    modifies l`roomObjects, l`objects, l`objCounts
    modifies l.Objs`placement, l.Objs`contents, l.Chars`carrying, l.Chars`equipment, l.Objs`timer
    ensures l.Valid()
    ensures NoDup(due) && forall o | o in old(l.Objs) ::
              o in due <==> o.id in old(l.objects) && old(l.objects)[o.id] == o && old(o.isCorpse && o.timer == 1)
    ensures forall o | o in due :: o in l.Objs
    ensures l.View() == DecayAll(old(l.View()), due) && decayed == Results(old(l.View()), due)
    ensures forall o | o in l.Objs ::
              o.timer == if o.id in old(l.objects) && old(l.objects)[o.id] == o && o.isCorpse && old(o.timer) > 0
                         then old(o.timer) - 1 else old(o.timer)
  {
    hide Inv, Live.View, Live.Heap, Live.Numbered, Extract, DecayAll, Results;
    ghost var s := l.View();
    var all := Objects(l);
    decayed, due := [], [];
    StartsDecay(s);
    for i := 0 to |all|
      invariant l.Heap() && l.Numbered() && Inv(l.View()) && Inv(s)
      invariant l.View() == DecayAll(s, due) && decayed == Results(s, due)
      invariant NoDup(due) && forall o | o in l.Objs :: o in due <==> o in all[..i] && old(o.isCorpse && o.timer == 1)
      invariant forall o | o in due :: o in l.Objs && o in all[..i]
      invariant forall o | o in l.Objs ::
                  o.timer == if o in all[..i] && o.isCorpse && old(o.timer) > 0 then old(o.timer) - 1 else old(o.timer)
    {
      var o := all[i];
      assert o in l.Objs && o !in all[..i];
      assert all[..i + 1] == all[..i] + [o];
      if !o.isCorpse || o.timer <= 0 {
        continue;
      }
      o.timer := o.timer - 1;
      if o.timer > 0 {
        continue;
      }
      var result := RotAway(l, o, s, due);
      decayed, due := decayed + [result], due + [o];
    }
    assert all[..|all|] == all;
  }

  lemma StartsDecay(s: State)
    ensures DecayAll(s, []) == s && Results(s, []) == []
  {
  }

  lemma DecayOn(s: State, due: seq<Object>, o: Object)
    ensures DecayAll(s, due + [o]) == Extract(DecayAll(s, due), o)
    ensures Results(s, due + [o]) == Results(s, due) + [ResultOf(o, PlaceOf(DecayAll(s, due), o))]
  {
    assert (due + [o])[..|due|] == due;
  }

  lemma NothingLoose(l: Live, o: Object)
    requires l.Heap() && Inv(l.View()) && o in l.Objs
    ensures InvBut(l.View(), {}) && Elems(o.contents) !! {} && PlaceOf(l.View(), o) == o.placement
    ensures {} - {o} == {} && forall s :: InvBut(s, {} - {o}) ==> Inv(s)
  {
    l.Sees();
  }

  // ----- tick after tick --------------------------------------------------

  /** In the object table. */
  predicate Tabled(l: Live, o: Object)
    reads l`objects
  {
    o.id in l.objects && l.objects[o.id] == o
  }

  /** Every corpse in the table is somewhere. */
  ghost predicate CorpsesPlaced(l: Live)
    reads l`objects, l`Objs, l.Objs`isCorpse, l.Objs`placement
  {
    forall o | o in l.Objs && Tabled(l, o) && o.isCorpse :: o.placement != Nowhere
  }

  /** What one call takes out of the table, when all that is due is somewhere. */
  lemma OnlyDueGo(s: State, due: seq<Object>)
    requires Inv(s) && NoDup(due) && forall o | o in due :: o in s.place && s.place[o] != Nowhere
    ensures var t := DecayAll(s, due);
      && t.place.Keys == s.place.Keys && t.tracked == s.tracked - Ids(due)
      && forall x | x in s.place && x !in due && s.place[x] != Nowhere :: t.place[x] != Nowhere
  {
    hide Inv, DecayAll, Home, Ranked, Ids;
    var rank := RankOf(s);
    var top := RankBound(rank);
    BoundedBy(rank, top);
    DecayEffect(s, due, rank, top);
    forall x | x in s.place && x !in due && s.place[x] != Nowhere ensures DecayAll(s, due).place[x] != Nowhere {
      HomeSomewhere(s.place, rank, top, Elems(due), s.place[x]);
    }
  }

  lemma IdsTell(s: State, due: seq<Object>, o: Object)
    requires Inv(s) && o in s.place && forall x | x in due :: x in s.place
    ensures o.id in Ids(due) <==> o in due
  {
  }

  /** A number of calls, one after another: a corpse goes at the call its timer says, and not before. */
  method DecayFor(l: Live, n: nat)
    requires l.Valid() && CorpsesPlaced(l)
    modifies l`roomObjects, l`objects, l`objCounts
    modifies l.Objs`placement, l.Objs`contents, l.Chars`carrying, l.Chars`equipment, l.Objs`timer
    ensures l.Valid() && CorpsesPlaced(l)
    ensures forall o | o in l.Objs && old(Tabled(l, o)) && o.isCorpse && old(o.timer) > 0 ::
              if n < old(o.timer) then Tabled(l, o) && o.timer == old(o.timer) - n else !Tabled(l, o)
    ensures forall o | o in l.Objs && !(o.isCorpse && old(o.timer) > 0) :: Tabled(l, o) == old(Tabled(l, o))
  {
    hide Live.Valid;
    for i := 0 to n
      invariant l.Valid() && CorpsesPlaced(l)
      invariant forall o | o in l.Objs && old(Tabled(l, o)) && o.isCorpse && old(o.timer) > 0 ::
                  if i < old(o.timer) then Tabled(l, o) && o.timer == old(o.timer) - i else !Tabled(l, o)
      invariant forall o | o in l.Objs && !(o.isCorpse && old(o.timer) > 0) ::
                  Tabled(l, o) == old(Tabled(l, o)) && (Tabled(l, o) ==> o.timer == old(o.timer))
      invariant forall o | o in l.Objs && !old(Tabled(l, o)) :: !Tabled(l, o)
    {
      DecayOnce(l);
    }
  }

  /** One call, said of the table alone. */
  method DecayOnce(l: Live)
    requires l.Valid() && CorpsesPlaced(l)
    modifies l`roomObjects, l`objects, l`objCounts
    modifies l.Objs`placement, l.Objs`contents, l.Chars`carrying, l.Chars`equipment, l.Objs`timer
    ensures l.Valid() && CorpsesPlaced(l)
    ensures forall o | o in l.Objs ::
              Tabled(l, o) <==> old(Tabled(l, o)) && !(o.isCorpse && old(o.timer) == 1)
    ensures forall o | o in l.Objs && old(Tabled(l, o)) ::
              o.timer == if o.isCorpse && old(o.timer) > 0 then old(o.timer) - 1 else old(o.timer)
  {
    hide Live.Valid, Inv, DecayAll, Results;
    ghost var s := l.View();
    IsWhole(l);
    l.Sees();
    Table(l);
    var decayed, due := DecayObjects(l);
    OnlyDueGo(s, due);
    IsWhole(l);
    l.Sees();
    Table(l);
    forall o | o in l.Objs ensures Tabled(l, o) <==> old(Tabled(l, o)) && !(o.isCorpse && old(o.timer) == 1) {
      IdsTell(s, due, o);
    }
  }

  /** The graph's table is the heap's. */
  lemma Table(l: Live)
    ensures l.View().tracked == l.objects
  {
  }
}
