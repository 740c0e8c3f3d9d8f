/** ExtractObject as a function of the object graph, what it does to every placement, and what
    any run of the movers keeps. */
module Extraction {
  import opened ObjectGraph
  import opened Options

  /** Where the contents of something destroyed at p go; nowhere when it was nowhere. */
  function Refuge(p: Placement): Placement {
    match p
    case WornBy(c, _) => CarriedBy(c)
    case _ => p
  }

  function Contents(s: State, o: Object): seq<Object> {
    At(s, InContainer(o))
  }

  function Emptied(s: State, o: Object): State {
    s.(lists := s.lists - {InContainer(o)})
  }

  /** Destroying something that is somewhere: its contents move out, then it goes. */
  function ExtractPlaced(s: State, o: Object): State {
    Untrack(Detach(MoveAll(Emptied(s, o), Contents(s, o), Refuge(PlaceOf(s, o))), o), o)
  }

  function ExtractAll(s: State, kids: seq<Object>): State {
    if kids == [] then s else ExtractPlaced(ExtractAll(s, kids[..|kids| - 1]), kids[|kids| - 1])
  }

  /** The graph after `done`, from the front of its contents, have been seen to: moved to where o
      is or, when o is nowhere, extracted in turn, each being still placed in o at that moment. */
  function Emptying(s: State, o: Object, done: seq<Object>): State {
    if PlaceOf(s, o) == Nowhere then ExtractAll(Emptied(s, o), done)
    else MoveAll(Emptied(s, o), done, Refuge(PlaceOf(s, o)))
  }

  lemma StartsEmptying(s: State, o: Object)
    ensures Emptying(s, o, []) == s.(lists := Put(s.lists, InContainer(o), []))
  {
  }

  /** ExtractObject. */
  function Extract(s: State, o: Object): State {
    Untrack(Detach(Emptying(s, o, Contents(s, o)), o), o)
  }

  lemma EmptiedLists(s: State, o: Object, loose: set<Object>)
    requires InvBut(s, loose) && o in s.place
    ensures forall q :: At(Emptied(s, o), q) == if q == InContainer(o) then [] else At(s, q)
    ensures InvBut(Emptied(s, o), loose + Elems(Contents(s, o)))
    ensures NoDup(Contents(s, o)) && o !in Contents(s, o)
    ensures forall k | k in Contents(s, o) :: k in s.place && s.place[k] == InContainer(o)
  {
    EmptiedLinked(s, o, loose);
    EmptiedComplete(s, o, loose);
    NotInItself(s, o);
    hide Linked, CompleteBut, Acyclic, Elems;
    assert IndexAgrees(Emptied(s, o)) && TracksPlaced(Emptied(s, o));
  }

  lemma EmptiedLinked(s: State, o: Object, loose: set<Object>)
    requires InvBut(s, loose)
    ensures Linked(Emptied(s, o)) && NoDup(Contents(s, o))
    ensures forall k | k in Contents(s, o) :: k in s.place && s.place[k] == InContainer(o)
  {
  }

  lemma EmptiedComplete(s: State, o: Object, loose: set<Object>)
    requires InvBut(s, loose)
    ensures Closed(Emptied(s, o)) && CompleteBut(Emptied(s, o), loose + Elems(Contents(s, o)))
  {
    var t, kids := Emptied(s, o), Contents(s, o);
    forall x | x in t.place ensures Known(t, t.place[x]) {
      assert Known(s, s.place[x]);
    }
    forall x | x in t.place && t.place[x] != Nowhere && x !in loose + Elems(kids) ensures x in At(t, t.place[x]) {
      assert x in At(s, s.place[x]);
    }
  }

  lemma NotInItself(s: State, o: Object)
    requires Acyclic(s.place) && o in s.place
    ensures s.place[o] != InContainer(o)
  {
    var rank :| Ranked(s.place, rank);
  }

  /** The contents of a container may go where it is without making a cycle. */
  lemma SpillKeepsAcyclic(s: State, o: Object, t: State)
    requires Acyclic(s.place) && Closed(s) && o in s.place && t.place.Keys == s.place.Keys
    requires forall x | x in s.place ::
               t.place[x] == s.place[x] || (s.place[x] == InContainer(o) && t.place[x] == Refuge(s.place[o]))
    ensures Acyclic(t.place)
  {
    var rank :| Ranked(s.place, rank);
    forall x | x in t.place
      ensures x.id in rank
      ensures t.place[x].InContainer? ==>
                t.place[x].container.id in rank && rank[x.id] < rank[t.place[x].container.id]
    {
      assert x in s.place;
    }
    assert Ranked(t.place, rank);
  }

  /** The graph after the contents have moved out and before o itself goes. */
  function Spilled(s: State, o: Object): State {
    MoveAll(Emptied(s, o), Contents(s, o), Refuge(PlaceOf(s, o)))
  }

  lemma SpilledLists(s: State, o: Object, loose: set<Object>)
    requires InvBut(s, loose) && o in s.place && s.place[o] != Nowhere
    ensures var t := Spilled(s, o);
      && Linked(t) && t.place.Keys == s.place.Keys
      && t.records == s.records && t.tracked == s.tracked && t.counts == s.counts
      && (forall x | x in s.place :: t.place[x] == if x in Contents(s, o) then Refuge(s.place[o]) else s.place[x])
      && (forall q :: At(t, q) ==
                      if q == InContainer(o) then []
                      else (if q == Refuge(s.place[o]) then Reverse(Contents(s, o)) else []) + At(s, q))
  {
    hide IndexAgrees, CompleteBut, Closed, Acyclic;
    var kids, p, e := Contents(s, o), Refuge(s.place[o]), Emptied(s, o);
    EmptiedLists(s, o, loose);
    NotInItself(s, o);
    assert Elems(kids) <= e.place.Keys;
    MoveAllLists(e, kids, p);
    MoveAllTracked(e, kids, p);
    var t := Spilled(s, o);
    forall q ensures At(t, q) ==
                     if q == InContainer(o) then [] else (if q == p then Reverse(kids) else []) + At(s, q)
    {
      MinusElements(At(e, q), Elems(kids));
    }
  }

  lemma SpilledComplete(s: State, o: Object, loose: set<Object>)
    requires InvBut(s, loose) && o in s.place && s.place[o] != Nowhere
    requires Elems(Contents(s, o)) !! loose
    ensures Closed(Spilled(s, o)) && CompleteBut(Spilled(s, o), loose)
  {
    hide IndexAgrees, TracksPlaced, Acyclic, Linked, Spilled, Reverse;
    var t, kids := Spilled(s, o), Contents(s, o);
    SpilledLists(s, o, loose);
    ReverseElements(kids);
    forall x | x in t.place ensures Known(t, t.place[x]) {
      assert Known(s, s.place[x]) && Known(s, s.place[o]);
    }
    forall x | x in t.place && t.place[x] != Nowhere && x !in loose ensures x in At(t, t.place[x]) {
      NotInItself(s, o);
      if x !in kids {
        assert x in At(s, s.place[x]);
      }
    }
  }

  lemma SpilledKeepsInv(s: State, o: Object, loose: set<Object>)
    requires InvBut(s, loose) && o in s.place && s.place[o] != Nowhere
    requires Elems(Contents(s, o)) !! loose
    ensures InvBut(Spilled(s, o), loose)
  {
    var t := Spilled(s, o);
    SpilledLists(s, o, loose);
    SpilledComplete(s, o, loose);
    EmptiedLists(s, o, loose);
    SpillKeepsAcyclic(s, o, t);
    SpilledIndex(s, t);
  }

  lemma SpilledIndex(s: State, t: State)
    requires TracksPlaced(s) && IndexAgrees(s)
    requires t.place.Keys == s.place.Keys && t.tracked == s.tracked && t.counts == s.counts
    requires forall x | x in s.place && t.place[x] != Nowhere :: s.place[x] != Nowhere
    ensures TracksPlaced(t) && IndexAgrees(t)
  {
  }

  lemma UntrackNowhere(s: State, o: Object, loose: set<Object>)
    requires InvBut(s, loose) && o in s.place && s.place[o] == Nowhere
    ensures InvBut(Untrack(s, o), loose)
    ensures Untrack(s, o).tracked == s.tracked - {o.id}
    ensures forall p :: At(Untrack(s, o), p) == At(s, p)
  {
    UntrackKeepsIndex(s, o);
    SameGraph(s, Untrack(s, o), loose);
    UntrackKeepsPlaced(s, o);
  }

  lemma UntrackKeepsPlaced(s: State, o: Object)
    requires TracksPlaced(s) && IndexAgrees(s) && o in s.place && s.place[o] == Nowhere
    ensures TracksPlaced(Untrack(s, o))
  {
    forall x | x in s.place && s.place[x] != Nowhere ensures x.id in Untrack(s, o).tracked {
      assert x.id != o.id;
    }
  }

  /** Partway through moving the contents out, o is where it was, the placements are acyclic, and
      the next of them does not enclose the container they are going into. */
  lemma SpillingOn(s: State, o: Object, loose: set<Object>, done: seq<Object>, next: Object)
    requires InvBut(s, loose) && o in s.place && s.place[o] != Nowhere
    requires done + [next] <= Contents(s, o)
    ensures var u := MoveAll(Emptied(s, o), done, Refuge(s.place[o]));
      && u.place.Keys == s.place.Keys && u.place[o] == s.place[o] && Acyclic(u.place)
      && next in u.place
      && (s.place[o].InContainer? ==> !Encloses(u.place, next, s.place[o].container))
  {
    var kids, e, p := Contents(s, o), Emptied(s, o), Refuge(s.place[o]);
    EmptiedLists(s, o, loose);
    assert done == kids[..|done|] && next == kids[|done|];
    assert forall k | k in done :: k in kids;
    assert Elems(done) <= e.place.Keys && NoDup(done);
    MoveAllLists(e, done, p);
    var u := MoveAll(e, done, p);
    SpillKeepsAcyclic(s, o, u);
    if s.place[o].InContainer? {
      assert Known(s, s.place[o]);
      KeepsClear(s, o, u, next);
    }
  }

  lemma KeepsClear(s: State, o: Object, u: State, next: Object)
    requires Acyclic(s.place) && o in s.place && s.place[o].InContainer? && s.place[o].container in s.place
    requires next in s.place && s.place[next] == InContainer(o) && u.place.Keys == s.place.Keys
    requires forall x | x in s.place ::
               u.place[x] == s.place[x] || (s.place[x] == InContainer(o) && u.place[x] == s.place[o])
    ensures !Encloses(u.place, next, s.place[o].container)
  {
    var k := s.place[o].container;
    var rank :| Ranked(s.place, rank);
    forall x | x in u.place
      ensures x.id in rank
      ensures u.place[x].InContainer? ==>
                u.place[x].container.id in rank && rank[x.id] < rank[u.place[x].container.id]
    {
      assert x in s.place;
    }
    assert Ranked(u.place, rank);
    assert rank[next.id] < rank[o.id] < rank[k.id];
    if Encloses(u.place, next, k) {
      var n: nat :| Around(u.place, k, n) == Some(next);
      AroundRanksUp(u.place, rank, k, n);
    }
  }

  /** What extraction from a place leaves: contents where it was, everything else as before. */
  ghost predicate LostOnly(s: State, o: Object, t: State) {
    && t.place.Keys == s.place.Keys && t.records == s.records && t.tracked == s.tracked - {o.id}
    && (forall x | x in s.place ::
          t.place[x] == if x == o then Nowhere else if x in Contents(s, o) then Refuge(PlaceOf(s, o)) else s.place[x])
  }

  /** The list at q after o has been extracted from its place. */
  function ListAfter(s: State, o: Object, q: Placement): seq<Object> {
    if q == InContainer(o) then []
    else (if q == Refuge(PlaceOf(s, o)) then Reverse(Contents(s, o)) else []) + Without(At(s, q), o)
  }

  lemma DetachAt(u: State, o: Object, q: Placement)
    requires Linked(u) && o in u.place
    ensures At(Detach(u, o), q) == Without(At(u, q), o)
  {
    DetachLists(u, o);
    if q != u.place[o] {
      assert o !in At(u, q);
      WithoutAbsent(At(u, q), o);
    }
  }

  lemma SpilledAt(s: State, o: Object, loose: set<Object>, q: Placement)
    requires InvBut(s, loose) && o in s.place && s.place[o] != Nowhere
    ensures Without(At(Spilled(s, o), q), o) == ListAfter(s, o, q)
  {
    SpilledLists(s, o, loose);
    EmptiedLists(s, o, loose);
    if q != InContainer(o) {
      var front := if q == Refuge(s.place[o]) then Reverse(Contents(s, o)) else [];
      ReverseElements(Contents(s, o));
      WithoutPast(front, At(s, q), o);
    }
  }

  /** Something destroyed from a place loses nothing: its contents are where it was (in the
      inventory, when it was worn), in front and in reverse order; it is gone from its list and
      from the object table; every other placement and list is as before. */
  lemma ExtractPlacedEffect(s: State, o: Object, loose: set<Object>)
    requires InvBut(s, loose) && o in s.place && s.place[o] != Nowhere
    requires Elems(Contents(s, o)) !! loose
    ensures InvBut(ExtractPlaced(s, o), loose - {o})
    ensures LostOnly(s, o, ExtractPlaced(s, o))
    ensures forall q :: At(ExtractPlaced(s, o), q) == ListAfter(s, o, q)
  {
    var u := Spilled(s, o);
    SpilledKeepsInv(s, o, loose);
    assert o in u.place && u.place[o] == s.place[o] by {
      SpilledLists(s, o, loose);
      EmptiedLists(s, o, loose);
    }
    DetachKeepsInv(u, o, loose);
    UntrackNowhere(Detach(u, o), o, loose - {o});
    forall q ensures At(ExtractPlaced(s, o), q) == ListAfter(s, o, q) {
      DetachAt(u, o, q);
      SpilledAt(s, o, loose, q);
    }
    SpilledPlaces(s, o, loose);
  }

  lemma ExtractFromPlace(s: State, o: Object)
    requires InvBut(s, {}) && o in s.place && s.place[o] != Nowhere
    ensures LostOnly(s, o, Extract(s, o))
  {
    hide InvBut;
    ExtractPlacedEffect(s, o, {});
  }

  ghost predicate AllAt(s: State, kids: seq<Object>, p: Placement) {
    forall k | k in kids :: k in s.place && s.place[k] == p
  }

  /** Case by case, what was in something destroyed where it was: on that floor, in those hands, in the
      hands of whoever wore it, or in the container around it; in front there, turned round. It is
      gone itself, and whatever was not in it is where it was. */
  lemma ContentsLand(s: State, o: Object, loose: set<Object>)
    requires InvBut(s, loose) && o in s.place && s.place[o] != Nowhere && Elems(Contents(s, o)) !! loose
    ensures var t, kids := Extract(s, o), Contents(s, o);
      && t.place.Keys == s.place.Keys && t.place[o] == Nowhere && o.id !in t.tracked && At(t, InContainer(o)) == []
      && forall x | x in s.place && x != o && x !in kids :: t.place[x] == s.place[x]
    ensures s.place[o].InRoom? ==>
              var t, kids, floor := Extract(s, o), Contents(s, o), InRoom(s.place[o].room);
              AllAt(t, kids, floor) && At(t, floor) == Reverse(kids) + Without(At(s, floor), o)
    ensures s.place[o].CarriedBy? ==>
              var t, kids, hands := Extract(s, o), Contents(s, o), CarriedBy(s.place[o].holder);
              AllAt(t, kids, hands) && At(t, hands) == Reverse(kids) + Without(At(s, hands), o)
    ensures s.place[o].WornBy? ==>
              var t, kids, hands := Extract(s, o), Contents(s, o), CarriedBy(s.place[o].holder);
              && AllAt(t, kids, hands) && At(t, hands) == Reverse(kids) + At(s, hands)
              && (o in At(s, s.place[o]) ==> At(t, WornBy(s.place[o].holder, s.place[o].at)) == [])
    ensures s.place[o].InContainer? ==>
              var t, kids, around := Extract(s, o), Contents(s, o), InContainer(s.place[o].container);
              AllAt(t, kids, around) && At(t, around) == Reverse(kids) + Without(At(s, around), o)
  {
    hide *;
    LinkedIn(s, loose);
    KidsAreThere(s, o, loose);
    OutOfItself(s, o, loose);
    ExtractedPlaced(s, o, loose);
    LandPlaces(s, o, Extract(s, o));
    LandLists(s, o);
    if s.place[o].WornBy? { WornAlone(s, o, loose); }
  }

  lemma ExtractedPlaced(s: State, o: Object, loose: set<Object>)
    requires InvBut(s, loose) && o in s.place && s.place[o] != Nowhere && Elems(Contents(s, o)) !! loose
    ensures LostOnly(s, o, Extract(s, o)) && forall q :: At(Extract(s, o), q) == ListAfter(s, o, q)
  {
    hide *;
    PlaceIs(s, o);
    IsExtracted(s, o);
    ExtractPlacedEffect(s, o, loose);
  }

  lemma PlaceIs(s: State, x: Object)
    ensures x in s.place ==> PlaceOf(s, x) == s.place[x]
  {
  }

  lemma OutOfItself(s: State, o: Object, loose: set<Object>)
    requires InvBut(s, loose) && o in s.place
    ensures s.place[o] != InContainer(o)
  {
    NotInItself(s, o);
  }

  lemma LandPlaces(s: State, o: Object, t: State)
    requires o in s.place && LostOnly(s, o, t) && s.place[o] != InContainer(o)
    requires forall k | k in Contents(s, o) :: k in s.place && s.place[k] == InContainer(o)
    ensures t.place.Keys == s.place.Keys && t.place[o] == Nowhere && o.id !in t.tracked
    ensures forall x | x in s.place && x != o && x !in Contents(s, o) :: t.place[x] == s.place[x]
    ensures AllAt(t, Contents(s, o), if s.place[o].WornBy? then CarriedBy(s.place[o].holder) else s.place[o])
  {
    hide Contents;
  }

  lemma LandLists(s: State, o: Object)
    requires o in s.place && s.place[o] != InContainer(o)
    ensures ListAfter(s, o, InContainer(o)) == []
    ensures !s.place[o].WornBy? ==> ListAfter(s, o, s.place[o]) == Reverse(Contents(s, o)) + Without(At(s, s.place[o]), o)
    ensures s.place[o].WornBy? ==>
              var hands := CarriedBy(s.place[o].holder);
              && ListAfter(s, o, hands) == Reverse(Contents(s, o)) + Without(At(s, hands), o)
              && ListAfter(s, o, s.place[o]) == Without(At(s, s.place[o]), o)
  {
    hide Contents, At, Reverse, Without;
    assert [] + Without(At(s, s.place[o]), o) == Without(At(s, s.place[o]), o);
  }

  lemma KidsAreThere(s: State, o: Object, loose: set<Object>)
    requires InvBut(s, loose)
    ensures forall k | k in Contents(s, o) :: k in s.place && s.place[k] == InContainer(o)
  {
  }

  /** What is worn is in no inventory, and there is nothing else in its slot. */
  lemma WornAlone(s: State, o: Object, loose: set<Object>)
    requires InvBut(s, loose) && o in s.place && s.place[o].WornBy?
    ensures Without(At(s, CarriedBy(s.place[o].holder)), o) == At(s, CarriedBy(s.place[o].holder))
    ensures o in At(s, s.place[o]) ==> Without(At(s, s.place[o]), o) == []
  {
    assert o !in At(s, CarriedBy(s.place[o].holder));
    WithoutAbsent(At(s, CarriedBy(s.place[o].holder)), o);
  }

  lemma IsExtracted(s: State, o: Object)
    requires PlaceOf(s, o) != Nowhere
    ensures Extract(s, o) == ExtractPlaced(s, o)
  {
  }

  lemma SpilledPlaces(s: State, o: Object, loose: set<Object>)
    requires InvBut(s, loose) && o in s.place && s.place[o] != Nowhere
    requires Untrack(Detach(Spilled(s, o), o), o).tracked == Spilled(s, o).tracked - {o.id}
    ensures LostOnly(s, o, ExtractPlaced(s, o))
  {
    hide InvBut, Spilled, Contents, Detach, Untrack, Linked;
    SpilledLists(s, o, loose);
    EmptiedLists(s, o, loose);
    DetachedPlaces(Spilled(s, o), o);
    SpilledIs(s, o);
  }

  lemma SpilledIs(s: State, o: Object)
    ensures ExtractPlaced(s, o) == Untrack(Detach(Spilled(s, o), o), o)
  {
  }

  lemma DetachedPlaces(u: State, o: Object)
    requires o in u.place
    ensures Untrack(Detach(u, o), o).place == u.place[o := Nowhere] && Untrack(Detach(u, o), o).records == u.records
  {
  }

  // ----- from nowhere -----------------------------------------------------

  /** The ids of the listed objects. */
  function Ids(kids: seq<Object>): set<nat> {
    set k | k in kids :: k.id
  }

  /** The container x is in, when it is in one of kids. */
  ghost predicate InOneOf(place: map<Object, Placement>, x: Object, kids: seq<Object>) {
    x in place && place[x].InContainer? && place[x].container in kids
  }

  /** The placements after each of kids, all in o, has been extracted in turn. */
  ghost predicate KidsGone(s: State, o: Object, kids: seq<Object>, t: State) {
    && t.place.Keys == s.place.Keys && t.records == s.records && t.tracked == s.tracked - Ids(kids)
    && forall x | x in s.place ::
         t.place[x] == if x in kids then Nowhere else if InOneOf(s.place, x, kids) then InContainer(o) else s.place[x]
  }

  /** kids are the contents of o, which is nowhere and whose list has been emptied. */
  ghost predicate Orphans(s: State, o: Object, kids: seq<Object>) {
    && o in s.place && s.place[o] == Nowhere
    && NoDup(kids)
    && forall k | k in kids :: k in s.place && s.place[k] == InContainer(o)
  }

  /** The list of a container is what is placed in it. */
  lemma ContentsExact(s: State, o: Object, loose: set<Object>)
    requires InvBut(s, loose) && forall x | x in loose && x in s.place :: s.place[x] != InContainer(o)
    ensures forall x :: x in Contents(s, o) <==> x in s.place && s.place[x] == InContainer(o)
  {
  }

  lemma {:induction false} ExtractAllEffect(s: State, o: Object, all: seq<Object>, kids: seq<Object>)
    requires Orphans(s, o, all) && InvBut(s, Elems(all)) && kids <= all
    ensures InvBut(ExtractAll(s, kids), Elems(all) - Elems(kids))
    ensures KidsGone(s, o, kids, ExtractAll(s, kids))
  {
    hide InvBut;
    if kids == [] {
      assert Elems(all) - Elems(kids) == Elems(all);
      assert Ids(kids) == {};
    } else {
      var init, last := kids[..|kids| - 1], kids[|kids| - 1];
      assert kids == init + [last] && last == all[|kids| - 1];
      assert init == all[..|init|];
      assert last !in init && last in all;
      ExtractAllEffect(s, o, all, init);
      var u := ExtractAll(s, init);
      var left := Elems(all) - Elems(init);
      assert u.place[last] == InContainer(o);
      assert forall x | x in left :: u.place[x] == InContainer(o);
      assert InvBut(u, left);
      ContentsExact(u, last, left);
      assert Elems(Contents(u, last)) !! left;
      ExtractPlacedEffect(u, last, left);
      assert left - {last} == Elems(all) - Elems(kids);
      KidsGoneStep(s, o, init, last, u, ExtractPlaced(u, last));
    }
  }

  /** Partway through extracting the contents of something nowhere. */
  lemma ExtractingOn(s: State, o: Object, done: seq<Object>, next: Object)
    requires Inv(s) && o in s.place && s.place[o] == Nowhere
    requires done + [next] <= Contents(s, o)
    ensures var u, left := ExtractAll(Emptied(s, o), done), Elems(Contents(s, o)) - Elems(done);
      && InvBut(u, left)
      && u.place.Keys == s.place.Keys && u.place[o] == Nowhere
      && next in u.place && u.place[next] == InContainer(o)
      && Elems(Contents(u, next)) !! left
  {
    var kids, e := Contents(s, o), Emptied(s, o);
    EmptiedLists(s, o, {});
    hide InvBut;
    assert {} + Elems(kids) == Elems(kids);
    assert done == kids[..|done|] && next == kids[|done|];
    assert next !in done && next in kids;
    ExtractAllEffect(e, o, kids, done);
    var u, left := ExtractAll(e, done), Elems(kids) - Elems(done);
    assert o !in kids;
    assert forall x | x in left :: u.place[x] == InContainer(o);
    ContentsExact(u, next, left);
  }

  lemma KidsGoneStep(s: State, o: Object, init: seq<Object>, last: Object, u: State, t: State)
    requires o in s.place && s.place[o] == Nowhere
    requires last in s.place && s.place[last] == InContainer(o) && last !in init
    requires forall k | k in init :: k in s.place && s.place[k] == InContainer(o)
    requires KidsGone(s, o, init, u) && LostOnly(u, last, t)
    requires forall x | x in u.place && u.place[x] == InContainer(last) :: x in Contents(u, last)
    requires forall x | x in Contents(u, last) :: x in u.place && u.place[x] == InContainer(last)
    ensures KidsGone(s, o, init + [last], t)
  {
    var kids := init + [last];
    assert Ids(kids) == Ids(init) + {last.id};
    forall x | x in s.place
      ensures t.place[x] == if x in kids then Nowhere else if InOneOf(s.place, x, kids) then InContainer(o) else s.place[x]
    {
      assert x in kids <==> x in init || x == last;
      assert InOneOf(s.place, x, kids) <==> InOneOf(s.place, x, init) || s.place[x] == InContainer(last);
    }
  }

  /** Something destroyed while nowhere: it and its direct contents are destroyed, but what was in
      those contents is not. It is left inside o, still in the object table. */
  lemma ExtractLooseEffect(s: State, o: Object)
    requires Inv(s) && o in s.place && s.place[o] == Nowhere
    ensures Inv(Extract(s, o))
    ensures var t, kids := Extract(s, o), Contents(s, o);
      && t.place.Keys == s.place.Keys && t.records == s.records && t.tracked == s.tracked - Ids(kids) - {o.id}
      && forall x | x in s.place ::
           t.place[x] == if x in kids then Nowhere else if InOneOf(s.place, x, kids) then InContainer(o) else s.place[x]
  {
    hide InvBut;
    var kids, e := Contents(s, o), Emptied(s, o);
    EmptiedLists(s, o, {});
    assert {} + Elems(kids) == Elems(kids);
    ExtractAllEffect(e, o, kids, kids);
    var u := ExtractAll(e, kids);
    assert Elems(kids) - Elems(kids) == {};
    assert u.place[o] == Nowhere;
    DetachKeepsInv(u, o, {});
    assert {} - {o} == {};
    UntrackNowhere(Detach(u, o), o, {});
  }

  /** A list that is neither inside o nor inside something directly in it. */
  predicate Outside(s: State, o: Object, q: Placement) {
    q != InContainer(o) && !(q.InContainer? && q.container in Contents(s, o))
  }

  lemma {:induction false} ExtractAllLists(s: State, o: Object, done: seq<Object>, q: Placement)
    requires Inv(s) && o in s.place && s.place[o] == Nowhere && done <= Contents(s, o) && Outside(s, o, q)
    ensures At(ExtractAll(Emptied(s, o), done), q) == At(s, q)
  {
    hide Inv, InvBut, ExtractPlaced, Emptied, Linked;
    if done == [] {
      EmptiedElsewhere(s, o, q);
    } else {
      var init, next := done[..|done| - 1], done[|done| - 1];
      assert done == init + [next] && init <= Contents(s, o) && next in Contents(s, o);
      ExtractAllLists(s, o, init, q);
      ExtractingOn(s, o, init, next);
      var u, left := ExtractAll(Emptied(s, o), init), Elems(Contents(s, o)) - Elems(init);
      ExtractPlacedEffect(u, next, left);
      OutOfOthers(u, left, next, q);
      assert [] + At(u, q) == At(u, q);
    }
  }

  lemma EmptiedElsewhere(s: State, o: Object, q: Placement)
    requires Inv(s) && o in s.place && q != InContainer(o)
    ensures At(Emptied(s, o), q) == At(s, q)
  {
    EmptiedLists(s, o, {});
  }

  /** What is in one place is in no other list, so taking it off that list changes nothing. */
  lemma OutOfOthers(u: State, loose: set<Object>, o: Object, q: Placement)
    requires InvBut(u, loose) && o in u.place && u.place[o] != q
    ensures Without(At(u, q), o) == At(u, q)
  {
    assert o !in At(u, q);
    WithoutAbsent(At(u, q), o);
  }

  /** Something destroyed while nowhere leaves every list outside it as it was. */
  lemma ExtractLooseLists(s: State, o: Object, q: Placement)
    requires Inv(s) && o in s.place && s.place[o] == Nowhere && Outside(s, o, q)
    ensures At(Extract(s, o), q) == At(s, q)
  {
    hide InvBut, ExtractAll;
    var kids, e := Contents(s, o), Emptied(s, o);
    EmptiedLists(s, o, {});
    assert {} + Elems(kids) == Elems(kids);
    ExtractAllEffect(e, o, kids, kids);
    ExtractAllLists(s, o, kids, q);
    var u := ExtractAll(e, kids);
    assert Elems(kids) - Elems(kids) == {};
    LinkedIn(u, {});
    DetachAt(u, o, q);
    NotListedNowhere(u, o, q);
  }

  lemma LinkedIn(u: State, loose: set<Object>)
    requires InvBut(u, loose)
    ensures Linked(u)
  {
  }

  lemma NotListedNowhere(u: State, o: Object, q: Placement)
    requires Linked(u) && o in u.place && u.place[o] == Nowhere
    ensures Without(At(u, q), o) == At(u, q)
  {
    assert o !in At(u, q);
    WithoutAbsent(At(u, q), o);
  }

  /** Extraction from nowhere destroys everything inside o exactly when nothing directly in o has
      contents of its own. */
  lemma ExtractLooseDestroysAll(s: State, o: Object)
    requires Inv(s) && o in s.place && s.place[o] == Nowhere
    ensures (forall x | x in s.place && Encloses(s.place, o, x) :: x.id !in Extract(s, o).tracked) <==>
            (forall k | k in Contents(s, o) :: Contents(s, k) == [])
  {
    hide InvBut;
    var t, kids := Extract(s, o), Contents(s, o);
    ExtractLooseEffect(s, o);
    if k :| k in kids && Contents(s, k) != [] {
      var g := Contents(s, k)[0];
      GrandchildSurvives(s, o, k, g);
    } else {
      forall x | x in s.place && Encloses(s.place, o, x) ensures x.id !in t.tracked {
        ShallowContents(s, o, x);
      }
    }
  }

  lemma GrandchildSurvives(s: State, o: Object, k: Object, g: Object)
    requires Inv(s) && o in s.place && s.place[o] == Nowhere
    requires k in Contents(s, o) && g in Contents(s, k)
    ensures g in s.place && Encloses(s.place, o, g)
    ensures g in Extract(s, o).place && Extract(s, o).place[g] == InContainer(o) && g.id in Extract(s, o).tracked
  {
    assert s.place[g] == InContainer(k) && s.place[k] == InContainer(o);
    assert Around(s.place, g, 0) == Some(g) && Around(s.place, g, 1) == Some(k);
    assert Around(s.place, g, 2) == Some(o);
    NotInItself(s, k);
    assert InOneOf(s.place, g, Contents(s, o)) && g !in Contents(s, o);
    hide InvBut;
    ExtractLooseEffect(s, o);
    assert Inv(Extract(s, o));
    PlacedIsTracked(Extract(s, o), g);
  }

  lemma PlacedIsTracked(s: State, x: Object)
    requires Inv(s) && x in s.place && s.place[x] != Nowhere
    ensures x.id in s.tracked
  {
  }

  /** When nothing in o has contents, o encloses only itself and what is directly in it. */
  lemma ShallowContents(s: State, o: Object, x: Object)
    requires Inv(s) && o in s.place && x in s.place && Encloses(s.place, o, x)
    requires forall k | k in Contents(s, o) :: Contents(s, k) == []
    ensures x == o || x in Contents(s, o)
  {
    var n: nat :| Around(s.place, x, n) == Some(o);
    if n > 0 {
      var y := Around(s.place, x, n - 1).value;
      assert y in At(s, s.place[y]);
      if n > 1 {
        var z := Around(s.place, x, n - 2).value;
        assert z in At(s, s.place[z]);
      }
    }
  }

  // ----- runs -------------------------------------------------------------

  /** A new object comes into the world nowhere, under an id of its own. */
  function Create(s: State, o: Object): State {
    s.(place := s.place[o := Nowhere])
  }

  ghost predicate Unused(s: State, o: Object) {
    forall x | x in s.place :: x.id != o.id
  }

  lemma CreateKeepsInv(s: State, o: Object)
    requires Inv(s) && Unused(s, o)
    ensures Inv(Create(s, o)) && o !in s.place
    ensures At(s, InContainer(o)) == [] && forall p :: o !in At(s, p)
  {
    var t := Create(s, o);
    assert o !in s.place;
    NothingInUnknown(s, o);
    CreateGraph(s, o);
    assert IndexAgrees(t) && TracksPlaced(t);
  }

  lemma NothingInUnknown(s: State, k: Object)
    requires Inv(s) && k !in s.place
    ensures At(s, InContainer(k)) == []
  {
    forall x ensures x !in At(s, InContainer(k)) {
      assert x in s.place ==> Known(s, s.place[x]);
    }
    assert Elems(At(s, InContainer(k))) == {};
    NoElems(At(s, InContainer(k)));
  }

  lemma NoElems<T>(l: seq<T>)
    ensures l != [] ==> Elems(l) != {}
  {
    if l != [] {
      assert l[0] in Elems(l);
    }
  }

  lemma CreateGraph(s: State, o: Object)
    requires Closed(s) && Linked(s) && CompleteBut(s, {}) && Acyclic(s.place) && o !in s.place && Unused(s, o)
    ensures var t := Create(s, o); Closed(t) && Linked(t) && CompleteBut(t, {}) && Acyclic(t.place)
  {
    var t := Create(s, o);
    forall x | x in t.place ensures Known(t, t.place[x]) {
      assert x != o ==> Known(s, s.place[x]);
    }
    forall x | x in t.place && t.place[x] != Nowhere ensures x in At(t, t.place[x]) {
      assert x in At(s, s.place[x]);
    }
    var rank :| Ranked(s.place, rank);
    var ranked := rank[o.id := 0];
    forall x | x in t.place
      ensures x.id in ranked
      ensures t.place[x].InContainer? ==>
                t.place[x].container.id in ranked && ranked[x.id] < ranked[t.place[x].container.id]
    {
      if x != o && t.place[x].InContainer? {
        assert Known(s, s.place[x]);
      }
    }
    assert Ranked(t.place, ranked);
  }

  /** One call of a mover. */
  datatype Op =
    | ToRoom(o: Object, room: RoomVnum)
    | ToChar(o: Object, c: Character)
    | ToObject(o: Object, into: Object)
    | Equip(o: Object, c: Character, pos: int)
    | Unequip(c: Character, pos: int)
    | ExtractOp(o: Object)
    | CreateOp(o: Object)

  /** The call is about things that exist. */
  ghost predicate Legal(s: State, op: Op) {
    match op
    case ToRoom(o, _) => o in s.place
    case ToChar(o, c) => o in s.place && c in s.records
    case ToObject(o, k) => o in s.place && k in s.place
    case Equip(o, c, _) => o in s.place && c in s.records
    case Unequip(c, _) => c in s.records
    case ExtractOp(o) => o in s.place
    case CreateOp(o) => Unused(s, o)
  }

  /** ArmorClassOf: value 0 of a piece of armour, times what the slot is worth. */
  function ArmorClassOf(o: Object, pos: int): int {
    match o.acApply
    case None => 0
    case Some(ac) => if pos == 5 then 3 * ac else if pos == 6 || pos == 7 then 2 * ac else ac
  }

  /** Adds to a character's own armour figure, when there is a record to hold it. */
  function Armour(s: State, c: Character, d: int): State {
    if c in s.records && s.records[c].Some? then
      s.(records := s.records[c := Some(s.records[c].value.(realArmor := s.records[c].value.realArmor + d))])
    else s
  }

  function EquipOn(s: State, o: Object, c: Character, pos: int): (State, bool) {
    if 0 <= pos < NUM_WEARS && At(s, WornBy(c, pos)) == [] then
      (Armour(Move(s, o, WornBy(c, pos)), c, -ArmorClassOf(o, pos)), true)
    else (s, false)
  }

  function UnequipFrom(s: State, c: Character, pos: int): (State, Option<Object>) {
    if 0 <= pos < NUM_WEARS && At(s, WornBy(c, pos)) != [] then
      var o := At(s, WornBy(c, pos))[0];
      (Armour(Detach(s, o), c, ArmorClassOf(o, pos)), Some(o))
    else (s, None)
  }

  /** What wearing takes off the wearer's armour figure, and taking off gives back: three times the
      armour class on the body, twice on head and legs, once elsewhere, and nothing for what is no armour. */
  lemma ArmourTaken(s: State, o: Object, c: Character, pos: nat)
    requires pos < NUM_WEARS && c in s.records && s.records[c].Some?
    ensures var ac := if o.acApply.Some? then o.acApply.value else 0;
      var times := if pos == 5 then 3 else if pos == 6 || pos == 7 then 2 else 1;
      var was := s.records[c].value.realArmor;
      && (At(s, WornBy(c, pos)) == [] ==>
            var t := EquipOn(s, o, c, pos).0;
            c in t.records && t.records[c] == Some(s.records[c].value.(realArmor := was - times * ac)))
      && (At(s, WornBy(c, pos)) == [o] ==>
            var t := UnequipFrom(s, c, pos).0;
            c in t.records && t.records[c] == Some(s.records[c].value.(realArmor := was + times * ac)))
  {
    var ac := if o.acApply.Some? then o.acApply.value else 0;
    assert ArmorClassOf(o, pos) == (if pos == 5 then 3 else if pos == 6 || pos == 7 then 2 else 1) * ac;
    SameRecords(s, o, WornBy(c, pos));
    hide ArmorClassOf, Move, Detach;
  }

  lemma SameRecords(s: State, o: Object, p: Placement)
    ensures Move(s, o, p).records == s.records && Detach(s, o).records == s.records
  {
  }

  ghost function Apply(s: State, op: Op): State {
    match op
    case ToRoom(o, r) => Move(s, o, InRoom(r))
    case ToChar(o, c) => Move(s, o, CarriedBy(c))
    case ToObject(o, k) => Nest(s, o, k).0
    case Equip(o, c, pos) => EquipOn(s, o, c, pos).0
    case Unequip(c, pos) => UnequipFrom(s, c, pos).0
    case ExtractOp(o) => Extract(s, o)
    case CreateOp(o) => Create(s, o)
  }

  /** Runs the calls in order, leaving out those about things that do not exist. */
  ghost function Run(s: State, ops: seq<Op>): State
    decreases |ops|
  {
    if ops == [] then s
    else Run(if Legal(s, ops[0]) then Apply(s, ops[0]) else s, ops[1..])
  }

  /** The world before anything is in it. */
  const EMPTY: State := State(map[], map[], map[], map[], map[])

  lemma EmptyIsSound()
    ensures Inv(EMPTY)
  {
    assert Ranked(EMPTY.place, map[]);
  }

  lemma ArmourKeepsInv(s: State, c: Character, d: int)
    requires Inv(s)
    ensures Inv(Armour(s, c, d))
    ensures Armour(s, c, d).place == s.place
  {
    var t := Armour(s, c, d);
    assert t.records.Keys == s.records.Keys;
    forall x | x in t.place ensures Known(t, t.place[x]) {
      assert Known(s, s.place[x]);
    }
    assert CompleteBut(t, {});
  }

  lemma PlaceKeepsInv(s: State, o: Object, p: Placement)
    requires Inv(s) && o in s.place && Free(s, p) && Known(s, p) && !p.InContainer?
    ensures Inv(Move(s, o, p))
  {
    ShallowKeepsAcyclic(s, o, p);
    MoveKeepsInv(s, o, p, {});
    assert {} - {o} == {};
  }

  lemma EquipKeepsInv(s: State, o: Object, c: Character, pos: int)
    requires Inv(s) && o in s.place && c in s.records
    ensures Inv(EquipOn(s, o, c, pos).0)
  {
    hide InvBut;
    if EquipOn(s, o, c, pos).1 {
      PlaceKeepsInv(s, o, WornBy(c, pos));
      ArmourKeepsInv(Move(s, o, WornBy(c, pos)), c, -ArmorClassOf(o, pos));
    }
  }

  lemma UnequipKeepsInv(s: State, c: Character, pos: int)
    requires Inv(s)
    ensures Inv(UnequipFrom(s, c, pos).0)
  {
    if UnequipFrom(s, c, pos).1.Some? {
      var o := At(s, WornBy(c, pos))[0];
      assert o in At(s, WornBy(c, pos));
      DetachKeepsInv(s, o, {});
      assert {} - {o} == {};
      ArmourKeepsInv(Detach(s, o), c, ArmorClassOf(o, pos));
    }
  }

  lemma ExtractInv(s: State, o: Object, loose: set<Object>)
    requires InvBut(s, loose) && o in s.place && Elems(Contents(s, o)) !! loose
    requires s.place[o] == Nowhere ==> loose == {}
    ensures InvBut(Extract(s, o), loose - {o})
  {
    if s.place[o] == Nowhere {
      ExtractLooseEffect(s, o);
    } else {
      ExtractPlacedEffect(s, o, loose);
    }
    assert {} - {o} == {};
  }

  lemma ApplyKeepsInv(s: State, op: Op)
    requires Inv(s) && Legal(s, op)
    ensures Inv(Apply(s, op))
  {
    hide InvBut;
    match op
    case ToRoom(o, r) =>
      PlaceKeepsInv(s, o, InRoom(r));
    case ToChar(o, c) =>
      PlaceKeepsInv(s, o, CarriedBy(c));
    case ToObject(o, k) =>
      NestKeepsInv(s, o, k);
    case Equip(o, c, pos) =>
      EquipKeepsInv(s, o, c, pos);
    case Unequip(c, pos) =>
      UnequipKeepsInv(s, c, pos);
    case ExtractOp(o) =>
      ExtractInv(s, o, {});
      assert {} - {o} == {};
    case CreateOp(o) =>
      CreateKeepsInv(s, o);
  }

  lemma NestKeepsInv(s: State, o: Object, k: Object)
    requires Inv(s) && o in s.place && k in s.place
    ensures Inv(Nest(s, o, k).0)
  {
    if !Encloses(s.place, o, k) {
      NestKeepsAcyclic(s, o, k);
      MoveKeepsInv(s, o, InContainer(k), {});
      assert {} - {o} == {};
    }
  }

  /** Every run of movers keeps the invariant: each object in exactly one list, the one its
      placement names; containment acyclic; the index equal to a scan. */
  lemma {:induction false} RunKeepsInv(s: State, ops: seq<Op>)
    requires Inv(s)
    ensures Inv(Run(s, ops))
    decreases |ops|
  {
    if ops != [] {
      if Legal(s, ops[0]) {
        ApplyKeepsInv(s, ops[0]);
        RunKeepsInv(Apply(s, ops[0]), ops[1..]);
      } else {
        RunKeepsInv(s, ops[1..]);
      }
    }
  }
}
