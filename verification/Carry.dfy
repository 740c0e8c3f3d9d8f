/** The movers of the world, on the heap: one unlink, and the placements built on it. */
module Carry {
  import opened ObjectGraph
  import opened Options
  import opened Extraction

  method RemoveObject(list: seq<Object>, o: Object) returns (r: seq<Object>)
    ensures r == Without(list, o)
  {
    var i := 0;
    while i < |list|
      invariant 0 <= i <= |list|
      invariant Without(list, o) == list[..i] + Without(list[i..], o)
    {
      if list[i] == o {
        return list[..i] + list[i + 1..];
      }
      assert list[i..][1..] == list[i + 1..];
      assert list[..i] + [list[i]] == list[..i + 1];
      i := i + 1;
    }
    return list;
  }

  /** The part of the running world that knows where objects are. `Objs` and `Chars` are all the
      objects and characters there are; `View` is the object graph they make up. */
  class Live {
    var roomObjects: map<RoomVnum, seq<Object>>
    var objects: map<nat, Object>
    var objCounts: map<ObjVnum, int>
    var objectDefs: map<ObjVnum, ObjDef>
    var nextObjectID: nat
    ghost var Objs: set<Object>
    ghost var Chars: set<Character>

    /** NewLive: prototypes, and nothing made of them yet. */
    constructor (objectDefs: map<ObjVnum, ObjDef>)
      requires forall v | v in objectDefs :: objectDefs[v].vnum == v
      ensures Valid() && View() == EMPTY && this.objectDefs == objectDefs && nextObjectID == 0
    {
      hide Inv, View;
      this.objectDefs, nextObjectID := objectDefs, 0;
      roomObjects, objects, objCounts, Objs, Chars := map[], map[], map[], {}, {};
      new;
      EmptyIsSound();
      NothingYet();
    }

    lemma NothingYet()
      requires Objs == {} && Chars == {} && roomObjects == map[] && objects == map[] && objCounts == map[]
      ensures View() == EMPTY
    {
      assert Homes() == {};
      ListsAre(map[]);
    }

    ghost function ListAt(p: Placement): seq<Object>
      reads this`roomObjects, this`Objs, this`Chars, Objs`contents, Chars`carrying, Chars`equipment
    {
      match p
      case Nowhere => []
      case InRoom(r) => if r in roomObjects then roomObjects[r] else []
      case CarriedBy(c) => if c in Chars then c.carrying else []
      case WornBy(c, at) =>
        if c in Chars && 0 <= at < NUM_WEARS && at < |c.equipment| && c.equipment[at] != null then [c.equipment[at]] else []
      case InContainer(k) => if k in Objs then k.contents else []
    }

    ghost function Homes(): set<Placement>
      reads this`roomObjects, this`Objs, this`Chars
    {
      (set r | r in roomObjects :: InRoom(r)) +
      (set c | c in Chars :: CarriedBy(c)) +
      (set c, i | c in Chars && 0 <= i < NUM_WEARS :: WornBy(c, i)) +
      (set k | k in Objs :: InContainer(k))
    }

    ghost function Lists(): map<Placement, seq<Object>>
      reads this`roomObjects, this`Objs, this`Chars, Objs`contents, Chars`carrying, Chars`equipment
    {
      map p | p in Homes() && ListAt(p) != [] :: ListAt(p)
    }

    ghost function View(): State
      reads this, Objs`placement, Objs`contents, Chars`carrying, Chars`equipment, Chars`record
    {
      State(map o | o in Objs :: o.placement, Lists(), map c | c in Chars :: c.record, objects, objCounts)
    }

    /** Placements name things of this world, and a body has NUM_WEARS slots. */
    ghost predicate Heap()
      reads this`Objs, this`Chars, Objs`placement, Chars`equipment
    {
      && (forall c | c in Chars :: |c.equipment| == NUM_WEARS)
      && forall o | o in Objs ::
           match o.placement
           case CarriedBy(c) => c in Chars
           case WornBy(c, at) => c in Chars && 0 <= at < NUM_WEARS
           case InContainer(k) => k in Objs
           case _ => true
    }

    /** Ids are handed out in order, and prototypes are filed under their own number. */
    ghost predicate Numbered()
      reads this`Objs, this`nextObjectID, this`objectDefs
    {
      && (forall o | o in Objs :: o.id <= nextObjectID)
      && forall v | v in objectDefs :: objectDefs[v].vnum == v
    }

    ghost predicate Valid()
      reads this, Objs`placement, Objs`contents, Chars`carrying, Chars`equipment, Chars`record
    {
      Heap() && Inv(View()) && Numbered()
    }

    lemma ListsAre(w: map<Placement, seq<Object>>)
      requires Canonical(w)
      requires forall q | q in w.Keys + Homes() :: Listed(w, q) == ListAt(q)
      ensures Lists() == w
    {
      forall q | q in w ensures q in Homes() && ListAt(q) == w[q] {
        assert Listed(w, q) == ListAt(q);
      }
      SameLists(Lists(), w);
    }

    /** What the view shows of the heap, for proofs that need no more than this of it. */
    lemma Sees()
      ensures View().place.Keys == Objs && View().records.Keys == Chars
      ensures forall o | o in Objs :: View().place[o] == o.placement
      ensures forall c | c in Chars :: View().records[c] == c.record
    {
    }

    lemma ListedAt(p: Placement)
      ensures Listed(Lists(), p) == ListAt(p) && At(View(), p) == ListAt(p)
    {
      if ListAt(p) != [] {
        assert p in Homes();
      }
    }

    lemma ContentsSeen(o: Object)
      requires o in Objs
      ensures At(View(), InContainer(o)) == o.contents
    {
      ListedAt(InContainer(o));
    }

    /** The map of lists after the one at p has become l and no other has changed. */
    lemma ListsBecome(before: map<Placement, seq<Object>>, p: Placement, l: seq<Object>)
      requires Canonical(before) && p != Nowhere
      requires forall q | q in before.Keys + Homes() + {p} :: ListAt(q) == if q == p then l else Listed(before, q)
      ensures Lists() == Put(before, p, l)
    {
      ListsAre(Put(before, p, l));
    }

    function FloorOf(room: RoomVnum): seq<Object>
      reads this`roomObjects
    {
      if room in roomObjects then roomObjects[room] else []
    }

    method WriteFloor(room: RoomVnum, l: seq<Object>)
      modifies this`roomObjects
      ensures forall r :: FloorOf(r) == if r == room then l else old(FloorOf(r))
      ensures roomObjects.Keys <= old(roomObjects).Keys + {room}
    {
      roomObjects := roomObjects[room := l];
      if roomObjects[room] == [] {
        roomObjects := roomObjects - {room};
      }
    }

    method SetFloor(room: RoomVnum, l: seq<Object>)
      modifies this`roomObjects
      ensures View() == old(View()).(lists := Put(old(View()).lists, InRoom(room), l))
    {
      ghost var before := Lists();
      forall q ensures Listed(before, q) == ListAt(q) { ListedAt(q); }
      WriteFloor(room, l);
      forall q ensures ListAt(q) == if q == InRoom(room) then l else Listed(before, q) {
        assert q.InRoom? ==> ListAt(q) == FloorOf(q.room);
      }
      ListsBecome(before, InRoom(room), l);
    }

    method SetCarrying(c: Character, l: seq<Object>)
      requires c in Chars
      modifies c`carrying
      ensures View() == old(View()).(lists := Put(old(View()).lists, CarriedBy(c), l))
      ensures forall d | d in Chars && d != c :: d.carrying == old(d.carrying)
    {
      ghost var before := Lists();
      forall q ensures Listed(before, q) == ListAt(q) { ListedAt(q); }
      c.carrying := l;
      ListsBecome(before, CarriedBy(c), l);
    }

    method SetSlot(c: Character, at: int, o: Object?)
      requires c in Chars && 0 <= at < NUM_WEARS == |c.equipment|
      modifies c`equipment
      ensures c.equipment == old(c.equipment)[at := o]
      ensures View() == old(View()).(lists := Put(old(View()).lists, WornBy(c, at), if o == null then [] else [o]))
    {
      hide Put;
      ghost var before := Lists();
      forall q ensures Listed(before, q) == ListAt(q) { ListedAt(q); }
      c.equipment := c.equipment[at := o];
      ListsBecome(before, WornBy(c, at), if o == null then [] else [o]);
    }

    method SetContents(k: Object, l: seq<Object>)
      requires k in Objs
      modifies k`contents
      ensures View() == old(View()).(lists := Put(old(View()).lists, InContainer(k), l))
    {
      ghost var before := Lists();
      forall q ensures Listed(before, q) == ListAt(q) { ListedAt(q); }
      k.contents := l;
      ListsBecome(before, InContainer(k), l);
    }

    method SetPlacement(o: Object, p: Placement)
      requires o in Objs
      modifies o`placement
      ensures o.placement == p
      ensures View() == old(View()).(place := old(View()).place[o := p])
    {
      o.placement := p;
    }

    /** Takes o out of the list its placement names, leaving the placement. */
    method Unlink(o: Object)
      requires Heap() && o in Objs
      modifies this`roomObjects, Objs`contents, Chars`carrying, Chars`equipment
      ensures Heap()
      ensures View() == if o.placement == Nowhere then old(View())
                        else old(View()).(lists := Put(old(View()).lists, o.placement, Without(At(old(View()), o.placement), o)))
    {
      ListedAt(o.placement);
      match o.placement {
        case InRoom(room) =>
          var l := RemoveObject(FloorOf(room), o);
          SetFloor(room, l);
        case CarriedBy(holder) =>
          var l := RemoveObject(holder.carrying, o);
          SetCarrying(holder, l);
        case WornBy(holder, at) =>
          if holder.equipment[at] == o {
            SetSlot(holder, at, null);
            assert Without([o], o) == [];
          } else {
            PutSame(Lists(), o.placement, o);
          }
        case InContainer(container) =>
          var l := RemoveObject(container.contents, o);
          SetContents(container, l);
        case Nowhere =>
      }
    }

    method Detach(o: Object?)
      requires Heap() && (o != null ==> o in Objs)
      modifies this`roomObjects, Objs`placement, Objs`contents, Chars`carrying, Chars`equipment
      ensures Heap()
      ensures View() == if o == null then old(View()) else ObjectGraph.Detach(old(View()), o)
    {
      if o == null {
        return;
      }
      Unlink(o);
      SetPlacement(o, Nowhere);
    }

    // ----- making ---------------------------------------------------------

    method MakeObject(def: ObjDef?) returns (o: Object)
      requires Heap() && Numbered()
      modifies this`nextObjectID, this`Objs
      ensures Heap() && Numbered() && fresh(o) && Objs == old(Objs) + {o} && nextObjectID == old(nextObjectID) + 1
      ensures o.def == def && o.id == nextObjectID && o.contents == [] && o.coins == None && !o.isCorpse
      ensures Unused(old(View()), o) && View() == Create(old(View()), o)
    {
      nextObjectID := nextObjectID + 1;
      o := new Object(nextObjectID, def);
      Admit(o);
    }

    ghost method Admit(o: Object)
      requires Heap() && o !in Objs && o.placement == Nowhere && o.contents == []
      modifies this`Objs
      ensures Heap() && Objs == old(Objs) + {o} && View() == Create(old(View()), o)
    {
      ghost var before := Lists();
      forall q ensures Listed(before, q) == ListAt(q) { ListedAt(q); }
      Objs := Objs + {o};
      ListsAre(before);
    }

    /** A new body comes into the world, carrying and wearing nothing. */
    ghost method Welcome(c: Character)
      requires Heap() && c !in Chars && c.carrying == [] && c.equipment == seq(NUM_WEARS, _ => null)
      modifies this`Chars
      ensures Heap() && Chars == old(Chars) + {c}
      ensures View() == old(View()).(records := old(View()).records[c := c.record])
    {
      ghost var before := Lists();
      forall q ensures Listed(before, q) == ListAt(q) { ListedAt(q); }
      Chars := Chars + {c};
      ListsAre(before);
    }

    /** NewObject: nil when the world has no such prototype. */
    method NewObject(vnum: ObjVnum) returns (o: Object?)
      requires Valid()
      modifies this`nextObjectID, this`Objs
      ensures Valid()
      ensures vnum !in objectDefs ==> o == null && Objs == old(Objs) && View() == old(View())
      ensures vnum in objectDefs ==>
                && o != null && fresh(o) && Objs == old(Objs) + {o} && o.Vnum() == vnum
                && Unused(old(View()), o) && View() == Create(old(View()), o)
    {
      if vnum !in objectDefs {
        return null;
      }
      ghost var s := View();
      o := MakeObject(objectDefs[vnum]);
      CreateKeepsInv(s, o);
    }

    method NewBareObject() returns (o: Object)
      requires Valid()
      modifies this`nextObjectID, this`Objs
      ensures Valid() && fresh(o) && Objs == old(Objs) + {o} && o.Vnum() == NO_OBJECT
      ensures o.contents == [] && o.coins == None && !o.isCorpse
      ensures Unused(old(View()), o) && View() == Create(old(View()), o)
    {
      ghost var s := View();
      o := MakeObject(null);
      CreateKeepsInv(s, o);
    }

    // ----- linking at the head --------------------------------------------

    method LinkInRoom(o: Object, room: RoomVnum)
      requires Heap() && o in Objs
      modifies this`roomObjects, o`placement
      ensures Heap() && View() == Attach(old(View()), o, InRoom(room))
    {
      ListedAt(InRoom(room));
      SetPlacement(o, InRoom(room));
      SetFloor(room, [o] + FloorOf(room));
    }

    method LinkInHands(o: Object, c: Character)
      requires Heap() && o in Objs && c in Chars
      modifies o`placement, c`carrying
      ensures Heap() && View() == Attach(old(View()), o, CarriedBy(c))
    {
      ListedAt(CarriedBy(c));
      SetPlacement(o, CarriedBy(c));
      SetCarrying(c, [o] + c.carrying);
    }

    method LinkInContainer(o: Object, k: Object)
      requires Heap() && o in Objs && k in Objs
      modifies o`placement, k`contents
      ensures Heap() && View() == Attach(old(View()), o, InContainer(k))
    {
      ListedAt(InContainer(k));
      SetPlacement(o, InContainer(k));
      SetContents(k, [o] + k.contents);
    }

    method LinkInSlot(o: Object, c: Character, at: int)
      requires Heap() && o in Objs && c in Chars && 0 <= at < NUM_WEARS && c.equipment[at] == null
      modifies o`placement, c`equipment
      ensures Heap() && View() == Attach(old(View()), o, WornBy(c, at))
    {
      ListedAt(WornBy(c, at));
      SetPlacement(o, WornBy(c, at));
      assert [o] + [] == [o];
      SetSlot(c, at, o);
    }

    // ----- the object table -----------------------------------------------

    method Track(o: Object)
      requires o in Objs
      modifies this`objects, this`objCounts
      ensures View() == ObjectGraph.Track(old(View()), o)
    {
      if o.id in objects {
        return;
      }
      objects := objects[o.id := o];
      objCounts := objCounts[o.Vnum() := CountOf(objCounts, o.Vnum()) + 1];
    }

    method Untrack(o: Object)
      requires o in Objs
      modifies this`objects, this`objCounts
      ensures View() == ObjectGraph.Untrack(old(View()), o)
    {
      if o.id !in objects {
        return;
      }
      objects := objects - {o.id};
      objCounts := objCounts[o.Vnum() := CountOf(objCounts, o.Vnum()) - 1];
    }

    // ----- placing --------------------------------------------------------

    method ObjectToRoom(o: Object?, room: RoomVnum)
      requires Heap() && (o != null ==> o in Objs)
      modifies this`roomObjects, this`objects, this`objCounts
      modifies Objs`placement, Objs`contents, Chars`carrying, Chars`equipment
      ensures Heap()
      ensures View() == if o == null then old(View()) else Move(old(View()), o, InRoom(room))
      ensures old(Inv(View())) ==> Inv(View())
    {
      hide Inv, View;
      if o == null {
        return;
      }
      Sees();
      if Inv(View()) { PlaceKeepsInv(View(), o, InRoom(room)); }
      Detach(o);
      LinkInRoom(o, room);
      Track(o);
    }

    method ObjectToChar(o: Object?, c: Character?)
      requires Heap() && (o != null ==> o in Objs) && (c != null ==> c in Chars)
      modifies this`roomObjects, this`objects, this`objCounts
      modifies Objs`placement, Objs`contents, Chars`carrying, Chars`equipment
      ensures Heap()
      ensures View() == if o == null || c == null then old(View()) else Move(old(View()), o, CarriedBy(c))
      ensures old(Inv(View())) ==> Inv(View())
    {
      hide Inv, View;
      if o == null || c == null {
        return;
      }
      Sees();
      if Inv(View()) { PlaceKeepsInv(View(), o, CarriedBy(c)); }
      Detach(o);
      LinkInHands(o, c);
      Track(o);
    }

    /** Whether o is the container or around it, found by walking up. */
    method IsAround(o: Object, container: Object) returns (found: bool)
      requires Heap() && o in Objs && container in Objs && Acyclic(View().place)
      ensures found <==> Encloses(View().place, o, container)
    {
      ghost var place := View().place;
      ghost var rank: map<nat, nat> :| Ranked(place, rank);
      ghost var top := RankBound(rank);
      var above: Object? := container;
      ghost var n: nat := 0;
      while above != null
        invariant above != null ==> above in Objs && Around(place, container, n) == Some(above)
        invariant above == null ==> Around(place, container, n) == None
        invariant forall i: nat | i < n :: Around(place, container, i) != Some(o)
        decreases if above == null then 0 else top - rank[above.id] + 1
      {
        if above == o {
          return true;
        }
        ghost var below := above;
        above := match above.placement case InContainer(k) => k case _ => null;
        assert above != null ==> rank[below.id] < rank[above.id] by {
          assert below in place && place[below] == below.placement;
        }
        n := n + 1;
      }
      forall m: nat ensures Around(place, container, m) != Some(o) {
        if n <= m { AroundStops(place, container, n, m); }
      }
      return false;
    }

    /** The last three lines of ObjectToObject, past its refusals. */
    method PutInside(o: Object, container: Object)
      requires Heap() && o in Objs && container in Objs
      modifies this`roomObjects, this`objects, this`objCounts
      modifies Objs`placement, Objs`contents, Chars`carrying, Chars`equipment
      ensures Heap() && View() == Move(old(View()), o, InContainer(container))
    {
      Detach(o);
      LinkInContainer(o, container);
      Track(o);
    }

    method ObjectToObject(o: Object?, container: Object?) returns (ok: bool)
      requires Heap() && (o != null ==> o in Objs) && (container != null ==> container in Objs)
      requires Acyclic(View().place)
      modifies this`roomObjects, this`objects, this`objCounts
      modifies Objs`placement, Objs`contents, Chars`carrying, Chars`equipment
      ensures Heap()
      ensures ok == (o != null && container != null && !Encloses(old(View()).place, o, container))
      ensures View() == if o == null || container == null then old(View()) else Nest(old(View()), o, container).0
      ensures old(Inv(View())) ==> Inv(View())
    {
      hide Inv, View, Move;
      if o == null || container == null {
        return false;
      }
      Sees();
      if Inv(View()) { NestKeepsInv(View(), o, container); }
      var around := IsAround(o, container);
      if o == container || around {
        assert Around(View().place, container, 0) == Some(container);
        return false;
      }
      PutInside(o, container);
      return true;
    }

    // ----- wearing --------------------------------------------------------

    method AddArmour(c: Character, d: int)
      requires Heap() && c in Chars
      modifies c`record
      ensures View() == Armour(old(View()), c, d)
    {
      if c.record.Some? {
        c.record := Some(c.record.value.(realArmor := c.record.value.realArmor + d));
      }
    }

    method Equip(o: Object?, c: Character?, pos: int) returns (ok: bool)
      requires Heap() && Inv(View()) && (o != null ==> o in Objs) && (c != null ==> c in Chars)
      modifies this`roomObjects, this`objects, this`objCounts
      modifies Objs`placement, Objs`contents, Chars`carrying, Chars`equipment, Chars`record
      ensures Heap() && Inv(View())
      ensures View() == if o == null || c == null then old(View()) else EquipOn(old(View()), o, c, pos).0
      ensures ok == (o != null && c != null && EquipOn(old(View()), o, c, pos).1)
    {
      hide Inv, View, Move, Armour;
      if o == null || c == null || pos < 0 || pos >= NUM_WEARS {
        return false;
      }
      ListedAt(WornBy(c, pos));
      if c.equipment[pos] != null {
        return false;
      }
      Sees();
      EquipKeepsInv(View(), o, c, pos);
      PutOn(o, c, pos);
      AddArmour(c, -ArmorClassOf(o, pos));
      return true;
    }

    method PutOn(o: Object, c: Character, pos: int)
      requires Heap() && o in Objs && c in Chars && 0 <= pos < NUM_WEARS && c.equipment[pos] == null
      modifies this`roomObjects, this`objects, this`objCounts
      modifies Objs`placement, Objs`contents, Chars`carrying, Chars`equipment
      ensures Heap() && View() == Move(old(View()), o, WornBy(c, pos))
    {
      ListedAt(WornBy(c, pos));
      ghost var s := View();
      Detach(o);
      ListedAt(WornBy(c, pos));
      ListedPut(s.lists, s.place[o], Without(At(s, s.place[o]), o), WornBy(c, pos));
      LinkInSlot(o, c, pos);
      Track(o);
    }

    lemma WornIsKnown(c: Character, pos: int)
      requires Heap() && Inv(View()) && c in Chars && 0 <= pos < NUM_WEARS && c.equipment[pos] != null
      ensures c.equipment[pos] in Objs
    {
      Sees();
      ListedAt(WornBy(c, pos));
      OnePlaced(View(), c.equipment[pos], WornBy(c, pos));
    }

    method Unequip(c: Character?, pos: int) returns (o: Object?)
      requires Heap() && Inv(View()) && (c != null ==> c in Chars)
      modifies this`roomObjects, Objs`placement, Objs`contents, Chars`carrying, Chars`equipment, Chars`record
      ensures Heap()
      ensures c == null ==> o == null && View() == old(View())
      ensures c != null ==> View() == UnequipFrom(old(View()), c, pos).0
      ensures c != null ==> UnequipFrom(old(View()), c, pos).1 == if o == null then None else Some(o)
      ensures Inv(View())
    {
      hide Inv, View, ObjectGraph.Detach, Armour;
      if c == null || pos < 0 || pos >= NUM_WEARS {
        return null;
      }
      o := c.equipment[pos];
      ListedAt(WornBy(c, pos));
      if o == null {
        return null;
      }
      UnequipKeepsInv(View(), c, pos);
      WornIsKnown(c, pos);
      Detach(o);
      AddArmour(c, ArmorClassOf(o, pos));
    }

    // ----- destroying -----------------------------------------------------

    /** `loose` are the objects a surrounding extraction has taken out of their list already. */
    method ExtractObject(o: Object?, ghost loose: set<Object> := {})
      requires Heap() && InvBut(View(), loose) && (o != null ==> o in Objs)
      requires o != null && o.placement == Nowhere ==> loose == {}
      requires o != null ==> Elems(o.contents) !! loose
      modifies this`roomObjects, this`objects, this`objCounts
      modifies Objs`placement, Objs`contents, Chars`carrying, Chars`equipment
      ensures Heap()
      ensures View() == if o == null then old(View()) else Extract(old(View()), o)
      ensures InvBut(View(), if o == null then loose else loose - {o})
      ensures o != null && old(o.placement) != Nowhere ==>
                Beside(old(o.placement)) == Reverse<Object>(old(o.contents)) + Without<Object>(old(Beside(o.placement)), o)
      decreases o != null && o.placement == Nowhere, 2
    {
      hide InvBut, View, Heap, Emptying, ObjectGraph.Detach, ObjectGraph.Untrack, Extract, Beside, Without, Reverse, Contents;
      if o == null {
        return;
      }
      ghost var s := View();
      Sees();
      BesideBefore(o, loose);
      ContentsShown(o);
      ghost var p, here := o.placement, Beside(o.placement);
      ExtractInv(s, o, loose);
      var contents := o.contents;
      StartsEmptying(s, o);
      SetContents(o, []);
      RehomeAll(s, o, contents, loose);
      Detach(o);
      Untrack(o);
      ExtractIs(s, o);
      if s.place[o] != Nowhere {
        BesideAfter(s, o, loose, p, here);
      }
    }

    /** What is on the floor, in the hands or in the container that p is in; worn is in nobody's hands,
        but the wearer has hands. */
    function Beside(p: Placement): seq<Object>
      reads this`roomObjects
      reads if p.CarriedBy? || p.WornBy? then {p.holder} else {}
      reads if p.InContainer? then {p.container} else {}
    {
      match p
      case Nowhere => []
      case InRoom(r) => FloorOf(r)
      case CarriedBy(c) => c.carrying
      case WornBy(c, _) => c.carrying
      case InContainer(k) => k.contents
    }

    /** What is around p is what s has there. */
    lemma BesideIs(s: State, p: Placement)
      requires Known(s, p) && p != Nowhere && View().lists == s.lists && Objs == s.place.Keys && Chars == s.records.Keys
      ensures Beside(p) == At(s, if p.WornBy? then CarriedBy(p.holder) else p)
    {
      hide View;
      ListedAt(if p.WornBy? then CarriedBy(p.holder) else p);
    }

    lemma ContentsShown(o: Object)
      requires o in Objs
      ensures Contents(View(), o) == o.contents
    {
      hide View;
      ListedAt(InContainer(o));
    }

    lemma BesideBefore(o: Object, loose: set<Object>)
      requires o in Objs && InvBut(View(), loose)
      ensures o.placement != Nowhere ==>
                Beside(o.placement) == At(View(), if o.placement.WornBy? then CarriedBy(o.placement.holder) else o.placement)
    {
      KnownPlace(View(), o, loose);
      hide InvBut, View;
      Sees();
      if o.placement != Nowhere { BesideIs(View(), o.placement); }
    }

    /** The same once o, which was at p, has been extracted: its contents in front, turned round. */
    lemma BesideAfter(s: State, o: Object, loose: set<Object>, p: Placement, here: seq<Object>)
      requires InvBut(s, loose) && o in s.place && s.place[o] != Nowhere && Elems(Contents(s, o)) !! loose
      requires View() == Extract(s, o)
      requires p == s.place[o] && here == At(s, if p.WornBy? then CarriedBy(p.holder) else p)
      ensures Beside(p) == Reverse(Contents(s, o)) + Without(here, o)
    {
      KnownPlace(s, o, loose);
      if s.place[o].WornBy? { WornAlone(s, o, loose); }
      hide InvBut, Extract, Reverse, Without;
      ContentsLand(s, o, loose);
      ExtractKeepsKeys(s, o, loose);
      Sees();
      hide View;
      BesideIs(Extract(s, o), s.place[o]);
    }

    method RehomeAll(ghost s: State, o: Object, contents: seq<Object>, ghost loose: set<Object>)
      requires Heap() && InvBut(s, loose) && o in Objs && o in s.place && (s.place[o] == Nowhere ==> loose == {})
      requires contents == Contents(s, o) && View() == Emptying(s, o, [])
      modifies this`roomObjects, this`objects, this`objCounts
      modifies Objs`placement, Objs`contents, Chars`carrying, Chars`equipment
      ensures Heap() && View() == Emptying(s, o, contents)
      decreases s.place[o] == Nowhere, 1
    {
      hide InvBut, View, Heap, Emptying;
      assert contents[..0] == [];
      for i := 0 to |contents|
        invariant Heap() && View() == Emptying(s, o, contents[..i])
      {
        assert contents[..i] + [contents[i]] == contents[..i + 1] <= contents;
        Rehome(s, o, contents[..i], contents[i], loose);
      }
      assert contents[..|contents|] == contents;
    }

    /** The switch on o's placement: sends the next of its contents where they belong. */
    method Rehome(ghost s: State, o: Object, ghost done: seq<Object>, inside: Object, ghost loose: set<Object>)
      requires Heap() && InvBut(s, loose) && o in Objs && o in s.place && (s.place[o] == Nowhere ==> loose == {})
      requires done + [inside] <= Contents(s, o) && View() == Emptying(s, o, done)
      modifies this`roomObjects, this`objects, this`objCounts
      modifies Objs`placement, Objs`contents, Chars`carrying, Chars`equipment
      ensures Heap() && View() == Emptying(s, o, done + [inside])
      decreases s.place[o] == Nowhere, 0
    {
      hide InvBut, Move, Homes, Lists;
      var kids := done + [inside];
      assert kids[..|kids| - 1] == done;
      if s.place[o] == Nowhere {
        ExtractingOn(s, o, done, inside);
      } else {
        SpillingOn(s, o, loose, done, inside);
      }
      match o.placement {
        case InRoom(room) => ObjectToRoom(inside, room);
        case CarriedBy(holder) => ObjectToChar(inside, holder);
        case WornBy(holder, _) => ObjectToChar(inside, holder);
        case InContainer(container) => var ok := ObjectToObject(inside, container);
        case Nowhere =>
          ListedAt(InContainer(inside));
          ExtractObject(inside, Elems(Contents(s, o)) - Elems(done));
      }
    }
  }

  lemma ExtractIs(s: State, o: Object)
    ensures Extract(s, o) == ObjectGraph.Untrack(ObjectGraph.Detach(Emptying(s, o, Contents(s, o)), o), o)
  {
  }

  lemma ExtractKeepsKeys(s: State, o: Object, loose: set<Object>)
    requires InvBut(s, loose) && o in s.place && s.place[o] != Nowhere && Elems(Contents(s, o)) !! loose
    ensures var t := Extract(s, o); t.place.Keys == s.place.Keys && t.records == s.records && Known(t, s.place[o])
  {
    KnownPlace(s, o, loose);
    hide InvBut, Extract;
    ExtractedPlaced(s, o, loose);
  }

  lemma KnownPlace(s: State, o: Object, loose: set<Object>)
    requires InvBut(s, loose) && o in s.place
    ensures Known(s, s.place[o])
  {
  }

  lemma {:induction false} RankBound(rank: map<nat, nat>) returns (top: nat)
    ensures forall id | id in rank :: rank[id] <= top
    decreases |rank|
  {
    if rank == map[] {
      top := 0;
    } else {
      var id :| id in rank;
      var rest := rank - {id};
      assert rest.Keys == rank.Keys - {id};
      assert |rest.Keys| == |rest| && |rank.Keys| == |rank|;
      top := RankBound(rest);
      if rank[id] > top {
        top := rank[id];
      }
      forall x | x in rank ensures rank[x] <= top {
        assert x != id ==> x in rest;
      }
    }
  }

  lemma PutSame(lists: map<Placement, seq<Object>>, p: Placement, o: Object)
    requires Canonical(lists) && o !in Listed(lists, p)
    ensures Put(lists, p, Without(Listed(lists, p), o)) == lists
  {
    WithoutAbsent(Listed(lists, p), o);
  }

  lemma IsValid(l: Live)
    requires l.Heap() && l.Numbered() && Inv(l.View())
    ensures l.Valid() && Acyclic(l.View().place)
  {
  }

  lemma IsWhole(l: Live)
    requires l.Valid()
    ensures l.Heap() && l.Numbered() && Inv(l.View())
  {
  }
}
