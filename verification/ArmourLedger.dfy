/** The books Equip and Unequip keep: a character's own armour figure plus what everything worn is
    worth does not change, except when something worn is moved without being taken off. */
module ArmourLedger {
  import opened ObjectGraph
  import opened Options
  import opened Extraction
  import opened Belongings

  /** What c's armour figure would be with everything taken off. */
  function Bare(s: State, c: Character): int
    requires c in s.records && s.records[c].Some?
  {
    s.records[c].value.realArmor + WornArmour(s, c, NUM_WEARS)
  }

  /** What o is worth to c where it is now. */
  function WornWorth(s: State, o: Object, c: Character): int {
    match PlaceOf(s, o)
    case WornBy(d, at) => if d == c then ArmorClassOf(o, at) else 0
    case _ => 0
  }

  /** The object a call takes from where it is, other than by Unequip; none when it is refused. */
  ghost function Taken(s: State, op: Op): Option<Object> {
    match op
    case ToRoom(o, _) => Some(o)
    case ToChar(o, _) => Some(o)
    case ToObject(o, k) => if Nest(s, o, k).1 then Some(o) else None
    case Equip(o, c, pos) => if EquipOn(s, o, c, pos).1 then Some(o) else None
    case Unequip(_, _) => None
    case ExtractOp(o) => Some(o)
    case CreateOp(_) => None
  }

  /** What one call costs c: the worth of what it was wearing, never given back. */
  ghost function Lost(s: State, op: Op, c: Character): int {
    match Taken(s, op)
    case None => 0
    case Some(o) => WornWorth(s, o, c)
  }

  function SlotWorth(s: State, c: Character, i: int): int {
    var worn := At(s, WornBy(c, i));
    if worn == [] then 0 else ArmorClassOf(worn[0], i)
  }

  lemma SlotHolds(s: State, c: Character, i: int, o: Object)
    requires Inv(s) && o in s.place && s.place[o] == WornBy(c, i)
    ensures 0 <= i < NUM_WEARS && At(s, WornBy(c, i)) == [o]
  {
    assert Known(s, s.place[o]);
    assert o in At(s, s.place[o]);
    OneInSlot(s, c, i);
  }

  lemma SlotEmpty(s: State, c: Character, i: int)
    requires Inv(s) && forall x | x in s.place :: s.place[x] != WornBy(c, i)
    ensures At(s, WornBy(c, i)) == []
  {
    assert Elems(At(s, WornBy(c, i))) == {} by {
      forall x | x in At(s, WornBy(c, i)) ensures false {
        OnePlaced(s, x, WornBy(c, i));
      }
    }
    NoElems(At(s, WornBy(c, i)));
  }

  /** A slot that the same object, or nothing, occupies in two graphs has the same list in both. */
  lemma SlotSame(s: State, t: State, c: Character, i: int)
    requires Inv(s) && Inv(t)
    requires forall x | x in s.place.Keys + t.place.Keys :: PlaceOf(s, x) == WornBy(c, i) <==> PlaceOf(t, x) == WornBy(c, i)
    ensures At(s, WornBy(c, i)) == At(t, WornBy(c, i))
  {
    hide Inv;
    if x :| x in s.place && s.place[x] == WornBy(c, i) {
      SlotHolds(s, c, i, x);
      assert PlaceOf(t, x) == WornBy(c, i);
      SlotHolds(t, c, i, x);
    } else {
      SlotEmpty(s, c, i);
      forall x | x in t.place ensures t.place[x] != WornBy(c, i) {
        assert PlaceOf(t, x) == t.place[x];
      }
      SlotEmpty(t, c, i);
    }
  }

  /** When the worth of two slots, at most, changes, the total changes by as much. */
  lemma {:induction false} WornArmourShift(s: State, t: State, c: Character, j: int, k: int, n: nat)
    requires forall i | 0 <= i < n && i != j && i != k :: SlotWorth(t, c, i) == SlotWorth(s, c, i)
    ensures WornArmour(t, c, n) - WornArmour(s, c, n) ==
            (if 0 <= j < n then SlotWorth(t, c, j) - SlotWorth(s, c, j) else 0) +
            (if 0 <= k < n && k != j then SlotWorth(t, c, k) - SlotWorth(s, c, k) else 0)
  {
    if n > 0 {
      WornArmourShift(s, t, c, j, k, n - 1);
      assert n - 1 != j && n - 1 != k ==> SlotWorth(t, c, n - 1) == SlotWorth(s, c, n - 1);
    }
  }

  /** The slot c wears o in, or -1. */
  function SlotOf(s: State, o: Object, c: Character): int {
    match PlaceOf(s, o)
    case WornBy(d, at) => if d == c then at else -1
    case _ => -1
  }

  ghost predicate OnlyMoved(s: State, t: State, c: Character, o: Object) {
    forall x | x in s.place.Keys + t.place.Keys && x != o :: SlotOf(s, x, c) == SlotOf(t, x, c)
  }

  lemma SlotUntouched(s: State, t: State, c: Character, o: Object, i: int)
    requires Inv(s) && Inv(t) && OnlyMoved(s, t, c, o) && 0 <= i < NUM_WEARS
    requires i != SlotOf(s, o, c) && i != SlotOf(t, o, c)
    ensures At(s, WornBy(c, i)) == At(t, WornBy(c, i))
  {
    hide Inv;
    forall x | x in s.place.Keys + t.place.Keys
      ensures PlaceOf(s, x) == WornBy(c, i) <==> PlaceOf(t, x) == WornBy(c, i)
    {
      assert PlaceOf(s, x) == WornBy(c, i) <==> SlotOf(s, x, c) == i;
      assert PlaceOf(t, x) == WornBy(c, i) <==> SlotOf(t, x, c) == i;
    }
    SlotSame(s, t, c, i);
  }

  lemma SlotVacated(s: State, t: State, c: Character, o: Object)
    requires Inv(s) && Inv(t) && OnlyMoved(s, t, c, o) && SlotOf(s, o, c) != -1 && SlotOf(t, o, c) != SlotOf(s, o, c)
    ensures At(t, WornBy(c, SlotOf(s, o, c))) == [] && SlotWorth(s, c, SlotOf(s, o, c)) == WornWorth(s, o, c)
    ensures 0 <= SlotOf(s, o, c) < NUM_WEARS
  {
    var i := SlotOf(s, o, c);
    SlotHolds(s, c, i, o);
    hide Inv;
    forall x | x in t.place ensures t.place[x] != WornBy(c, i) {
      assert t.place[x] == WornBy(c, i) ==> SlotOf(t, x, c) == i;
      if x != o { SlotOnce(s, c, i, o, x); }
    }
    SlotEmpty(t, c, i);
  }

  /** Two things are not worn in one slot. */
  lemma SlotOnce(s: State, c: Character, i: int, o: Object, x: Object)
    requires Inv(s) && o in s.place && s.place[o] == WornBy(c, i) && x != o
    ensures SlotOf(s, x, c) != i || i == -1
  {
    if x in s.place && s.place[x] == WornBy(c, i) {
      SlotHolds(s, c, i, o);
      SlotHolds(s, c, i, x);
    }
  }

  lemma NoSlotNoWorth(s: State, o: Object, c: Character)
    requires Inv(s)
    ensures SlotOf(s, o, c) == -1 ==> WornWorth(s, o, c) == 0
  {
    if o in s.place {
      assert Known(s, s.place[o]);
    }
  }

  lemma WorthShift(s: State, t: State, c: Character, o: Object)
    requires Inv(s) && Inv(t) && OnlyMoved(s, t, c, o) && OnlyMoved(t, s, c, o)
    ensures WornArmour(t, c, NUM_WEARS) - WornArmour(s, c, NUM_WEARS) == WornWorth(t, o, c) - WornWorth(s, o, c)
  {
    NoSlotNoWorth(s, o, c);
    NoSlotNoWorth(t, o, c);
    hide Inv, OnlyMoved;
    var j, k := SlotOf(s, o, c), SlotOf(t, o, c);
    forall i | 0 <= i < NUM_WEARS && i != j && i != k ensures SlotWorth(t, c, i) == SlotWorth(s, c, i) {
      SlotUntouched(s, t, c, o, i);
    }
    WornArmourShift(s, t, c, j, k, NUM_WEARS);
    if j != k {
      if j != -1 { SlotVacated(s, t, c, o); }
      if k != -1 { SlotVacated(t, s, c, o); }
    } else if j != -1 {
      SlotHolds(s, c, j, o);
      SlotHolds(t, c, j, o);
    }
  }

  ghost predicate Recorded(s: State, c: Character) {
    c in s.records && s.records[c].Some?
  }

  /** A call that changes no armour figure itself moves o to p, and perhaps other things between
      places that are not slots. */
  lemma MovedBare(s: State, t: State, c: Character, o: Object)
    requires Inv(s) && Inv(t) && Recorded(s, c) && t.records == s.records
    requires OnlyMoved(s, t, c, o) && OnlyMoved(t, s, c, o) && !PlaceOf(t, o).WornBy?
    ensures Bare(t, c) == Bare(s, c) - WornWorth(s, o, c)
  {
    hide Inv, OnlyMoved;
    WorthShift(s, t, c, o);
  }

  lemma OnlyOne(s: State, t: State, c: Character, o: Object, p: Placement)
    requires t.place == s.place[o := p]
    ensures OnlyMoved(s, t, c, o) && OnlyMoved(t, s, c, o)
  {
  }

  lemma EquipBare(s: State, o: Object, d: Character, pos: int, c: Character)
    requires Inv(s) && o in s.place && d in s.records && EquipOn(s, o, d, pos).1 && Recorded(s, c)
    ensures var t := EquipOn(s, o, d, pos).0;
      Recorded(t, c) && Bare(t, c) == Bare(s, c) - WornWorth(s, o, c)
  {
    hide Inv, OnlyMoved, Move;
    var u, t := Move(s, o, WornBy(d, pos)), EquipOn(s, o, d, pos).0;
    EquipKeepsInv(s, o, d, pos);
    MovedPlace(s, o, WornBy(d, pos));
    MoveRecords(s, o, WornBy(d, pos));
    ArmourChanges(u, d, -ArmorClassOf(o, pos));
    OnlyOne(s, t, c, o, WornBy(d, pos));
    WorthShift(s, t, c, o);
  }

  lemma MoveRecords(s: State, o: Object, p: Placement)
    ensures Move(s, o, p).records == s.records
  {
  }

  lemma UnequipBare(s: State, d: Character, pos: int, c: Character)
    requires Inv(s) && d in s.records && Recorded(s, c)
    ensures var t := UnequipFrom(s, d, pos).0;
      Recorded(t, c) && Bare(t, c) == Bare(s, c)
  {
    var (t, worn) := UnequipFrom(s, d, pos);
    if worn.Some? {
      var o := worn.value;
      assert o in At(s, WornBy(d, pos));
      OnePlaced(s, o, WornBy(d, pos));
      hide Inv, OnlyMoved;
      UnequipKeepsInv(s, d, pos);
      ArmourChanges(Detach(s, o), d, ArmorClassOf(o, pos));
      OnlyOne(s, t, c, o, Nowhere);
      WorthShift(s, t, c, o);
    }
  }

  /** Nothing but o has come off a body or gone onto one. */
  lemma OffTheBody(s: State, t: State, c: Character, o: Object)
    requires t.place.Keys == s.place.Keys
    requires forall x | x in s.place && x != o ::
               t.place[x] == s.place[x] || (s.place[x].InContainer? && !t.place[x].WornBy?)
    ensures OnlyMoved(s, t, c, o) && OnlyMoved(t, s, c, o)
  {
  }

  /** Extraction moves contents only between places that are not slots. */
  lemma ExtractOnlyMoves(s: State, o: Object, c: Character)
    requires Inv(s) && o in s.place
    ensures var t := Extract(s, o);
      && Inv(t) && t.records == s.records && OnlyMoved(s, t, c, o) && OnlyMoved(t, s, c, o) && PlaceOf(t, o) == Nowhere
  {
    hide Inv, InvBut, Extract, OnlyMoved;
    var t := Extract(s, o);
    InvIs(s);
    ContentsExact(s, o, {});
    if s.place[o] == Nowhere {
      ExtractLooseEffect(s, o);
      NotSelf(s, o);
    } else {
      ExtractInv(s, o, {});
      InvIs(t);
      ExtractFromPlace(s, o);
    }
    assert forall x | x in Contents(s, o) :: s.place[x] == InContainer(o);
    OffTheBody(s, t, c, o);
  }

  lemma InvIs(s: State)
    ensures InvBut(s, {}) <==> Inv(s)
    ensures forall o: Object :: InvBut(s, {} - {o}) ==> Inv(s)
  {
    assert forall o: Object :: {} - {o} == {};
  }

  lemma NotSelf(s: State, o: Object)
    requires Inv(s) && o in s.place && s.place[o] == Nowhere
    ensures o !in Contents(s, o) && !InOneOf(s.place, o, Contents(s, o))
  {
    NotInItself(s, o);
    ContentsExact(s, o, {});
  }

  lemma PlainMoveBare(s: State, o: Object, p: Placement, c: Character)
    requires Inv(s) && Inv(Move(s, o, p)) && !p.WornBy? && Recorded(s, c)
    ensures Recorded(Move(s, o, p), c) && Bare(Move(s, o, p), c) == Bare(s, c) - WornWorth(s, o, c)
  {
    hide Inv, Move;
    MovedPlace(s, o, p);
    MoveRecords(s, o, p);
    OnlyOne(s, Move(s, o, p), c, o, p);
    MovedBare(s, Move(s, o, p), c, o);
  }

  /** One call: the bare figure changes by what was worn and moved without being taken off. */
  lemma ApplyBare(s: State, op: Op, c: Character)
    requires Inv(s) && Legal(s, op) && Recorded(s, c)
    ensures Recorded(Apply(s, op), c) && Bare(Apply(s, op), c) == Bare(s, c) - Lost(s, op, c)
  {
    hide Inv, Move, OnlyMoved, Extract, Recorded;
    ApplyKeepsInv(s, op);
    match op
    case ToRoom(o, r) => PlainMoveBare(s, o, InRoom(r), c);
    case ToChar(o, d) => PlainMoveBare(s, o, CarriedBy(d), c);
    case ToObject(o, k) =>
      if Nest(s, o, k).1 { PlainMoveBare(s, o, InContainer(k), c); }
    case Equip(o, d, pos) =>
      if EquipOn(s, o, d, pos).1 { EquipBare(s, o, d, pos, c); }
    case Unequip(d, pos) => UnequipBare(s, d, pos, c);
    case ExtractOp(o) =>
      ExtractOnlyMoves(s, o, c);
      ExtractRecorded(s, o, c);
      MovedBare(s, Extract(s, o), c, o);
    case CreateOp(o) =>
      CreateBare(s, o, c);
  }

  lemma ExtractRecorded(s: State, o: Object, c: Character)
    requires Recorded(s, c) && Extract(s, o).records == s.records
    ensures Recorded(Extract(s, o), c)
  {
  }

  lemma CreateBare(s: State, o: Object, c: Character)
    requires Inv(s) && Unused(s, o) && Recorded(s, c)
    ensures Recorded(Create(s, o), c) && Bare(Create(s, o), c) == Bare(s, c)
  {
    SameWorn(s, Create(s, o), c, NUM_WEARS);
  }

  /** What a whole run costs c. */
  ghost function LostOver(s: State, ops: seq<Op>, c: Character): int
    decreases |ops|
  {
    if ops == [] then 0
    else if Legal(s, ops[0]) then Lost(s, ops[0], c) + LostOver(Apply(s, ops[0]), ops[1..], c)
    else LostOver(s, ops[1..], c)
  }

  /** Over any run, armour never drifts by any other route. */
  lemma {:induction false} RunBare(s: State, ops: seq<Op>, c: Character)
    requires Inv(s) && Recorded(s, c)
    ensures Recorded(Run(s, ops), c) && Bare(Run(s, ops), c) == Bare(s, c) - LostOver(s, ops, c)
    decreases |ops|
  {
    hide Inv, Recorded;
    if ops != [] {
      if Legal(s, ops[0]) {
        ApplyKeepsInv(s, ops[0]);
        ApplyBare(s, ops[0], c);
        RunBare(Apply(s, ops[0]), ops[1..], c);
      } else {
        RunBare(s, ops[1..], c);
      }
    }
  }

  /** One body there is, with nothing on it. */
  function Alone(c: Character, r: Record): State {
    EMPTY.(records := map[c := Some(r)])
  }

  /** The call that loses: armour put on and then dropped without being taken off. What it was worth
      in its slot stays taken from the figure. */
  lemma DroppedIsLost(c: Character, r: Record, o: Object, pos: nat, room: RoomVnum)
    requires pos < NUM_WEARS
    ensures var s, ops := Alone(c, r), [CreateOp(o), Equip(o, c, pos), ToRoom(o, room)];
      && Inv(s) && Recorded(s, c) && Recorded(Run(s, ops), c)
      && Bare(Run(s, ops), c) == Bare(s, c) - ArmorClassOf(o, pos)
  {
    hide Inv;
    var s, ops := Alone(c, r), [CreateOp(o), Equip(o, c, pos), ToRoom(o, room)];
    AloneIsSound(c, r);
    RunBare(s, ops, c);
    var t := Create(s, o);
    var u := EquipOn(t, o, c, pos).0;
    assert ops[1..] == [Equip(o, c, pos), ToRoom(o, room)] && ops[1..][1..] == [ToRoom(o, room)];
    WornThere(s, c, o, pos);
    assert LostOver(u, [ToRoom(o, room)], c) == ArmorClassOf(o, pos);
    assert LostOver(t, ops[1..], c) == ArmorClassOf(o, pos);
  }

  lemma AloneIsSound(c: Character, r: Record)
    ensures Inv(Alone(c, r)) && Recorded(Alone(c, r), c)
  {
    EmptyIsSound();
  }

  lemma WornThere(s: State, c: Character, o: Object, pos: nat)
    requires s.place == map[] && s.lists == map[] && s.records.Keys == {c} && pos < NUM_WEARS
    ensures Legal(s, CreateOp(o)) && Legal(Create(s, o), Equip(o, c, pos)) && PlaceOf(Create(s, o), o) == Nowhere
    ensures var u := EquipOn(Create(s, o), o, c, pos).0; o in u.place && u.place[o] == WornBy(c, pos)
  {
  }
}
