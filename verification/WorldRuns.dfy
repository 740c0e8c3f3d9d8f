/** Everything that can happen to the world, one thing after another: the object graph, the object
    index and the mobile index stay sound through all of it. */
module WorldRuns {
  import opened ObjectGraph
  import opened Options
  import opened Extraction
  import opened ZoneReset
  import Carry
  import Corpse
  import Decay
  import ShopStock
  import ShopKeeping

  datatype Event =
    | Moved(op: Op)
    | TrackedBare(o: Object)
    | Arrived(c: Character, record: Option<Record>)
    | Listed(c: Character)
    | Dropped(c: Character)
    | Spawned(v: MobVnum, room: RoomVnum, c: Character)
    | Died(c: Character, corpse: Object, money: Option<Object>, room: RoomVnum)
    | Decayed(due: seq<Object>)
    | Sorted(shop: ShopStock.Shop, c: Character, sorted: nat)
    | Repopulated(commands: seq<Command>, choices: seq<Choice>)

  /** A zone about to be reset: no mobile yet, and nothing has failed. */
  function Fresh(w: World, commands: seq<Command>): Machine {
    Machine(w, None, false, commands, false, 0, 0, 0)
  }

  /** The event is about what exists, and what it makes is new. */
  ghost predicate Possible(d: Defs, w: World, e: Event) {
    match e
    case Moved(op) => Legal(w.s, op)
    case TrackedBare(o) => o in w.s.place
    case Arrived(_, _) => true
    case Listed(c) => c in w.s.records
    case Dropped(_) => true
    case Spawned(v, room, c) => v in d.mobs && room in d.rooms && c !in w.s.records && c.mobVnum == Some(v)
    case Died(c, corpse, money, _) =>
      c in w.s.records && Unused(w.s, corpse) && (money.Some? ==> Unused(Create(w.s, corpse), money.value))
    case Decayed(due) => NoDup(due) && forall o | o in due :: o in w.s.place && w.s.place[o] != Nowhere
    case Sorted(_, c, sorted) => c in w.s.records && sorted <= |At(w.s, CarriedBy(c))|
    case Repopulated(commands, choices) =>
      |choices| == |commands| && AllFit(d, Fresh(w, commands), |commands|, choices)
  }

  ghost function Happen(d: Defs, w: World, e: Event): World
    requires Possible(d, w, e)
  {
    match e
    case Moved(op) => w.(s := Apply(w.s, op))
    case TrackedBare(o) => w.(s := Track(w.s, o))
    case Arrived(c, r) => w.(s := Arrive(w.s, c, r))
    case Listed(c) => AddMobile(w, c)
    case Dropped(c) => DropMobile(w, c)
    case Spawned(v, room, c) => Spawn(w, d.mobs[v], room, c)
    case Died(c, corpse, money, room) => w.(s := Move(Corpse.Filled(w.s, c, corpse, money), corpse, InRoom(room)))
    case Decayed(due) => w.(s := Decay.DecayAll(w.s, due))
    case Sorted(shop, c, sorted) =>
      w.(s := ShopKeeping.ShelveStates(ShopKeeping.TakenDown(w.s, c, sorted), shop, c,
                                       ShopStock.Arrivals(At(w.s, CarriedBy(c)), sorted)))
    case Repopulated(commands, choices) => Reset(d, Fresh(w, commands), |commands|, choices).w
  }

  /** What happens, in order, leaving out what cannot. */
  ghost function History(d: Defs, w: World, events: seq<Event>): World
    decreases |events|
  {
    if events == [] then w
    else History(d, if Possible(d, w, events[0]) then Happen(d, w, events[0]) else w, events[1..])
  }

  /** A change of the graph that forgets no body leaves the mobiles as they were. */
  lemma GraphChanges(w: World, t: State)
    requires Sound(w) && Inv(t) && w.s.records.Keys <= t.records.Keys
    ensures Sound(w.(s := t))
  {
  }

  lemma SoundParts(w: World)
    requires Sound(w)
    ensures Inv(w.s)
  {
  }

  lemma OpKeepsBodies(s: State, op: Op)
    requires Inv(s) && Legal(s, op)
    ensures Apply(s, op).records.Keys == s.records.Keys
  {
    if op.ExtractOp? {
      ExtractKeepsBodies(s, op.o);
    }
  }

  lemma ExtractKeepsBodies(s: State, o: Object)
    requires Inv(s) && o in s.place
    ensures Extract(s, o).records == s.records
  {
    if s.place[o] == Nowhere {
      ExtractLooseEffect(s, o);
    } else {
      ExtractFromPlace(s, o);
    }
  }

  lemma TrackedBareKeeps(w: World, o: Object)
    requires Sound(w) && o in w.s.place
    ensures Sound(w.(s := Track(w.s, o)))
  {
    TrackKeepsIndex(w.s, o);
    SameGraph(w.s, Track(w.s, o), {});
    assert TracksPlaced(Track(w.s, o));
  }

  lemma ListedKeeps(w: World, c: Character)
    requires Sound(w) && c in w.s.records
    ensures Sound(AddMobile(w, c))
  {
    AddMobileKeepsIndex(w, c);
  }

  lemma ArrivedKeeps(w: World, c: Character, r: Option<Record>)
    requires Sound(w)
    ensures Sound(w.(s := Arrive(w.s, c, r)))
  {
    ArriveKeepsInv(w.s, c, r);
    GraphChanges(w, Arrive(w.s, c, r));
  }

  lemma SpawnedKeeps(w: World, def: MobDef, room: RoomVnum, c: Character)
    requires Sound(w)
    ensures Sound(Spawn(w, def, room, c))
  {
    var r := Some(MobileRecord(def));
    ArrivedKeeps(w, c, r);
    var t := w.(s := Arrive(w.s, c, r), occupants := Spawn(w, def, room, c).occupants);
    assert Sound(t);
    ListedKeeps(t, c);
  }

  lemma DiedKeeps(w: World, c: Character, corpse: Object, money: Option<Object>, room: RoomVnum)
    requires Sound(w) && c in w.s.records && Unused(w.s, corpse)
    requires money.Some? ==> Unused(Create(w.s, corpse), money.value)
    ensures Sound(w.(s := Move(Corpse.Filled(w.s, c, corpse, money), corpse, InRoom(room))))
  {
    hide Inv, Corpse.Filled, Move;
    Corpse.LaidEffect(w.s, c, corpse, money, room);
    GraphChanges(w, Move(Corpse.Filled(w.s, c, corpse, money), corpse, InRoom(room)));
  }

  lemma DecayedKeeps(w: World, due: seq<Object>)
    requires Sound(w) && NoDup(due) && forall o | o in due :: o in w.s.place && w.s.place[o] != Nowhere
    ensures Sound(w.(s := Decay.DecayAll(w.s, due)))
  {
    hide Inv, Decay.DecayAll, Decay.Home, Ranked;
    SoundParts(w);
    var rank := Decay.RankOf(w.s);
    var top := Carry.RankBound(rank);
    Decay.BoundedBy(rank, top);
    Decay.DecayEffect(w.s, due, rank, top);
    GraphChanges(w, Decay.DecayAll(w.s, due));
  }

  lemma SortedKeeps(w: World, shop: ShopStock.Shop, c: Character, sorted: nat)
    requires Sound(w) && c in w.s.records && sorted <= |At(w.s, CarriedBy(c))|
    ensures Sound(w.(s := ShopKeeping.ShelveStates(ShopKeeping.TakenDown(w.s, c, sorted), shop, c,
                                                   ShopStock.Arrivals(At(w.s, CarriedBy(c)), sorted))))
  {
    hide Inv, ShopKeeping.ShelveStates;
    SoundParts(w);
    var u, all := ShopKeeping.TakenDown(w.s, c, sorted), ShopStock.Arrivals(At(w.s, CarriedBy(c)), sorted);
    ShopKeeping.SortedIntoIs(w.s, shop, c, sorted, ShopStock.ShelveAll(shop,
      ShopStock.Shelf(At(u, CarriedBy(c)), sorted), all, ShopKeeping.Holdings(u, all)).sorted);
    GraphChanges(w, ShopKeeping.ShelveStates(u, shop, c, all));
  }

  lemma RepopulatedKeeps(d: Defs, w: World, commands: seq<Command>, choices: seq<Choice>)
    requires Sound(w) && forall v | v in d.mobs :: d.mobs[v].vnum == v
    requires |choices| == |commands| && AllFit(d, Fresh(w, commands), |commands|, choices)
    ensures Sound(Reset(d, Fresh(w, commands), |commands|, choices).w)
  {
    hide Sound, Capped, Reset, AllFit;
    ResetKeeps(d, Fresh(w, commands), |commands|, choices);
  }

  lemma MovedKeeps(w: World, op: Op)
    requires Sound(w) && Legal(w.s, op)
    ensures Sound(w.(s := Apply(w.s, op)))
  {
    hide Inv, Apply, Legal;
    ApplyKeepsInv(w.s, op);
    OpKeepsBodies(w.s, op);
    GraphChanges(w, Apply(w.s, op));
  }

  lemma HappenKeeps(d: Defs, w: World, e: Event)
    requires Sound(w) && Possible(d, w, e) && forall v | v in d.mobs :: d.mobs[v].vnum == v
    ensures Sound(Happen(d, w, e))
  {
    hide Sound, Inv, Legal, Apply, AllFit, Reset, Unused, DropMobile;
    match e
    case Moved(op) => MovedKeeps(w, op);
    case TrackedBare(o) => TrackedBareKeeps(w, o);
    case Arrived(c, r) => ArrivedKeeps(w, c, r);
    case Listed(c) => ListedKeeps(w, c);
    case Dropped(c) => DropMobileKeepsIndex(w, c);
    case Spawned(v, room, c) => SpawnedKeeps(w, d.mobs[v], room, c);
    case Died(c, corpse, money, room) => DiedKeeps(w, c, corpse, money, room);
    case Decayed(due) => DecayedKeeps(w, due);
    case Sorted(shop, c, sorted) => SortedKeeps(w, shop, c, sorted);
    case Repopulated(commands, choices) => RepopulatedKeeps(d, w, commands, choices);
  }

  /** Whatever happens, and in whatever order, a sound world stays sound. */
  lemma {:induction false} HistoryKeeps(d: Defs, w: World, events: seq<Event>)
    requires Sound(w) && forall v | v in d.mobs :: d.mobs[v].vnum == v
    ensures Sound(History(d, w, events))
    decreases |events|
  {
    hide Sound, Possible, Happen;
    if events != [] {
      var e := events[0];
      if Possible(d, w, e) {
        HappenKeeps(d, w, e);
      }
      HistoryKeeps(d, if Possible(d, w, e) then Happen(d, w, e) else w, events[1..]);
    }
  }

  /** The world before anything has happened. */
  const NEW_WORLD: World := World(EMPTY, {}, map[], map[], map[])

  /** In every world that can be reached each object is listed once, where it is, and each index
      says of each kind how many a scan would find. */
  lemma Reachable(d: Defs, events: seq<Event>)
    requires forall v | v in d.mobs :: d.mobs[v].vnum == v
    ensures var w := History(d, NEW_WORLD, events);
      && (forall v: ObjVnum :: CountOf(w.s.counts, v) == |Instances(w.s.tracked, v)|)
      && (forall v: MobVnum :: ZoneReset.Seen(w.mobCounts, v) == |MobInstances(w.mobiles, v)|)
      && (forall o, p | o in w.s.place :: o in At(w.s, p) <==> p == w.s.place[o] && p != Nowhere)
  {
    hide History;
    EmptyIsSound();
    NobodyThere();
    HistoryKeeps(d, NEW_WORLD, events);
    var w := History(d, NEW_WORLD, events);
    forall o, p | o in w.s.place ensures o in At(w.s, p) <==> p == w.s.place[o] && p != Nowhere {
      OnePlaceEach(w.s, o, p);
    }
  }

  lemma NobodyThere()
    ensures forall v: MobVnum :: MobInstances({}, v) == {}
  {
  }
}
