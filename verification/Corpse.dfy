/** Dying: MakeCorpse gathers everything a body had into a container; DropEverything scatters it. */
module Corpse {
  import opened ObjectGraph
  import opened Options
  import opened Int32s
  import opened Extraction
  import opened Belongings
  import opened Carry
  import opened Weight

  lemma AllCarried(s: State, c: Character)
    requires Inv(s)
    ensures forall k | k in At(s, CarriedBy(c)) :: k in s.place && s.place[k] == CarriedBy(c)
  {
  }

  lemma MoveAllNext(s: State, kids: seq<Object>, i: nat, p: Placement)
    requires i < |kids|
    ensures MoveAll(s, kids[..i + 1], p) == Move(MoveAll(s, kids[..i], p), kids[i], p)
  {
    assert kids[..i + 1][..i] == kids[..i];
  }

  lemma SinkIsNotHeld(s: State, p: Placement, c: Character)
    requires Sink(s, p) && p.InContainer?
    ensures p.container in s.place && s.place[p.container] != CarriedBy(c)
  {
  }

  /** Partway through the inventory, the graph is sound and can take the next thing. */
  lemma NextCarried(s: State, c: Character, p: Placement, i: nat)
    requires Inv(s) && Sink(s, p) && i < |At(s, CarriedBy(c))|
    ensures var kids := At(s, CarriedBy(c)); var u, o := MoveAll(s, kids[..i], p), kids[i];
      && Inv(u) && Sink(u, p) && u.place.Keys == s.place.Keys && o in u.place
      && (p.InContainer? ==> !Encloses(u.place, o, p.container))
      && MoveAll(s, kids[..i + 1], p) == Move(u, o, p)
  {
    hide *;
    var kids := At(s, CarriedBy(c));
    var u, o := MoveAll(s, kids[..i], p), kids[i];
    AllCarried(s, c);
    if p.InContainer? { SinkIsNotHeld(s, p, c); }
    assert o in kids && forall k | k in kids[..i] :: k in kids;
    MoveAllKeepsInv(s, kids[..i], p);
    SinkTakes(u, o, p);
    MoveAllNext(s, kids, i, p);
  }

  lemma ShedIs(s: State, c: Character, pos: int, p: Placement)
    requires Inv(s) && Sink(s, p)
    ensures var (u, worn) := UnequipFrom(s, c, pos);
      && Inv(u) && u.place.Keys == s.place.Keys
      && Shed(s, c, pos, p) == (if worn == None then u else Move(u, worn.value, p))
      && (worn.Some? ==> worn.value in u.place && (p.InContainer? ==> !Encloses(u.place, worn.value, p.container)))
  {
    hide Inv, Move, Encloses, Armour;
    UnequipKeepsInv(s, c, pos);
    var (u, worn) := UnequipFrom(s, c, pos);
    if worn.Some? {
      ArmourChanges(Detach(s, At(s, WornBy(c, pos))[0]), c, ArmorClassOf(At(s, WornBy(c, pos))[0], pos));
      var o := worn.value;
      assert o in At(s, WornBy(c, pos));
      OnePlaced(s, o, WornBy(c, pos));
      SinkTakes(u, o, p);
    }
  }

  /** The world at the start of either loop pair, seen from c. */
  lemma BodySeen(l: Live, c: Character, p: Placement)
    requires l.Valid() && c in l.Chars
    ensures Inv(l.View()) && l.Heap() && l.Numbered() && c in l.View().records
    ensures At(l.View(), CarriedBy(c)) == c.carrying
    ensures MoveAll(l.View(), [], p) == l.View() && Sink(l.View(), InRoom(c.room))
    ensures l.View().records[c] == c.record
  {
    l.Sees();
    l.ListedAt(CarriedBy(c));
  }

  lemma StripsOn(s: State, c: Character, p: Placement, pos: nat)
    requires Inv(s) && c in s.records && pos < NUM_WEARS && Sink(s, p)
    ensures Inv(Strip(s, c, p, pos)) && Sink(Strip(s, c, p, pos), p) && c in Strip(s, c, p, pos).records
    ensures Strip(s, c, p, pos).place.Keys == s.place.Keys
    ensures Strip(s, c, p, pos + 1) == Shed(Strip(s, c, p, pos), c, pos, p)
  {
    hide Inv, Sink;
    StripEffect(s, c, p, pos);
  }

  lemma GatheredIs(s: State, c: Character, p: Placement)
    ensures Gathered(s, c, p) == Strip(MoveAll(s, At(s, CarriedBy(c)), p), c, p, NUM_WEARS)
    ensures Strip(MoveAll(s, At(s, CarriedBy(c)), p), c, p, 0) == MoveAll(s, At(s, CarriedBy(c)), p)
  {
  }

  method DropEverything(l: Live, c: Character?)
    requires l.Valid() && (c != null ==> c in l.Chars)
    modifies l`roomObjects, l`objects, l`objCounts
    modifies l.Objs`placement, l.Objs`contents, l.Chars`carrying, l.Chars`equipment, l.Chars`record
    ensures l.Valid()
    ensures l.View() == if c == null then old(l.View()) else Gathered(old(l.View()), c, InRoom(c.room))
  {
    hide *;
    if c == null {
      return;
    }
    ghost var s, p := l.View(), InRoom(c.room);
    BodySeen(l, c, p);
    var carrying := c.carrying;
    assert carrying[..0] == [];
    for i := 0 to |carrying|
      invariant l.Heap() && l.Numbered() && l.View() == MoveAll(s, carrying[..i], p)
    {
      NextCarried(s, c, p, i);
      l.Sees();
      l.ObjectToRoom(carrying[i], c.room);
    }
    assert carrying[..|carrying|] == carrying;
    ghost var u := l.View();
    CarriedMoved(s, c, p);
    GatheredIs(s, c, p);
    for pos := 0 to NUM_WEARS
      invariant l.Heap() && l.Numbered() && l.View() == Strip(u, c, p, pos)
    {
      StripsOn(u, c, p, pos);
      ShedIs(l.View(), c, pos, p);
      var o := l.Unequip(c, pos);
      if o != null {
        l.Sees();
        l.ObjectToRoom(o, c.room);
      }
    }
    GatheredEffect(s, c, p);
    IsValid(l);
  }

  // ----- the corpse -------------------------------------------------------

  /** c's record once its gold has gone into a coin pile. */
  function Penniless(s: State, c: Character): State {
    if c in s.records && s.records[c].Some? then
      s.(records := s.records[c := Some(s.records[c].value.(gold := 0))])
    else s
  }

  /** The graph with the belongings, and the coin pile if there is one, in the corpse, still nowhere. */
  function Filled(s: State, c: Character, corpse: Object, money: Option<Object>): State {
    var g := Gathered(Create(s, corpse), c, InContainer(corpse));
    match money
    case None => g
    case Some(m) => Penniless(Move(Create(g, m), m, InContainer(corpse)), c)
  }

  function CoinList(money: Option<Object>): seq<Object> {
    match money
    case None => []
    case Some(m) => [m]
  }

  /** What ends up in the corpse, head first. */
  function Remains(s: State, c: Character, money: Option<Object>): seq<Object> {
    CoinList(money) + Reverse(WornList(s, c, NUM_WEARS)) + Reverse(At(s, CarriedBy(c)))
  }

  /** The list at q once the corpse lies in the room. */
  function LaidAt(s: State, c: Character, corpse: Object, money: Option<Object>, room: RoomVnum, q: Placement): seq<Object> {
    if q == InContainer(corpse) then Remains(s, c, money)
    else if q == InRoom(room) then [corpse] + At(s, q)
    else if BodyOf(q) == Some(c) && (q.WornBy? ==> 0 <= q.at < NUM_WEARS) then []
    else At(s, q)
  }

  /** The record the victim is left with. */
  function LeftWith(r: Option<Record>, armour: int, paid: bool): Option<Record> {
    match Armoured(r, armour)
    case None => None
    case Some(rec) => Some(if paid then rec.(gold := 0) else rec)
  }

  /** Everything the victim had is in the corpse and nothing else in the world has moved. */
  ghost predicate Conserved(s: State, c: Character, corpse: Object, money: Option<Object>, room: RoomVnum, t: State)
    requires c in s.records
  {
    && t.place.Keys == s.place.Keys + {corpse} + Elems(CoinList(money))
    && t.place[corpse] == InRoom(room) && (money.Some? ==> t.place[money.value] == InContainer(corpse))
    && (forall x | x in s.place ::
          t.place[x] == if BodyOf(s.place[x]) == Some(c) then InContainer(corpse) else s.place[x])
    && t.records == s.records[c := LeftWith(s.records[c], WornArmour(s, c, NUM_WEARS), money.Some?)]
  }

  /** What is left of the victim: no gold once there is a pile of it, the armour figure it would have
      bare, and its own weight. */
  lemma LeftBare(s: State, c: Character, corpse: Object, money: Option<Object>, room: RoomVnum, t: State)
    requires c in s.records && Conserved(s, c, corpse, money, room, t) && s.records[c].Some?
    ensures c in t.records && t.records[c].Some?
    ensures t.records[c].value.gold == (if money.Some? then 0 else s.records[c].value.gold)
    ensures t.records[c].value.realArmor == s.records[c].value.realArmor + WornArmour(s, c, NUM_WEARS)
    ensures t.records[c].value.weight == s.records[c].value.weight
  {
  }

  lemma CreateLists(s: State, o: Object)
    ensures forall q :: At(Create(s, o), q) == At(s, q)
    ensures forall c, n: nat :: WornList(Create(s, o), c, n) == WornList(s, c, n)
    ensures forall c, n: nat :: WornArmour(Create(s, o), c, n) == WornArmour(s, c, n)
  {
    forall c, n: nat
      ensures WornList(Create(s, o), c, n) == WornList(s, c, n) && WornArmour(Create(s, o), c, n) == WornArmour(s, c, n)
    {
      SameWorn(s, Create(s, o), c, n);
    }
  }

  lemma SinkInside(s: State, corpse: Object)
    requires corpse in s.place && s.place[corpse] == Nowhere
    ensures Sink(s, InContainer(corpse))
  {
  }

  lemma GatheredInto(s: State, c: Character, corpse: Object)
    requires Inv(s) && Unused(s, corpse) && c in s.records
    ensures var e, g := Create(s, corpse), Gathered(Create(s, corpse), c, InContainer(corpse));
      && Inv(g) && Sink(g, InContainer(corpse)) && GatheredFrom(e, c, InContainer(corpse), g)
      && forall q :: At(g, q) == GatheredAt(e, c, InContainer(corpse), q)
  {
    hide Inv, Gathered, GatheredAt, GatheredFrom;
    CreateKeepsInv(s, corpse);
    SinkInside(Create(s, corpse), corpse);
    GatheredEffect(Create(s, corpse), c, InContainer(corpse));
  }

  lemma PennilessKeepsInv(s: State, c: Character)
    requires Inv(s)
    ensures Inv(Penniless(s, c))
  {
    var t := Penniless(s, c);
    assert t.records.Keys == s.records.Keys;
    forall x | x in t.place ensures Known(t, t.place[x]) {
      assert Known(s, s.place[x]);
    }
    assert CompleteBut(t, {});
  }

  lemma PennilessOnly(s: State, c: Character)
    ensures Penniless(s, c).place == s.place && Penniless(s, c).lists == s.lists && Penniless(s, c).tracked == s.tracked
    ensures forall q :: At(Penniless(s, c), q) == At(s, q)
  {
  }

  /** The coin pile goes in on top. */
  lemma CoinsGoIn(g: State, c: Character, corpse: Object, m: Object)
    requires Inv(g) && Sink(g, InContainer(corpse)) && Unused(g, m)
    ensures var t := Move(Create(g, m), m, InContainer(corpse));
      && Inv(t) && t.place == g.place[m := InContainer(corpse)] && t.records == g.records
      && m !in g.place && !Encloses(Create(g, m).place, m, corpse) && Acyclic(Create(g, m).place)
      && forall q :: At(t, q) == if q == InContainer(corpse) then [m] + At(g, q) else At(g, q)
  {
    hide Inv, Move, Encloses;
    CreateKeepsInv(g, m);
    SinkTakes(Create(g, m), m, InContainer(corpse));
    MovedFresh(Create(g, m), m, InContainer(corpse));
    assert g.place[m := Nowhere][m := InContainer(corpse)] == g.place[m := InContainer(corpse)];
    InvAcyclic(Create(g, m));
  }

  lemma InvAcyclic(s: State)
    requires Inv(s)
    ensures Acyclic(s.place)
  {
  }

  /** Moving something that is in no list only adds to one. */
  lemma MovedFresh(s: State, o: Object, p: Placement)
    requires Inv(s) && o in s.place && s.place[o] == Nowhere && Free(s, p)
    ensures Move(s, o, p).place == s.place[o := p] && Move(s, o, p).records == s.records
    ensures forall q :: At(Move(s, o, p), q) == if q == p then [o] + At(s, q) else At(s, q)
  {
    InvLinked(s);
    forall q ensures o !in At(s, q) {
      OnePlaceEach(s, o, q);
    }
    hide Inv, Move;
    MoveLists(s, o, p);
    forall q ensures At(Move(s, o, p), q) == if q == p then [o] + At(s, q) else At(s, q) {
      WithoutAbsent(At(s, q), o);
      assert [] + At(s, q) == At(s, q);
    }
  }

  lemma FilledEffect(s: State, c: Character, corpse: Object, money: Option<Object>)
    requires Inv(s) && Unused(s, corpse) && c in s.records
    requires money.Some? ==> Unused(Create(s, corpse), money.value)
    ensures var h := Filled(s, c, corpse, money);
      && Inv(h) && corpse in h.place && h.place[corpse] == Nowhere
      && h.place.Keys == s.place.Keys + {corpse} + Elems(CoinList(money))
      && (money.Some? ==> h.place[money.value] == InContainer(corpse))
      && (forall x | x in s.place ::
            h.place[x] == if BodyOf(s.place[x]) == Some(c) then InContainer(corpse) else s.place[x])
    ensures Filled(s, c, corpse, money).records == s.records[c := LeftWith(s.records[c], WornArmour(s, c, NUM_WEARS), money.Some?)]
  {
    hide Inv, GatheredAt, Move, Unused, Encloses, Acyclic;
    FilledRecords(s, c, corpse, money);
    var g := Gathered(Create(s, corpse), c, InContainer(corpse));
    GatheredInto(s, c, corpse);
    CreateKeepsInv(s, corpse);
    if money.Some? {
      UnusedStill(Create(s, corpse), g, money.value);
      CoinsGoIn(g, c, corpse, money.value);
      PennilessKeepsInv(Move(Create(g, money.value), money.value, InContainer(corpse)), c);
      PennilessOnly(Move(Create(g, money.value), money.value, InContainer(corpse)), c);
    }
  }

  lemma FilledRecords(s: State, c: Character, corpse: Object, money: Option<Object>)
    requires Inv(s) && Unused(s, corpse) && c in s.records
    requires money.Some? ==> Unused(Create(s, corpse), money.value)
    ensures Filled(s, c, corpse, money).records == s.records[c := LeftWith(s.records[c], WornArmour(s, c, NUM_WEARS), money.Some?)]
  {
    hide Inv, GatheredAt, Move, Unused, Encloses, Acyclic;
    var g := Gathered(Create(s, corpse), c, InContainer(corpse));
    GatheredInto(s, c, corpse);
    CreateLists(s, corpse);
    if money.Some? {
      UnusedStill(Create(s, corpse), g, money.value);
      CoinsGoIn(g, c, corpse, money.value);
    }
  }

  lemma FilledLists(s: State, c: Character, corpse: Object, money: Option<Object>, q: Placement)
    requires Inv(s) && Unused(s, corpse) && c in s.records
    requires money.Some? ==> Unused(Create(s, corpse), money.value)
    ensures At(Filled(s, c, corpse, money), q) ==
            (if q == InContainer(corpse) then CoinList(money) else []) +
            GatheredAt(Create(s, corpse), c, InContainer(corpse), q)
  {
    hide Inv, GatheredAt, Move, Unused, Encloses, Acyclic;
    var g := Gathered(Create(s, corpse), c, InContainer(corpse));
    GatheredInto(s, c, corpse);
    CreateLists(s, corpse);
    assert [] + At(g, q) == At(g, q);
    if money.Some? {
      UnusedStill(Create(s, corpse), g, money.value);
      CoinsGoIn(g, c, corpse, money.value);
      PennilessOnly(Move(Create(g, money.value), money.value, InContainer(corpse)), c);
    }
  }

  lemma UnusedStill(s: State, g: State, m: Object)
    requires Unused(s, m) && g.place.Keys == s.place.Keys
    ensures Unused(g, m)
  {
  }

  /** The corpse is laid in the room: conservation, exactly. */
  lemma LaidEffect(s: State, c: Character, corpse: Object, money: Option<Object>, room: RoomVnum)
    requires Inv(s) && Unused(s, corpse) && c in s.records
    requires money.Some? ==> Unused(Create(s, corpse), money.value)
    ensures var t := Move(Filled(s, c, corpse, money), corpse, InRoom(room));
      Inv(t) && Conserved(s, c, corpse, money, room, t)
    ensures forall q :: At(Move(Filled(s, c, corpse, money), corpse, InRoom(room)), q) == LaidAt(s, c, corpse, money, room, q)
  {
    hide Inv, Move, Filled;
    var h := Filled(s, c, corpse, money);
    FilledEffect(s, c, corpse, money);
    forall q { FilledLists(s, c, corpse, money, q); }
    PlaceKeepsInv(h, corpse, InRoom(room));
    MovedFresh(h, corpse, InRoom(room));
    CreateKeepsInv(s, corpse);
    forall q ensures At(Move(h, corpse, InRoom(room)), q) == LaidAt(s, c, corpse, money, room, q) {
      LaidAtIs(s, c, corpse, money, room, q, At(h, q));
    }
  }

  lemma LaidAtIs(s: State, c: Character, corpse: Object, money: Option<Object>, room: RoomVnum, q: Placement, l: seq<Object>)
    requires At(s, InContainer(corpse)) == []
    requires l == (if q == InContainer(corpse) then CoinList(money) else []) +
                  GatheredAt(Create(s, corpse), c, InContainer(corpse), q)
    ensures (if q == InRoom(room) then [corpse] + l else l) == LaidAt(s, c, corpse, money, room, q)
  {
    hide WornList, WornArmour, Reverse, Create, At;
    CreateLists(s, corpse);
    assert At(Create(s, corpse), q) == At(s, q);
    assert WornList(Create(s, corpse), c, NUM_WEARS) == WornList(s, c, NUM_WEARS);
    assert [] + At(s, q) == At(s, q);
    if q == InContainer(corpse) {
      var worn, kids := Reverse(WornList(s, c, NUM_WEARS)), Reverse(At(s, CarriedBy(c)));
      assert CoinList(money) + (worn + kids + []) == CoinList(money) + worn + kids;
    }
  }

  method MakeMoney(l: Live, amount: int) returns (money: Object)
    requires l.Valid()
    modifies l`nextObjectID, l`Objs
    ensures l.Valid() && fresh(money) && l.Objs == old(l.Objs) + {money} && money.Vnum() == NO_OBJECT
    ensures money.coins == Some(amount)
    ensures Unused(old(l.View()), money) && l.View() == Create(old(l.View()), money)
  {
    money := l.NewBareObject();
    money.coins := Some(amount);
  }

  lemma NestIsMove(s: State, o: Object, k: Object)
    requires !Encloses(s.place, o, k)
    ensures Nest(s, o, k) == (Move(s, o, InContainer(k)), true)
  {
  }

  lemma FilledIs(s: State, c: Character, corpse: Object, m: Object)
    ensures Filled(s, c, corpse, None) == Gathered(Create(s, corpse), c, InContainer(corpse))
    ensures Filled(s, c, corpse, Some(m)) ==
            Penniless(Move(Create(Gathered(Create(s, corpse), c, InContainer(corpse)), m), m, InContainer(corpse)), c)
  {
  }

  /** The inventory, first to last, into the corpse. */
  method GatherCarried(l: Live, c: Character, corpse: Object)
    requires l.Valid() && c in l.Chars && corpse in l.Objs && Sink(l.View(), InContainer(corpse))
    modifies l`roomObjects, l`objects, l`objCounts
    modifies l.Objs`placement, l.Objs`contents, l.Chars`carrying, l.Chars`equipment
    ensures l.Valid()
    ensures l.View() == MoveAll(old(l.View()), At(old(l.View()), CarriedBy(c)), InContainer(corpse))
  {
    hide *;
    ghost var s, p := l.View(), InContainer(corpse);
    BodySeen(l, c, p);
    var carrying := c.carrying;
    assert carrying[..0] == [];
    for i := 0 to |carrying|
      invariant l.Heap() && l.Numbered() && l.View() == MoveAll(s, carrying[..i], p)
    {
      NextCarried(s, c, p, i);
      l.Sees();
      IsValid(l);
      NestIsMove(l.View(), carrying[i], corpse);
      var ok := l.ObjectToObject(carrying[i], corpse);
    }
    assert carrying[..|carrying|] == carrying;
    CarriedMoved(s, c, p);
    IsValid(l);
  }

  /** The equipment, in slot order, into the corpse. */
  method GatherWorn(l: Live, c: Character, corpse: Object)
    requires l.Valid() && c in l.Chars && corpse in l.Objs && Sink(l.View(), InContainer(corpse))
    modifies l`roomObjects, l`objects, l`objCounts
    modifies l.Objs`placement, l.Objs`contents, l.Chars`carrying, l.Chars`equipment, l.Chars`record
    ensures l.Valid() && l.View() == Strip(old(l.View()), c, InContainer(corpse), NUM_WEARS)
  {
    hide *;
    ghost var u, p := l.View(), InContainer(corpse);
    BodySeen(l, c, p);
    StripStarts(u, c, p);
    for pos := 0 to NUM_WEARS
      invariant l.Heap() && l.Numbered() && l.View() == Strip(u, c, p, pos)
    {
      StripsOn(u, c, p, pos);
      ShedIs(l.View(), c, pos, p);
      var o := l.Unequip(c, pos);
      if o != null {
        l.Sees();
        IsValid(l);
        NestIsMove(l.View(), o, corpse);
        var ok := l.ObjectToObject(o, corpse);
      }
    }
    StripEffect(u, c, p, NUM_WEARS);
    IsValid(l);
  }

  lemma StripStarts(s: State, c: Character, p: Placement)
    ensures Strip(s, c, p, 0) == s
  {
  }

  method Gather(l: Live, c: Character, corpse: Object)
    requires l.Valid() && c in l.Chars && corpse in l.Objs && corpse.placement == Nowhere
    modifies l`roomObjects, l`objects, l`objCounts
    modifies l.Objs`placement, l.Objs`contents, l.Chars`carrying, l.Chars`equipment, l.Chars`record
    ensures l.Valid() && l.View() == Gathered(old(l.View()), c, InContainer(corpse))
  {
    hide *;
    ghost var s, p := l.View(), InContainer(corpse);
    IsWhole(l);
    l.Sees();
    SinkInside(s, corpse);
    GatherCarried(l, c, corpse);
    CarriedMoved(s, c, p);
    GatherWorn(l, c, corpse);
    GatheredIs(s, c, p);
  }

  /** Gold becomes a coin pile in the corpse. */
  method BuryGold(l: Live, c: Character, corpse: Object) returns (ghost money: Option<Object>)
    requires l.Valid() && c in l.Chars && corpse in l.Objs && Sink(l.View(), InContainer(corpse))
    modifies l`roomObjects, l`objects, l`objCounts, l`nextObjectID, l`Objs
    modifies l.Objs`placement, l.Objs`contents, l.Chars`carrying, l.Chars`equipment, l.Chars`record
    ensures l.Heap() && l.Numbered()
    ensures money.Some? <==> old(c.record).Some? && old(c.record).value.gold > 0
    ensures money.Some? ==>
              && fresh(money.value) && money.value.coins == Some(old(c.record).value.gold)
              && Unused(old(l.View()), money.value) && l.Objs == old(l.Objs) + {money.value}
              && l.View() == Penniless(Move(Create(old(l.View()), money.value), money.value, InContainer(corpse)), c)
    ensures money.None? ==> l.View() == old(l.View()) && l.Objs == old(l.Objs)
  {
    hide *;
    IsWhole(l);
    if c.record.Some? && c.record.value.gold > 0 {
      ghost var g := l.View();
      var m := MakeMoney(l, c.record.value.gold);
      CoinsGoIn(g, c, corpse, m);
      l.Sees();
      NestIsMove(l.View(), m, corpse);
      IsWhole(l);
      var ok := l.ObjectToObject(m, corpse);
      ClearGold(l, c);
      return Some(m);
    }
    return None;
  }

  method ClearGold(l: Live, c: Character)
    requires l.Heap() && c in l.Chars && c.record.Some?
    modifies c`record
    ensures l.View() == Penniless(old(l.View()), c)
  {
    c.record := Some(c.record.value.(gold := 0));
  }

  lemma GatheredRecord(e: State, c: Character, p: Placement, g: State)
    requires c in e.records && GatheredFrom(e, c, p, g)
    ensures g.place.Keys == e.place.Keys && c in g.records
    ensures e.records[c].Some? <==> g.records[c].Some?
    ensures e.records[c].Some? ==> g.records[c].value.gold == e.records[c].value.gold
  {
  }

  /** All three parts: inventory, equipment, gold. */
  method Fill(l: Live, c: Character, corpse: Object, ghost s: State) returns (ghost money: Option<Object>)
    requires l.Valid() && c in l.Chars && corpse in l.Objs && corpse.placement == Nowhere
    requires Inv(s) && Unused(s, corpse) && l.View() == Create(s, corpse)
    modifies l`roomObjects, l`objects, l`objCounts, l`nextObjectID, l`Objs
    modifies l.Objs`placement, l.Objs`contents, l.Chars`carrying, l.Chars`equipment, l.Chars`record
    ensures l.Heap() && l.Numbered() && l.View() == Filled(s, c, corpse, money)
    ensures l.Chars == old(l.Chars) && fresh(l.Objs - old(l.Objs))
    ensures money.Some? <==> old(c.record).Some? && old(c.record).value.gold > 0
    ensures money.Some? ==>
              && fresh(money.value) && money.value.coins == Some(old(c.record).value.gold)
              && Unused(Create(s, corpse), money.value)
  {
    hide *;
    ghost var e := l.View();
    l.Sees();
    Gather(l, c, corpse);
    CreateRecords(s, corpse);
    GatheredInto(s, c, corpse);
    GatheredRecord(e, c, InContainer(corpse), l.View());
    l.Sees();
    money := BuryGold(l, c, corpse);
    if money.Some? {
      UnusedStill(Gathered(e, c, InContainer(corpse)), e, money.value);
      FilledIs(s, c, corpse, money.value);
    } else {
      FilledIs(s, c, corpse, corpse);
    }
  }

  lemma CreateRecords(s: State, o: Object)
    ensures Create(s, o).records == s.records
  {
  }

  lemma WeightsBefore(l: Live, c: Character, corpse: Object, s: State, weights: map<Object, int>)
    requires Inv(s) && Unused(s, corpse) && l.View() == Create(s, corpse)
    requires weights.Keys == s.place.Keys && forall o | o in weights :: o in l.Objs && o.weight == weights[o]
    ensures SumOf(Weights(l), EnclosedByAny(l.View(), Belonging(l.View(), c))) ==
            SumOf(weights, EnclosedByAny(s, Belonging(s, c)))
  {
    hide Inv;
    CreateLists(s, corpse);
    CreateKeepsInv(s, corpse);
    assert Belonging(l.View(), c) == Belonging(s, c);
    BelongsNot(s, c, corpse);
    EnclosedUntouched(s, l.View(), corpse, Belonging(s, c));
    SumSame(Weights(l), weights, EnclosedByAny(s, Belonging(s, c)));
  }

  lemma BelongsNot(s: State, c: Character, o: Object)
    requires Inv(s) && o !in s.place
    ensures o !in Belonging(s, c)
  {
    CarriedExact(s, c);
    WornListExact(s, c, NUM_WEARS);
  }

  lemma SomeRank(l: Live) returns (rank: map<nat, nat>)
    requires l.Valid()
    ensures Ranked(l.View().place, rank)
  {
    rank :| Ranked(l.View().place, rank);
  }

  method WeighIn(l: Live, c: Character, corpse: Object, ghost s: State, ghost weights: map<Object, int>)
    requires l.Valid() && c in l.Chars && corpse in l.Objs
    requires Inv(s) && Unused(s, corpse) && l.View() == Create(s, corpse)
    requires weights.Keys == s.place.Keys && forall o | o in weights :: o in l.Objs && o.weight == weights[o]
    modifies corpse`weight
    ensures corpse.weight == Wrap(SumOf(weights, EnclosedByAny(s, Belonging(s, c)))
                                  + if c.record.Some? then c.record.value.weight else 0)
  {
    hide *;
    WeightsBefore(l, c, corpse, s, weights);
    ghost var rank := SomeRank(l);
    IsWhole(l);
    var w := CarriedWeight(l, c, rank);
    ghost var on := SumOf(weights, EnclosedByAny(s, Belonging(s, c)));
    WrapOnce(on, if c.record.Some? then c.record.value.weight else 0);
    WrapSame(w);
    corpse.weight := w;
    if c.record.Some? {
      corpse.weight := Wrap(corpse.weight + c.record.value.weight);
    }
  }

  /** An empty corpse, nowhere, weighing what the victim weighs with everything on it. */
  method NewCorpse(l: Live, c: Character, time: int) returns (corpse: Object)
    requires l.Valid() && c in l.Chars
    modifies l`nextObjectID, l`Objs
    ensures l.Valid() && fresh(corpse) && l.Objs == old(l.Objs) + {corpse} && corpse.isCorpse && corpse.timer == time
    ensures Unused(old(l.View()), corpse) && l.View() == Create(old(l.View()), corpse)
    ensures corpse.weight == Wrap(SumOf(old(Weights(l)), EnclosedByAny(old(l.View()), Belonging(old(l.View()), c)))
                                  + if c.record.Some? then c.record.value.weight else 0)
  {
    hide *;
    ghost var s, weights := l.View(), Weights(l);
    IsWhole(l);
    l.Sees();
    WeightsSeen(l);
    corpse := l.NewBareObject();
    corpse.isCorpse, corpse.timer := true, time;
    WeighIn(l, c, corpse, s, weights);
  }

  lemma WeightsSeen(l: Live)
    ensures Weights(l).Keys == l.Objs && forall o | o in l.Objs :: Weights(l)[o] == o.weight
  {
  }

  /** Fills the corpse and puts it on the floor. */
  method LayOut(l: Live, c: Character, corpse: Object, ghost s: State) returns (ghost money: Option<Object>)
    requires l.Valid() && c in l.Chars && c in s.records && corpse in l.Objs
    requires Inv(s) && Unused(s, corpse) && l.View() == Create(s, corpse)
    modifies l`roomObjects, l`objects, l`objCounts, l`nextObjectID, l`Objs
    modifies l.Objs`placement, l.Objs`contents, l.Chars`carrying, l.Chars`equipment, l.Chars`record
    ensures l.Valid()
    ensures money.Some? <==> old(c.record).Some? && old(c.record).value.gold > 0
    ensures money.Some? ==> fresh(money.value) && money.value.coins == Some(old(c.record).value.gold)
    ensures Conserved(s, c, corpse, money, c.room, l.View())
    ensures forall q :: At(l.View(), q) == LaidAt(s, c, corpse, money, c.room, q)
  {
    hide *;
    CreateSees(s, corpse);
    l.Sees();
    money := Fill(l, c, corpse, s);
    FilledEffect(s, c, corpse, money);
    forall q { FilledLists(s, c, corpse, money, q); }
    l.Sees();
    l.ObjectToRoom(corpse, c.room);
    LaidEffect(s, c, corpse, money, c.room);
    IsValid(l);
  }

  /** How long the corpse of a player, and of a mobile, is set to last. */
  datatype Lifetimes = Lifetimes(player: int, mobile: int)

  /** Everything the victim carried and wore, and its gold as one pile, is in the corpse, and the
      corpse is on the floor where it fell. The graph is described by Conserved and LaidAt. */
  method MakeCorpse(l: Live, c: Character, times: Lifetimes) returns (corpse: Object, ghost money: Option<Object>)
    requires l.Valid() && c in l.Chars
    modifies l`roomObjects, l`objects, l`objCounts, l`nextObjectID, l`Objs
    modifies l.Objs`placement, l.Objs`contents, l.Chars`carrying, l.Chars`equipment, l.Chars`record
    ensures l.Valid() && fresh(corpse) && corpse.isCorpse
    ensures c.mobVnum.Some? ==> corpse.timer == times.mobile
    ensures c.mobVnum == None ==> corpse.timer == times.player
    ensures corpse.weight == Wrap(SumOf(old(Weights(l)), EnclosedByAny(old(l.View()), Belonging(old(l.View()), c)))
                                  + if old(c.record).Some? then old(c.record).value.weight else 0)
    ensures money.Some? <==> old(c.record).Some? && old(c.record).value.gold > 0
    ensures money.Some? ==> fresh(money.value) && money.value.coins == Some(old(c.record).value.gold)
    ensures c in old(l.View()).records && Conserved(old(l.View()), c, corpse, money, c.room, l.View())
    ensures forall q :: At(l.View(), q) == LaidAt(old(l.View()), c, corpse, money, c.room, q)
  {
    hide *;
    ghost var s := l.View();
    IsWhole(l);
    l.Sees();
    corpse := NewCorpse(l, c, if c.mobVnum.Some? then times.mobile else times.player);
    money := LayOut(l, c, corpse, s);
  }

  lemma CreateSees(s: State, o: Object)
    ensures o in Create(s, o).place && Create(s, o).place[o] == Nowhere
  {
  }
}
