/** The object graph of the world as a value: who holds what, in which order.
    The heap classes below are what the movers of Carry.dfy update; `State` is the value that
    those movers are specified against, and the lemmas of this module are about that value. */
module ObjectGraph {
  import opened Options
  import opened Int32s

  const NUM_WEARS: nat := 18
  const NO_ROOM := -1
  const NO_OBJECT := -1

  type RoomVnum = int
  type ObjVnum = int

  /** One `A` line of a prototype. */
  datatype ObjAffect = ObjAffect(location: int, modifier: int)

  /** A prototype. Two with the same contents are two: they are compared by identity. */
  class ObjDef {
    const vnum: ObjVnum
    const cost: int
    const extraFlags: set<nat>
    const affects: seq<ObjAffect>
    const acApply: Option<int>

    constructor (vnum: ObjVnum, cost: int, extraFlags: set<nat>, affects: seq<ObjAffect>, acApply: Option<int>)
      ensures this.vnum == vnum && this.cost == cost && this.extraFlags == extraFlags
      ensures this.affects == affects && this.acApply == acApply
    {
      this.vnum, this.cost, this.extraFlags := vnum, cost, extraFlags;
      this.affects, this.acApply := affects, acApply;
    }
  }

  /** Where an object is: exactly one of these, `Nowhere` being the nil placement. */
  datatype Placement =
    | Nowhere
    | InRoom(room: RoomVnum)
    | CarriedBy(holder: Character)
    | WornBy(holder: Character, at: int)
    | InContainer(container: Object)

  class Object {
    const id: nat
    const def: ObjDef?
    const cost: int
    const extraFlags: set<nat>
    const affects: seq<ObjAffect>
    const acApply: Option<int>  // armour class value, for armour only

    var placement: Placement
    var contents: seq<Object>
    var weight: Int32
    var coins: Option<int>      // the value of a coin pile
    var isCorpse: bool
    var timer: int

    /** NewObject: a fresh instance copies its prototype's fields and is nowhere. */
    constructor (id: nat, def: ObjDef?)
      ensures this.id == id && this.def == def && placement == Nowhere && contents == []
      ensures coins == None && !isCorpse && timer == 0
      ensures def != null ==>
                cost == def.cost && extraFlags == def.extraFlags && affects == def.affects && acApply == def.acApply
      ensures def == null ==> acApply == None
    {
      this.id, this.def := id, def;
      placement, contents := Nowhere, [];
      weight, coins, isCorpse, timer := 0, None, false, 0;
      if def != null {
        cost, extraFlags, affects, acApply := def.cost, def.extraFlags, def.affects, def.acApply;
      } else {
        cost, extraFlags, affects, acApply := 0, {}, [], None;
      }
    }

    function Vnum(): ObjVnum {
      if def == null then NO_OBJECT else def.vnum
    }
  }

  /** The part of a saved record that moving objects changes. */
  datatype Record = Record(realArmor: int, gold: int, weight: Int32)

  class Character {
    const mobVnum: Option<int>  // the prototype a mobile was made from; none for a player
    var room: RoomVnum
    var carrying: seq<Object>
    var equipment: seq<Object?>
    var record: Option<Record>

    constructor (mobVnum: Option<int>, room: RoomVnum, record: Option<Record>)
      ensures this.mobVnum == mobVnum && this.room == room && this.record == record
      ensures carrying == [] && equipment == seq(NUM_WEARS, _ => null)
    {
      this.mobVnum, this.room, this.record := mobVnum, room, record;
      carrying, equipment := [], seq(NUM_WEARS, _ => null);
    }
  }

  /** `lists` maps a place to the objects listed there, head first; places with nothing in them
      are absent. `tracked` is the world's object table and `counts` its population index. */
  datatype State = State(
    place: map<Object, Placement>,
    lists: map<Placement, seq<Object>>,
    records: map<Character, Option<Record>>,
    tracked: map<nat, Object>,
    counts: map<ObjVnum, int>)

  // ----- lists ------------------------------------------------------------

  ghost predicate NoDup<T>(s: seq<T>) {
    forall i, j :: 0 <= i < j < |s| ==> s[i] != s[j]
  }

  /** removeObject: the list without the first occurrence of x. */
  function Without<T(==)>(s: seq<T>, x: T): (r: seq<T>) {
    if s == [] then [] else if s[0] == x then s[1..] else [s[0]] + Without(s[1..], x)
  }

  function Reverse<T>(s: seq<T>): (r: seq<T>) {
    if s == [] then [] else Reverse(s[1..]) + [s[0]]
  }

  lemma {:induction false} WithoutKeepsOthers<T>(s: seq<T>, x: T)
    requires NoDup(s)
    ensures NoDup(Without(s, x))
    ensures forall y :: y in Without(s, x) <==> y in s && y != x
  {
    if s != [] {
      assert s == [s[0]] + s[1..];
      assert NoDup(s[1..]);
      WithoutKeepsOthers(s[1..], x);
      assert s[0] !in s[1..];
      if s[0] != x {
        var w := Without(s[1..], x);
        forall i, j | 0 <= i < j < |w| + 1 ensures ([s[0]] + w)[i] != ([s[0]] + w)[j] {
          assert ([s[0]] + w)[j] == w[j - 1] && w[j - 1] in w;
        }
      }
    }
  }

  lemma {:induction false} WithoutAbsent<T>(s: seq<T>, x: T)
    requires x !in s
    ensures Without(s, x) == s
  {
    if s != [] {
      WithoutAbsent(s[1..], x);
    }
  }

  lemma {:induction false} ReverseElements<T>(s: seq<T>)
    ensures |Reverse(s)| == |s|
    ensures forall i :: 0 <= i < |s| ==> Reverse(s)[i] == s[|s| - 1 - i]
    ensures forall x :: x in Reverse(s) <==> x in s
  {
    if s != [] {
      ReverseElements(s[1..]);
      assert s == [s[0]] + s[1..];
    }
  }

  lemma {:induction false} ReverseSnoc<T>(s: seq<T>, x: T)
    ensures Reverse(s + [x]) == [x] + Reverse(s)
  {
    if s == [] {
      assert s + [x] == [x];
    } else {
      assert (s + [x])[1..] == s[1..] + [x];
      ReverseSnoc(s[1..], x);
    }
  }

  /** The elements of s that are not in gone, in order. */
  function Minus<T(==)>(s: seq<T>, gone: set<T>): seq<T> {
    if s == [] then [] else if s[0] in gone then Minus(s[1..], gone) else [s[0]] + Minus(s[1..], gone)
  }

  lemma {:induction false} MinusElements<T>(s: seq<T>, gone: set<T>)
    ensures forall x :: x in Minus(s, gone) <==> x in s && x !in gone
    ensures (forall x | x in s :: x in gone) ==> Minus(s, gone) == []
    ensures (forall x | x in s :: x !in gone) ==> Minus(s, gone) == s
  {
    if s != [] {
      MinusElements(s[1..], gone);
      assert s == [s[0]] + s[1..];
    }
  }

  lemma {:induction false} MinusAnother<T>(s: seq<T>, gone: set<T>, x: T)
    requires NoDup(s)
    ensures Minus(s, gone + {x}) == Without(Minus(s, gone), x)
  {
    if s != [] {
      var rest := Minus(s[1..], gone);
      MinusAnother(s[1..], gone, x);
      assert ([s[0]] + rest)[1..] == rest;
      if s[0] == x {
        assert x !in s[1..];
        MinusElements(s[1..], gone);
        WithoutAbsent(rest, x);
      }
    }
  }

  // ----- the state --------------------------------------------------------

  function Listed(lists: map<Placement, seq<Object>>, p: Placement): seq<Object> {
    if p in lists then lists[p] else []
  }

  function At(s: State, p: Placement): seq<Object> {
    Listed(s.lists, p)
  }

  /** Sets the list at p, dropping the entry when it becomes empty. */
  function Put(lists: map<Placement, seq<Object>>, p: Placement, l: seq<Object>): map<Placement, seq<Object>> {
    if l == [] then lists - {p} else lists[p := l]
  }

  ghost predicate Canonical(lists: map<Placement, seq<Object>>) {
    forall p | p in lists :: lists[p] != []
  }

  lemma SameLists(a: map<Placement, seq<Object>>, b: map<Placement, seq<Object>>)
    requires Canonical(a) && Canonical(b)
    requires forall p | p in a.Keys + b.Keys :: Listed(a, p) == Listed(b, p)
    ensures a == b
  {
    forall p | p in a.Keys + b.Keys ensures p in a && p in b && a[p] == b[p] {
      assert Listed(a, p) == Listed(b, p);
    }
    assert a.Keys == b.Keys;
  }

  function CountOf(counts: map<ObjVnum, int>, v: ObjVnum): int {
    if v in counts then counts[v] else 0
  }

  ghost function Instances(tracked: map<nat, Object>, v: ObjVnum): set<nat> {
    set id | id in tracked && tracked[id].Vnum() == v
  }

  /** The placement names something that exists. */
  ghost predicate Known(s: State, p: Placement) {
    match p
    case Nowhere => true
    case InRoom(_) => true
    case CarriedBy(c) => c in s.records
    case WornBy(c, at) => c in s.records && 0 <= at < NUM_WEARS
    case InContainer(k) => k in s.place
  }

  ghost predicate Closed(s: State) {
    forall o | o in s.place :: Known(s, s.place[o])
  }

  /** Whatever is in a list is placed there, and once; a slot holds one thing. */
  ghost predicate Linked(s: State) {
    && Canonical(s.lists)
    && (forall p | p in s.lists ::
          p != Nowhere && NoDup(s.lists[p]) && (p.WornBy? ==> 0 <= p.at < NUM_WEARS && |s.lists[p]| == 1))
    && (forall p, o | p in s.lists && o in s.lists[p] :: o in s.place && s.place[o] == p)
  }

  /** Whatever is placed somewhere is in the list its placement names, except for `loose`. */
  ghost predicate CompleteBut(s: State, loose: set<Object>) {
    forall o | o in s.place && s.place[o] != Nowhere && o !in loose :: o in At(s, s.place[o])
  }

  /** A container outranks everything in it; ranks are kept by id. */
  ghost predicate Ranked(place: map<Object, Placement>, rank: map<nat, nat>) {
    forall o | o in place ::
      o.id in rank && (place[o].InContainer? ==> place[o].container.id in rank && rank[o.id] < rank[place[o].container.id])
  }

  ghost predicate Acyclic(place: map<Object, Placement>) {
    exists rank :: Ranked(place, rank)
  }

  /** Everything placed is in the object table, under its own id. */
  ghost predicate TracksPlaced(s: State) {
    forall o | o in s.place && s.place[o] != Nowhere :: o.id in s.tracked
  }

  /** The table is keyed by id, ids are not shared, and the index agrees with a scan of the table. */
  ghost predicate IndexAgrees(s: State) {
    && (forall id | id in s.tracked :: s.tracked[id] in s.place && s.tracked[id].id == id)
    && (forall a, b | a in s.place && b in s.place && a.id == b.id :: a == b)
    && (forall v: ObjVnum :: CountOf(s.counts, v) == |Instances(s.tracked, v)|)
  }

  ghost predicate InvBut(s: State, loose: set<Object>) {
    && Closed(s)
    && Linked(s)
    && CompleteBut(s, loose)
    && Acyclic(s.place)
    && TracksPlaced(s)
    && IndexAgrees(s)
  }

  ghost predicate Inv(s: State) {
    InvBut(s, {})
  }

  lemma ListIsDistinct(s: State, p: Placement)
    requires Linked(s)
    ensures NoDup(At(s, p))
  {
  }

  /** What the invariant says of each object: it occurs exactly once in the list its placement
      names and in no other list, and in no list at all when it is nowhere. */
  lemma OnePlaceEach(s: State, o: Object, p: Placement)
    requires Inv(s) && o in s.place
    ensures o in At(s, p) <==> p == s.place[o] && p != Nowhere
    ensures forall i, j | 0 <= i < |At(s, p)| && 0 <= j < |At(s, p)| && At(s, p)[i] == o && At(s, p)[j] == o :: i == j
  {
    if p in s.lists {
      assert NoDup(s.lists[p]);
    }
  }

  lemma OnePlaced(s: State, o: Object, p: Placement)
    requires Inv(s) && o in At(s, p)
    ensures o in s.place && s.place[o] == p
  {
  }

  lemma InvLinked(s: State)
    requires Inv(s)
    ensures Linked(s)
  {
  }

  // ----- moves ------------------------------------------------------------

  function PlaceOf(s: State, o: Object): Placement {
    if o in s.place then s.place[o] else Nowhere
  }

  function Detach(s: State, o: Object): State {
    var p := PlaceOf(s, o);
    s.(place := s.place[o := Nowhere],
    lists := if p == Nowhere then s.lists else Put(s.lists, p, Without(At(s, p), o)))
  }

  function Track(s: State, o: Object): State {
    if o.id in s.tracked then s
    else s.(tracked := s.tracked[o.id := o], counts := s.counts[o.Vnum() := CountOf(s.counts, o.Vnum()) + 1])
  }

  function Untrack(s: State, o: Object): State {
    if o.id !in s.tracked then s
    else s.(tracked := s.tracked - {o.id}, counts := s.counts[o.Vnum() := CountOf(s.counts, o.Vnum()) - 1])
  }

  /** Puts o, which is in no list, at the head of the list at p. */
  function Attach(s: State, o: Object, p: Placement): State {
    s.(place := s.place[o := p], lists := Put(s.lists, p, [o] + At(s, p)))
  }

  /** What every placing mover does: unlink, link at the head, enter in the object table. */
  function Move(s: State, o: Object, p: Placement): State {
    Track(Attach(Detach(s, o), o, p), o)
  }

  lemma ListedPut(lists: map<Placement, seq<Object>>, p: Placement, l: seq<Object>, q: Placement)
    ensures Listed(Put(lists, p, l), q) == if q == p then l else Listed(lists, q)
  {
  }

  lemma DetachLists(s: State, o: Object)
    requires Linked(s) && o in s.place
    ensures forall p :: At(Detach(s, o), p) == if p == s.place[o] then Without(At(s, p), o) else At(s, p)
    ensures forall p, x :: x in At(Detach(s, o), p) <==> x in At(s, p) && x != o
    ensures Linked(Detach(s, o))
  {
    var p, t := s.place[o], Detach(s, o);
    assert NoDup(At(s, p));
    WithoutKeepsOthers(At(s, p), o);
    forall q ensures At(t, q) == if q == p then Without(At(s, p), o) else At(s, q) {
      if p != Nowhere {
        ListedPut(s.lists, p, Without(At(s, p), o), q);
      }
    }
    forall q, x ensures x in At(t, q) <==> x in At(s, q) && x != o {
      if q != p && q in s.lists && x in s.lists[q] {
        assert s.place[x] == q;
      }
    }
    forall q | q in t.lists
      ensures q != Nowhere && t.lists[q] != [] && NoDup(t.lists[q])
      ensures q.WornBy? ==> 0 <= q.at < NUM_WEARS && |t.lists[q]| == 1
      ensures forall x | x in t.lists[q] :: x in t.place && t.place[x] == q
    {
      assert t.lists[q] == At(t, q);
      assert q in s.lists;
      if q == p && q.WornBy? {
        assert |s.lists[q]| == 1 && s.lists[q][1..] == [];
        assert Without(s.lists[q][1..], o) == [];
      }
      forall x | x in t.lists[q] ensures x in t.place && t.place[x] == q {
        assert x in At(t, q) && x in s.lists[q];
      }
    }
  }

  lemma DetachKeepsInv(s: State, o: Object, loose: set<Object>)
    requires InvBut(s, loose) && o in s.place
    ensures InvBut(Detach(s, o), loose - {o})
    ensures forall p :: o !in At(Detach(s, o), p)
  {
    DetachLists(s, o);
    var t := Detach(s, o);
    assert Acyclic(t.place) by {
      var rank :| Ranked(s.place, rank);
      assert Ranked(t.place, rank);
    }
    assert Closed(t) by {
      forall x | x in t.place ensures Known(t, t.place[x]) {
        assert Known(s, s.place[x]);
      }
    }
    assert CompleteBut(t, loose - {o}) by {
      forall x | x in t.place && t.place[x] != Nowhere && x !in loose - {o} ensures x in At(t, t.place[x]) {
        assert x in At(s, s.place[x]);
      }
    }
  }

  lemma TrackKeepsIndex(s: State, o: Object)
    requires IndexAgrees(s) && o in s.place
    ensures IndexAgrees(Track(s, o)) && o.id in Track(s, o).tracked
  {
    var t := Track(s, o);
    if o.id !in s.tracked {
      hide Instances;
      forall v: ObjVnum ensures CountOf(t.counts, v) == |Instances(t.tracked, v)| {
        InstancesWith(s.tracked, o, v);
      }
    }
  }

  lemma InstancesWith(tracked: map<nat, Object>, o: Object, v: ObjVnum)
    requires o.id !in tracked
    ensures |Instances(tracked[o.id := o], v)| == |Instances(tracked, v)| + if o.Vnum() == v then 1 else 0
  {
    var more := Instances(tracked[o.id := o], v);
    if v == o.Vnum() {
      assert more == Instances(tracked, v) + {o.id};
    } else {
      assert more == Instances(tracked, v);
    }
  }

  lemma InstancesWithout(tracked: map<nat, Object>, id: nat, v: ObjVnum)
    requires id in tracked
    ensures |Instances(tracked - {id}, v)| == |Instances(tracked, v)| - (if tracked[id].Vnum() == v then 1 else 0)
  {
    assert Instances(tracked - {id}, v) == Instances(tracked, v) - {id};
    if tracked[id].Vnum() == v {
      assert id in Instances(tracked, v);
    } else {
      assert id !in Instances(tracked, v);
    }
  }

  lemma UntrackKeepsIndex(s: State, o: Object)
    requires IndexAgrees(s) && o in s.place
    ensures IndexAgrees(Untrack(s, o)) && Untrack(s, o).tracked == s.tracked - {o.id}
  {
    hide Instances;
    var t := Untrack(s, o);
    if o.id in s.tracked {
      forall v: ObjVnum ensures CountOf(t.counts, v) == |Instances(t.tracked, v)| {
        InstancesWithout(s.tracked, o.id, v);
      }
    }
  }

  /** A place that may take an object: a slot must be empty. */
  ghost predicate Free(s: State, p: Placement) {
    p != Nowhere && (p.WornBy? ==> 0 <= p.at < NUM_WEARS && At(s, p) == [])
  }

  lemma AttachLists(s: State, o: Object, p: Placement)
    requires Linked(s) && o in s.place && Free(s, p)
    requires forall q :: o !in At(s, q)
    ensures forall q :: At(Attach(s, o, p), q) == if q == p then [o] + At(s, p) else At(s, q)
    ensures Linked(Attach(s, o, p))
  {
    var t := Attach(s, o, p);
    forall q ensures At(t, q) == if q == p then [o] + At(s, p) else At(s, q) {
      ListedPut(s.lists, p, [o] + At(s, p), q);
    }
    forall q | q in t.lists
      ensures q != Nowhere && t.lists[q] != [] && NoDup(t.lists[q])
      ensures q.WornBy? ==> 0 <= q.at < NUM_WEARS && |t.lists[q]| == 1
      ensures forall x | x in t.lists[q] :: x in t.place && t.place[x] == q
    {
      assert t.lists[q] == At(t, q);
      if q == p {
        assert NoDup(At(s, p));
        assert o !in At(s, p);
      } else {
        assert q in s.lists;
        assert o !in At(s, q);
      }
    }
  }

  lemma AttachPlaces(s: State, o: Object, p: Placement, loose: set<Object>)
    requires Closed(s) && Linked(s) && CompleteBut(s, loose)
    requires o in s.place && Free(s, p) && Known(s, p)
    requires forall q :: o !in At(s, q)
    ensures Closed(Attach(s, o, p)) && CompleteBut(Attach(s, o, p), loose)
  {
    AttachLists(s, o, p);
    var t := Attach(s, o, p);
    forall x | x in t.place ensures Known(t, t.place[x]) {
      assert x != o ==> Known(s, s.place[x]);
    }
    forall x | x in t.place && t.place[x] != Nowhere && x !in loose ensures x in At(t, t.place[x]) {
      assert x != o ==> x in At(s, s.place[x]);
    }
  }

  lemma TrackAttached(s: State, o: Object, p: Placement)
    requires IndexAgrees(s) && TracksPlaced(s) && o in s.place
    ensures IndexAgrees(Track(Attach(s, o, p), o)) && TracksPlaced(Track(Attach(s, o, p), o))
  {
    var t := Attach(s, o, p);
    assert t.place.Keys == s.place.Keys;
    assert IndexAgrees(t);
    TrackKeepsIndex(t, o);
    forall x | x in t.place && t.place[x] != Nowhere ensures x.id in Track(t, o).tracked {
      assert x != o ==> s.place[x] != Nowhere;
    }
  }

  /** The graph half of the invariant does not look at the object table. */
  lemma SameGraph(s: State, t: State, loose: set<Object>)
    requires t.place == s.place && t.lists == s.lists && t.records == s.records
    requires Closed(s) && Linked(s) && CompleteBut(s, loose) && Acyclic(s.place)
    ensures Closed(t) && Linked(t) && CompleteBut(t, loose) && Acyclic(t.place)
    ensures forall p :: At(t, p) == At(s, p)
  {
    forall x | x in t.place ensures Known(t, t.place[x]) {
      assert Known(s, s.place[x]);
    }
  }

  lemma MoveLists(s: State, o: Object, p: Placement)
    requires Linked(s) && o in s.place && Free(s, p)
    ensures var t := Move(s, o, p);
      && Linked(t) && t.place == s.place[o := p] && t.records == s.records
      && forall q :: At(t, q) == (if q == p then [o] else []) + Without(At(s, q), o)
  {
    DetachLists(s, o);
    var d := Detach(s, o);
    forall q ensures At(d, q) == Without(At(s, q), o) {
      if q != s.place[o] {
        assert o !in At(d, q);
        WithoutAbsent(At(s, q), o);
      }
    }
    AttachLists(d, o, p);
    assert d.place[o := p] == s.place[o := p];
    var t := Move(s, o, p);
    forall q ensures At(t, q) == (if q == p then [o] else []) + Without(At(s, q), o) {
      assert At(t, q) == At(Attach(d, o, p), q);
    }
  }

  lemma MoveKeepsInv(s: State, o: Object, p: Placement, loose: set<Object>)
    requires InvBut(s, loose) && o in s.place && Free(s, p) && Known(s, p)
    requires Acyclic(s.place[o := p])
    ensures InvBut(Move(s, o, p), loose - {o})
  {
    hide IndexAgrees, CompleteBut, TracksPlaced, Closed;
    DetachKeepsInv(s, o, loose);
    DetachLists(s, o);
    var d := Detach(s, o);
    assert d.place[o := p] == s.place[o := p];
    AttachPlaces(d, o, p, loose - {o});
    AttachLists(d, o, p);
    TrackAttached(d, o, p);
    SameGraph(Attach(d, o, p), Move(s, o, p), loose - {o});
  }

  // ----- containment ------------------------------------------------------

  /** The n-th thing around o: o itself, its container, the container of that, ... */
  function Around(place: map<Object, Placement>, o: Object, n: nat): Option<Object> {
    if n == 0 then Some(o)
    else match Around(place, o, n - 1)
         case None => None
         case Some(x) => if x in place && place[x].InContainer? then Some(place[x].container) else None
  }

  /** o is k, or contains k at some depth. */
  ghost predicate Encloses(place: map<Object, Placement>, o: Object, k: Object) {
    exists n: nat :: Around(place, k, n) == Some(o)
  }

  lemma {:induction false} AroundStops(place: map<Object, Placement>, o: Object, n: nat, m: nat)
    requires Around(place, o, n) == None && n <= m
    ensures Around(place, o, m) == None
  {
    if n < m {
      AroundStops(place, o, n, m - 1);
    }
  }

  lemma {:induction false} AroundRanksUp(place: map<Object, Placement>, rank: map<nat, nat>, o: Object, n: nat)
    requires Ranked(place, rank) && o in place && Around(place, o, n).Some?
    ensures var x := Around(place, o, n).value; x.id in rank && rank[x.id] >= rank[o.id] + n
  {
    if n > 0 {
      AroundRanksUp(place, rank, o, n - 1);
    }
  }

  /** An acyclic placement stays acyclic when o goes into k, provided o does not enclose k. */
  lemma NestKeepsAcyclic(s: State, o: Object, k: Object)
    requires Acyclic(s.place) && o in s.place && k in s.place && !Encloses(s.place, o, k)
    requires forall a, b | a in s.place && b in s.place && a.id == b.id :: a == b
    requires Closed(s)
    ensures Acyclic(s.place[o := InContainer(k)])
  {
    var place := s.place;
    var rank :| Ranked(place, rank);
    var ups := set x | x in place && Encloses(place, x, k) :: x.id;
    var raised := map id | id in rank :: if id in ups then rank[id] + rank[o.id] + 1 else rank[id];
    assert Around(place, k, 0) == Some(k);
    assert Encloses(place, k, k);
    assert o.id !in ups;
    forall x: Object | x in place[o := InContainer(k)]
      ensures x.id in raised
      ensures place[o := InContainer(k)][x].InContainer? ==>
                var y := place[o := InContainer(k)][x].container; y.id in raised && raised[x.id] < raised[y.id]
    {
      if x != o && place[x].InContainer? {
        var y := place[x].container;
        assert Known(s, place[x]);
        if Encloses(place, x, k) {
          var n: nat :| Around(place, k, n) == Some(x);
          assert Around(place, k, n + 1) == Some(y);
          assert Encloses(place, y, k);
        }
        assert x.id in ups ==> Encloses(place, x, k);
      }
    }
    assert Ranked(place[o := InContainer(k)], raised);
  }

  /** The converse: putting o inside something it encloses makes a cycle. */
  lemma NestMakesCycle(s: State, o: Object, k: Object)
    requires o in s.place && k in s.place && Encloses(s.place, o, k)
    ensures !Acyclic(s.place[o := InContainer(k)])
  {
    var place' := s.place[o := InContainer(k)];
    if rank :| Ranked(place', rank) {
      assert rank[o.id] < rank[k.id] by {
        assert o in place' && place'[o] == InContainer(k);
      }
      var n: nat :| Around(s.place, k, n) == Some(o);
      var m := FirstMeeting(s.place, k, o, n);
      AroundUnmoved(s.place, k, o, InContainer(k), m);
      AroundRanksUp(place', rank, k, m);
      assert false;
    }
  }

  lemma {:induction false} FirstMeeting(place: map<Object, Placement>, k: Object, o: Object, n: nat) returns (m: nat)
    requires Around(place, k, n) == Some(o)
    ensures m <= n && Around(place, k, m) == Some(o)
    ensures forall i: nat | i < m :: Around(place, k, i) != Some(o)
  {
    m := 0;
    while Around(place, k, m) != Some(o)
      invariant m <= n
      invariant forall i: nat | i < m :: Around(place, k, i) != Some(o)
      decreases n - m
    {
      m := m + 1;
    }
  }

  lemma {:induction false} AroundUnmoved(place: map<Object, Placement>, k: Object, o: Object, p: Placement, m: nat)
    requires forall i: nat | i < m :: Around(place, k, i) != Some(o)
    ensures Around(place[o := p], k, m) == Around(place, k, m)
  {
    if m > 0 {
      AroundUnmoved(place, k, o, p, m - 1);
    }
  }

  /** ObjectToObject: refused exactly when o is the container or already around it. */
  ghost function Nest(s: State, o: Object, k: Object): (State, bool) {
    if Encloses(s.place, o, k) then (s, false) else (Move(s, o, InContainer(k)), true)
  }

  lemma ShallowKeepsAcyclic(s: State, o: Object, p: Placement)
    requires Acyclic(s.place) && o in s.place && !p.InContainer?
    ensures Acyclic(s.place[o := p])
  {
    var rank :| Ranked(s.place, rank);
    assert Ranked(s.place[o := p], rank);
  }

  // ----- many moves -------------------------------------------------------

  /** Moves everything in kids to p, first to last. */
  function MoveAll(s: State, kids: seq<Object>, p: Placement): State {
    if kids == [] then s
    else Move(MoveAll(s, kids[..|kids| - 1], p), kids[|kids| - 1], p)
  }

  function Elems<T>(s: seq<T>): set<T> {
    set x | x in s
  }

  lemma {:induction false} MoveAllLists(s: State, kids: seq<Object>, p: Placement)
    requires Linked(s) && NoDup(kids) && Elems(kids) <= s.place.Keys && p != Nowhere && !p.WornBy?
    ensures var t := MoveAll(s, kids, p);
      && Linked(t) && t.place.Keys == s.place.Keys && t.records == s.records
      && (forall x | x in s.place :: t.place[x] == if x in kids then p else s.place[x])
      && (forall q :: At(t, q) == (if q == p then Reverse(kids) else []) + Minus(At(s, q), Elems(kids)))
  {
    hide Linked, NoDup, Reverse, Minus, Move, At, Elems;
    var t := MoveAll(s, kids, p);
    if kids == [] {
      NobodyMoves(s, p);
    } else {
      var init, last := kids[..|kids| - 1], kids[|kids| - 1];
      LastApart(kids);
      var u := MoveAll(s, init, p);
      MoveAllLists(s, init, p);
      MoveLists(u, last, p);
      forall q ensures At(t, q) == (if q == p then Reverse(kids) else []) + Minus(At(s, q), Elems(kids)) {
        ListIsDistinct(s, q);
        MoveAllListsAt(s, init, last, p, q);
      }
    }
  }

  lemma NobodyMoves(s: State, p: Placement)
    ensures forall q :: At(s, q) == (if q == p then Reverse<Object>([]) else []) + Minus(At(s, q), Elems<Object>([]))
  {
    forall q ensures At(s, q) == (if q == p then Reverse<Object>([]) else []) + Minus(At(s, q), Elems<Object>([])) {
      assert Elems<Object>([]) == {};
      MinusElements(At(s, q), {});
    }
  }

  /** The last of a list of different things. */
  lemma LastApart(kids: seq<Object>)
    requires kids != [] && NoDup(kids)
    ensures var init, last := kids[..|kids| - 1], kids[|kids| - 1];
      && kids == init + [last] && NoDup(init) && last !in init && Elems(kids) == Elems(init) + {last}
      && forall x :: x in kids <==> x in init || x == last
  {
    var init, last := kids[..|kids| - 1], kids[|kids| - 1];
    assert kids == init + [last];
  }

  lemma ReverseAnother<T>(init: seq<T>, last: T, rest: seq<T>)
    requires last !in init
    ensures [last] + Without(Reverse(init) + rest, last) == Reverse(init + [last]) + Without(rest, last)
  {
    ReverseSnoc(init, last);
    ReverseElements(init);
    WithoutPast(Reverse(init), rest, last);
  }

  lemma MoveAllListsAt(s: State, init: seq<Object>, last: Object, p: Placement, q: Placement)
    requires NoDup(At(s, q)) && last !in init
    ensures (if q == p then [last] else [])
      + Without((if q == p then Reverse(init) else []) + Minus(At(s, q), Elems(init)), last)
      == (if q == p then Reverse(init + [last]) else []) + Minus(At(s, q), Elems(init) + {last})
  {
    var rest, gone := Minus(At(s, q), Elems(init)), Elems(init);
    MinusAnother(At(s, q), gone, last);
    hide *;
    if q == p {
      ReverseAnother(init, last, rest);
    } else {
      assert [] + rest == rest;
      assert [] + Without(rest, last) == Without(rest, last);
    }
  }

  lemma {:induction false} WithoutPast<T>(a: seq<T>, b: seq<T>, x: T)
    requires x !in a
    ensures Without(a + b, x) == a + Without(b, x)
  {
    if a == [] {
      assert a + b == b;
    } else {
      assert (a + b)[1..] == a[1..] + b;
      WithoutPast(a[1..], b, x);
    }
  }

  /** Moving tracked things about leaves the object table and the index alone. */
  lemma {:induction false} MoveAllTracked(s: State, kids: seq<Object>, p: Placement)
    requires forall k | k in kids :: k.id in s.tracked
    ensures MoveAll(s, kids, p).tracked == s.tracked && MoveAll(s, kids, p).counts == s.counts
  {
    if kids != [] {
      MoveAllTracked(s, kids[..|kids| - 1], p);
    }
  }
}
