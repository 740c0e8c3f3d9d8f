/** Who stands where: coming into a room, leaving it, and what every coming and going keeps. */
module Presence {
  import opened ObjectGraph

  class Body {
    var room: RoomVnum

    constructor ()
      ensures room == NO_ROOM
    {
      room := NO_ROOM;
    }
  }

  datatype Where = Where(room: map<Body, RoomVnum>, occupants: map<RoomVnum, seq<Body>>)

  function In(w: Where, r: RoomVnum): seq<Body> {
    if r in w.occupants then w.occupants[r] else []
  }

  /** The occupants of r become l; an empty room is not kept. */
  function Keep(occupants: map<RoomVnum, seq<Body>>, r: RoomVnum, l: seq<Body>): map<RoomVnum, seq<Body>> {
    if l == [] then occupants - {r} else occupants[r := l]
  }

  /** Everybody listed in a room is in it, once, and no empty room is kept. */
  ghost predicate Orderly(w: Where) {
    && (forall r | r in w.occupants :: w.occupants[r] != [] && NoDup(w.occupants[r]))
    && forall r, c | r in w.occupants && c in w.occupants[r] :: c in w.room && w.room[c] == r
  }

  function Leave(w: Where, c: Body): Where {
    if c in w.room && c in In(w, w.room[c]) then
      w.(occupants := Keep(w.occupants, w.room[c], Without(In(w, w.room[c]), c)))
    else w
  }

  /** False when there is no such room. */
  function Enter(w: Where, rooms: set<RoomVnum>, c: Body, room: RoomVnum): (Where, bool) {
    if room !in rooms then (w, false)
    else
      var t := Leave(w, c);
      (Where(t.room[c := room], t.occupants[room := [c] + In(t, room)]), true)
  }

  lemma LeaveEffect(w: Where, c: Body)
    requires Orderly(w) && c in w.room
    ensures Orderly(Leave(w, c)) && Leave(w, c).room == w.room
    ensures forall r :: c !in In(Leave(w, c), r) && In(Leave(w, c), r) == Without(In(w, r), c)
  {
    var here, t := w.room[c], Leave(w, c);
    forall r
      ensures c !in In(t, r) && In(t, r) == Without(In(w, r), c)
      ensures NoDup(In(t, r)) && forall x :: x in In(t, r) ==> x in In(w, r)
    {
      WithoutKeepsOthers(In(w, r), c);
      if r != here || c !in In(w, here) {
        WithoutAbsent(In(w, r), c);
        assert In(t, r) == In(w, r);
      } else {
        assert In(t, r) == Without(In(w, r), c);
      }
    }
    forall r, x | r in t.occupants && x in t.occupants[r] ensures x in t.room && t.room[x] == r {
      assert x in In(t, r);
    }
  }

  /** Whoever enters a room is at the head of its list and in no other; nobody else is moved, nor
      their order changed. */
  lemma EnterEffect(w: Where, rooms: set<RoomVnum>, c: Body, room: RoomVnum)
    requires Orderly(w) && c in w.room && room in rooms
    ensures var t := Enter(w, rooms, c, room).0;
      && Orderly(t) && t.room == w.room[c := room]
      && forall r :: In(t, r) == (if r == room then [c] else []) + Without(In(w, r), c)
  {
    hide Leave, Orderly, Without;
    var u, t := Leave(w, c), Enter(w, rooms, c, room).0;
    LeaveEffect(w, c);
    EnteredOrderly(u, c, room);
    assert t.occupants[room] == [c] + In(u, room);
    forall r ensures In(t, r) == (if r == room then [c] else []) + Without(In(w, r), c) {
      assert [] + In(u, r) == In(u, r);
    }
  }

  /** Somebody listed nowhere, put at the head of a room. */
  lemma EnteredOrderly(u: Where, c: Body, room: RoomVnum)
    requires Orderly(u) && c in u.room && forall r :: c !in In(u, r)
    ensures Orderly(Where(u.room[c := room], u.occupants[room := [c] + In(u, room)]))
  {
    var t := Where(u.room[c := room], u.occupants[room := [c] + In(u, room)]);
    forall r | r in t.occupants ensures t.occupants[r] != [] && NoDup(t.occupants[r]) {
      assert r != room ==> t.occupants[r] == u.occupants[r];
      assert forall j | 0 <= j < |In(u, room)| :: In(u, room)[j] in In(u, room);
    }
    forall r, x | r in t.occupants && x in t.occupants[r] ensures x in t.room && t.room[x] == r {
      assert x in In(u, r) || x == c;
    }
  }

  datatype Op = Enters(c: Body, to: RoomVnum) | Leaves(c: Body)

  function Run(w: Where, rooms: set<RoomVnum>, ops: seq<Op>): Where {
    if ops == [] then w
    else
      var t := Run(w, rooms, ops[..|ops| - 1]);
      match ops[|ops| - 1]
      case Enters(c, room) => Enter(t, rooms, c, room).0
      case Leaves(c) => Leave(t, c)
  }

  /** Over every run each body is listed in at most one room, the one it is in. */
  lemma {:induction false} RunKeepsOrder(w: Where, rooms: set<RoomVnum>, ops: seq<Op>)
    requires Orderly(w) && forall op | op in ops :: op.c in w.room
    ensures Orderly(Run(w, rooms, ops)) && Run(w, rooms, ops).room.Keys == w.room.Keys
  {
    if ops != [] {
      var front, op := ops[..|ops| - 1], ops[|ops| - 1];
      RunKeepsOrder(w, rooms, front);
      var t := Run(w, rooms, front);
      assert op.c in w.room;
      if op.Enters? && op.to in rooms {
        EnterEffect(t, rooms, op.c, op.to);
      } else if op.Leaves? {
        LeaveEffect(t, op.c);
      }
    }
  }

  class House {
    const rooms: set<RoomVnum>
    var occupants: map<RoomVnum, seq<Body>>
    ghost var bodies: set<Body>

    ghost function View(): Where
      reads this, bodies`room
    {
      Where(map c | c in bodies :: c.room, occupants)
    }

    constructor (rooms: set<RoomVnum>)
      ensures this.rooms == rooms && occupants == map[] && bodies == {} && Orderly(View())
    {
      this.rooms, occupants, bodies := rooms, map[], {};
    }

    /** A body that is in no room yet. */
    ghost method Admit(c: Body)
      requires c !in bodies && Orderly(View())
      modifies `bodies
      ensures bodies == old(bodies) + {c} && Orderly(View())
      ensures View() == old(View()).(room := old(View()).room[c := c.room])
    {
      bodies := bodies + {c};
      assert View().room == old(View()).room[c := c.room];
    }

    function Here(r: RoomVnum): seq<Body>
      reads `occupants
    {
      if r in occupants then occupants[r] else []
    }

    method LeaveRoom(c: Body)
      requires c in bodies
      modifies `occupants
      ensures View() == Leave(old(View()), c)
    {
      var here := Here(c.room);
      for i := 0 to |here|
        invariant occupants == old(occupants)
        invariant c !in here[..i] && Without(here, c) == here[..i] + Without(here[i..], c)
      {
        assert here[i..][1..] == here[i + 1..] && here[..i + 1] == here[..i] + [here[i]];
        if here[i] != c {
          continue;
        }
        occupants := occupants[c.room := here[..i] + here[i + 1..]];
        if |occupants[c.room]| == 0 {
          occupants := occupants - {c.room};
        }
        return;
      }
      assert here[..|here|] == here;
    }

    method EnterRoom(c: Body, room: RoomVnum) returns (ok: bool)
      requires c in bodies
      modifies `occupants, c`room
      ensures (View(), ok) == Enter(old(View()), rooms, c, room)
    {
      if room !in rooms {
        return false;
      }
      LeaveRoom(c);
      ghost var left := View();
      c.room := room;
      occupants := occupants[room := [c] + Here(room)];
      assert View().room == left.room[c := room];
      return true;
    }
  }
}
