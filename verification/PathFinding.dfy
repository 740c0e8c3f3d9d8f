/** FindFirstStep: breadth-first search over the room graph, returning the first direction of a
    shortest path, with ties going to the lowest direction. */
module PathFinding {
  import opened Options
  import ObjectGraph

  const NUM_DIRECTIONS: nat := 6
  const BFS_ERROR := -1
  const BFS_ALREADY_THERE := -2
  const BFS_NO_PATH := -3

  type Vnum = int

  datatype Exit = Exit(toRoom: Vnum, closed: bool)

  /** `exits` has an entry for each direction that has an exit. */
  datatype Room = Room(exits: map<nat, Exit>, noTrack: bool)

  datatype World = World(rooms: map<Vnum, Room>, throughDoors: bool)

  datatype Step = Step(room: Vnum, dir: nat)

  /** An exit that exists, leads somewhere that exists, may be passed, and does not lead into a
      room that cannot be tracked through. */
  function Edge(w: World, from: Vnum, dir: nat): Option<Vnum> {
    if from !in w.rooms || dir >= NUM_DIRECTIONS || dir !in w.rooms[from].exits then None
    else
      var exit := w.rooms[from].exits[dir];
      if exit.toRoom == ObjectGraph.NO_ROOM || (!w.throughDoors && exit.closed) then None
      else if exit.toRoom !in w.rooms || w.rooms[exit.toRoom].noTrack then None
      else Some(exit.toRoom)
  }

  /** Where a walk ends, when every step of it is an edge. */
  function End(w: World, src: Vnum, walk: seq<nat>): Option<Vnum> {
    if walk == [] then Some(src)
    else match End(w, src, walk[..|walk| - 1])
         case None => None
         case Some(u) => Edge(w, u, walk[|walk| - 1])
  }

  /** An exit in one of the six directions goes from one room to another there is, where trails are
      not lost, and it is open, unless trails pass doors. */
  predicate Passage(w: World, from: Vnum, dir: nat, to: Vnum) {
    && from in w.rooms && dir < 6 && dir in w.rooms[from].exits && w.rooms[from].exits[dir].toRoom == to
    && to in w.rooms && to != -1 && !w.rooms[to].noTrack
    && (w.rooms[from].exits[dir].closed ==> w.throughDoors)
  }

  /** The rooms a walk passes, from its start to its end. */
  predicate Passes(w: World, rooms: seq<Vnum>, walk: seq<nat>) {
    |rooms| == |walk| + 1 && forall i | 0 <= i < |walk| :: Passage(w, rooms[i], walk[i], rooms[i + 1])
  }

  /** The walk leads from src to target. */
  ghost predicate Leads(w: World, src: Vnum, target: Vnum, walk: seq<nat>) {
    exists rooms :: Passes(w, rooms, walk) && rooms[0] == src && rooms[|walk|] == target
  }

  /** The same, edge by edge. */
  ghost predicate Arrives(w: World, src: Vnum, target: Vnum, walk: seq<nat>) {
    End(w, src, walk) == Some(target)
  }

  lemma {:induction false} LeadsIs(w: World, src: Vnum, target: Vnum, walk: seq<nat>)
    ensures Leads(w, src, target, walk) <==> Arrives(w, src, target, walk)
    decreases |walk|
  {
    if walk == [] {
      assert Passes(w, [src], walk);
    } else {
      var init, last := walk[..|walk| - 1], walk[|walk| - 1];
      if Leads(w, src, target, walk) {
        var rooms :| Passes(w, rooms, walk) && rooms[0] == src && rooms[|walk|] == target;
        var u := rooms[|init|];
        assert Passes(w, rooms[..|walk|], init);
        LeadsIs(w, src, u, init);
      }
      if Arrives(w, src, target, walk) {
        var u := End(w, src, init).value;
        LeadsIs(w, src, u, init);
        var rooms :| Passes(w, rooms, init) && rooms[0] == src && rooms[|init|] == u;
        assert Passes(w, rooms + [target], walk);
      }
    }
  }

  lemma LeadsAlways(w: World, src: Vnum, target: Vnum)
    ensures forall walk :: Leads(w, src, target, walk) <==> Arrives(w, src, target, walk)
  {
    forall walk ensures Leads(w, src, target, walk) <==> Arrives(w, src, target, walk) {
      LeadsIs(w, src, target, walk);
    }
  }

  ghost predicate Reachable(w: World, src: Vnum, target: Vnum) {
    exists walk :: Leads(w, src, target, walk)
  }

  ghost predicate Shortest(w: World, src: Vnum, target: Vnum, walk: seq<nat>) {
    && Leads(w, src, target, walk)
    && forall other :: Leads(w, src, target, other) ==> |walk| <= |other|
  }

  // ----- what the search knows --------------------------------------------

  /** The direction the walk to a step's room sets out in is the step's. `walk` holds a walk to
      every marked room; `order` lists the marked rooms but for src, as they were queued. */
  ghost predicate Known(w: World, src: Vnum, order: seq<Step>, walk: map<Vnum, seq<nat>>) {
    && src in walk && walk[src] == []
    && (forall v | v in walk :: v in w.rooms && Arrives(w, src, v, walk[v]))
    && (forall s | s in order :: s.room in walk && walk[s.room] != [] && walk[s.room][0] == s.dir)
    && (forall v | v in walk && v != src :: walk[v] != [] && Step(v, walk[v][0]) in order)
  }

  /** The queue is in order of distance, and within a distance of direction. */
  ghost predicate InOrder(order: seq<Step>, walk: map<Vnum, seq<nat>>)
    requires forall s | s in order :: s.room in walk
  {
    forall i, j | 0 <= i < j < |order| ::
      var m, n := |walk[order[i].room]|, |walk[order[j].room]|;
      m < n || (m == n && order[i].dir <= order[j].dir)
  }

  /** Nothing queued is more than one step beyond the head, nor beyond it in a later direction. */
  ghost predicate Frontier(head: Step, order: seq<Step>, walk: map<Vnum, seq<nat>>)
    requires head.room in walk && forall s | s in order :: s.room in walk
  {
    forall s | s in order ::
      var m, n := |walk[head.room]|, |walk[s.room]|;
      n <= m + 1 && (n == m + 1 ==> s.dir <= head.dir)
  }

  /** Every edge out of u in the first n directions has been taken account of. `lead` is the
      direction a walk through u in the given direction sets out in. */
  ghost predicate Relaxed(w: World, src: Vnum, u: Vnum, n: nat, walk: map<Vnum, seq<nat>>)
    requires u in walk && (u != src ==> walk[u] != [])
  {
    forall dir | 0 <= dir < n && Edge(w, u, dir).Some? ::
      var v := Edge(w, u, dir).value;
      && v in walk
      && |walk[v]| <= |walk[u]| + 1
      && (|walk[v]| == |walk[u]| + 1 ==> walk[v][0] <= if u == src then dir else walk[u][0])
  }

  /** The state between two rounds of the main loop. */
  ghost predicate Searching(w: World, src: Vnum, done: seq<Step>, queue: seq<Step>, walk: map<Vnum, seq<nat>>) {
    && Known(w, src, done + queue, walk)
    && InOrder(done + queue, walk)
    && Relaxed(w, src, src, NUM_DIRECTIONS, walk)
    && (forall s | s in done :: s in done + queue && s.room != src && Relaxed(w, src, s.room, NUM_DIRECTIONS, walk))
    && (queue != [] ==> queue[0] in done + queue && Frontier(queue[0], done + queue, walk))
  }

  lemma {:induction false} WalkStep(w: World, src: Vnum, walk: seq<nat>, u: Vnum, dir: nat)
    requires Arrives(w, src, u, walk)
    ensures End(w, src, walk + [dir]) == Edge(w, u, dir)
  {
    assert (walk + [dir])[..|walk|] == walk;
  }

  /** A room whose queued walk is shorter than `bound` has been dealt with. */
  ghost predicate DoneBelow(w: World, src: Vnum, walk: map<Vnum, seq<nat>>, bound: nat) {
    && src in walk && walk[src] == []
    && forall u | u in walk && |walk[u]| < bound ::
         (u != src ==> walk[u] != []) && Relaxed(w, src, u, NUM_DIRECTIONS, walk)
  }

  /** Any walk of at most `bound` steps ends at a marked room, whose own walk is no longer and, if
      as long, sets out in no later a direction. */
  lemma {:induction false} NoShorter(w: World, src: Vnum, walk: map<Vnum, seq<nat>>, bound: nat, other: seq<nat>)
    requires DoneBelow(w, src, walk, bound)
    requires |other| <= bound && End(w, src, other).Some?
    ensures var v := End(w, src, other).value;
      && v in walk && |walk[v]| <= |other|
      && (|walk[v]| == |other| && other != [] ==> walk[v][0] <= other[0])
  {
    if other != [] {
      var init, last := other[..|other| - 1], other[|other| - 1];
      NoShorter(w, src, walk, bound, init);
      var u := End(w, src, init).value;
      assert Relaxed(w, src, u, NUM_DIRECTIONS, walk);
      var v := Edge(w, u, last).value;
      assert |walk[v]| <= |walk[u]| + 1;
      if |walk[v]| == |other| {
        assert |walk[u]| == |init|;
        if u == src {
          assert init == [];
        } else {
          assert init[0] == other[0];
        }
      }
    }
  }

  // ----- one edge at a time -----------------------------------------------

  /** The state inside the loop over the head's exits, the first n of them seen to. */
  ghost predicate Expanding(w: World, src: Vnum, done: seq<Step>, queue: seq<Step>, walk: map<Vnum, seq<nat>>, n: nat) {
    && Searching(w, src, done, queue, walk) && queue != []
    && queue[0].room in walk && walk[queue[0].room] != [] && Relaxed(w, src, queue[0].room, n, walk)
  }

  lemma StartExpanding(w: World, src: Vnum, done: seq<Step>, queue: seq<Step>, walk: map<Vnum, seq<nat>>)
    requires Searching(w, src, done, queue, walk) && queue != []
    ensures Expanding(w, src, done, queue, walk, 0)
    ensures queue[0].room in walk && walk.Keys <= w.rooms.Keys
  {
    assert queue[0] in done + queue;
    MarkedExist(w, src, done + queue, walk);
  }

  lemma MarkedExist(w: World, src: Vnum, order: seq<Step>, walk: map<Vnum, seq<nat>>)
    requires Known(w, src, order, walk)
    ensures walk.Keys <= w.rooms.Keys
  {
    forall v | v in walk ensures v in w.rooms {
      assert Arrives(w, src, v, walk[v]);
    }
  }

  lemma MarkedIsNear(w: World, src: Vnum, done: seq<Step>, queue: seq<Step>, walk: map<Vnum, seq<nat>>, n: nat)
    requires Expanding(w, src, done, queue, walk, n)
    requires Edge(w, queue[0].room, n).Some? ==> Edge(w, queue[0].room, n).value in walk
    ensures Expanding(w, src, done, queue, walk, n + 1)
  {
    var head := queue[0];
    assert head in done + queue;
    assert walk[head.room][0] == head.dir;
    if Edge(w, head.room, n).Some? {
      var v := Edge(w, head.room, n).value;
      if v != src {
        var s := Step(v, walk[v][0]);
        assert s in done + queue;
      }
    }
  }

  lemma RelaxedStill(w: World, src: Vnum, u: Vnum, n: nat, walk: map<Vnum, seq<nat>>, v: Vnum, to: seq<nat>)
    requires u in walk && (u != src ==> walk[u] != []) && Relaxed(w, src, u, n, walk) && v !in walk
    ensures Relaxed(w, src, u, n, walk[v := to])
  {
  }

  lemma PushKnown(w: World, src: Vnum, order: seq<Step>, walk: map<Vnum, seq<nat>>, u: Vnum, n: nat, lead: nat)
    requires Known(w, src, order, walk) && u in walk && Edge(w, u, n).Some? && Edge(w, u, n).value !in walk
    requires lead == if walk[u] == [] then n else walk[u][0]
    ensures var v := Edge(w, u, n).value;
      Known(w, src, order + [Step(v, lead)], walk[v := walk[u] + [n]])
  {
    var v := Edge(w, u, n).value;
    WalkStep(w, src, walk[u], u, n);
    var walk', order' := walk[v := walk[u] + [n]], order + [Step(v, lead)];
    assert walk'[v][0] == lead;
    forall x | x in walk' && x != src ensures walk'[x] != [] && Step(x, walk'[x][0]) in order' {
      if x != v {
        assert Step(x, walk[x][0]) in order;
      } else {
        assert order'[|order|] == Step(v, lead);
      }
    }
  }

  lemma PushInOrder(order: seq<Step>, walk: map<Vnum, seq<nat>>, s: Step, to: seq<nat>)
    requires (forall x | x in order :: x.room in walk) && s.room !in walk && InOrder(order, walk)
    requires forall x | x in order :: |walk[x.room]| < |to| || (|walk[x.room]| == |to| && x.dir <= s.dir)
    ensures forall x | x in order + [s] :: x.room in walk[s.room := to]
    ensures InOrder(order + [s], walk[s.room := to])
  {
    var order' := order + [s];
    forall i, j | 0 <= i < j < |order'|
      ensures order'[i].room in walk && (j < |order| ==> order'[j].room in walk)
    {
      assert order'[i] in order;
      assert j < |order| ==> order'[j] in order;
    }
  }

  /** Queueing an unmarked room behind the head. */
  lemma PushFromHead(w: World, src: Vnum, done: seq<Step>, queue: seq<Step>, walk: map<Vnum, seq<nat>>, n: nat)
    requires Expanding(w, src, done, queue, walk, n) && n < NUM_DIRECTIONS
    requires Edge(w, queue[0].room, n).Some? && Edge(w, queue[0].room, n).value !in walk
    ensures var head, v := queue[0], Edge(w, queue[0].room, n).value;
      Expanding(w, src, done, queue + [Step(v, head.dir)], walk[v := walk[head.room] + [n]], n + 1)
  {
    var head, v := queue[0], Edge(w, queue[0].room, n).value;
    var order, to := done + queue, walk[head.room] + [n];
    var s, walk' := Step(v, head.dir), walk[v := to];
    assert head in order && walk[head.room][0] == head.dir;
    PushKnown(w, src, order, walk, head.room, n, head.dir);
    PushInOrder(order, walk, s, to);
    assert done + (queue + [s]) == order + [s];
    RelaxedStill(w, src, src, NUM_DIRECTIONS, walk, v, to);
    RelaxedStill(w, src, head.room, n, walk, v, to);
    forall x | x in done ensures x in order + [s] && x.room != src && Relaxed(w, src, x.room, NUM_DIRECTIONS, walk') {
      assert x in order;
      RelaxedStill(w, src, x.room, NUM_DIRECTIONS, walk, v, to);
    }
    assert Frontier(head, order + [s], walk') by {
      forall x | x in order + [s]
        ensures |walk'[x.room]| <= |walk'[head.room]| + 1
        ensures |walk'[x.room]| == |walk'[head.room]| + 1 ==> x.dir <= head.dir
      {
        assert x in order || x == s;
      }
    }
  }

  /** When all the head's exits have been seen to, the search moves on. */
  lemma Advance(w: World, src: Vnum, done: seq<Step>, queue: seq<Step>, walk: map<Vnum, seq<nat>>)
    requires Expanding(w, src, done, queue, walk, NUM_DIRECTIONS)
    ensures Searching(w, src, done + [queue[0]], queue[1..], walk)
    ensures walk.Keys <= w.rooms.Keys
  {
    var head, order := queue[0], done + queue;
    assert (done + [head]) + queue[1..] == order;
    assert head in order;
    MarkedExist(w, src, order, walk);
    if |queue| > 1 {
      var next := queue[1];
      assert order[|done|] == head && order[|done| + 1] == next;
      assert next in order;
    }
  }

  // ----- the first steps --------------------------------------------------

  /** The state inside the loop over src's own exits. */
  ghost predicate Starting(w: World, src: Vnum, queue: seq<Step>, walk: map<Vnum, seq<nat>>, n: nat) {
    && Known(w, src, queue, walk) && InOrder(queue, walk)
    && (forall s | s in queue :: |walk[s.room]| == 1 && s.dir < n)
    && Relaxed(w, src, src, n, walk)
  }

  lemma StartMarked(w: World, src: Vnum, queue: seq<Step>, walk: map<Vnum, seq<nat>>, n: nat)
    requires Starting(w, src, queue, walk, n)
    requires Edge(w, src, n).Some? ==> Edge(w, src, n).value in walk
    ensures Starting(w, src, queue, walk, n + 1)
  {
    if Edge(w, src, n).Some? {
      var v := Edge(w, src, n).value;
      if v != src {
        assert Step(v, walk[v][0]) in queue;
      }
    }
  }

  lemma StartPush(w: World, src: Vnum, queue: seq<Step>, walk: map<Vnum, seq<nat>>, n: nat)
    requires Starting(w, src, queue, walk, n) && Edge(w, src, n).Some? && Edge(w, src, n).value !in walk
    ensures var v := Edge(w, src, n).value; Starting(w, src, queue + [Step(v, n)], walk[v := [n]], n + 1)
  {
    var v := Edge(w, src, n).value;
    var s, walk' := Step(v, n), walk[v := [n]];
    assert walk[src] + [n] == [n];
    PushKnown(w, src, queue, walk, src, n, n);
    PushInOrder(queue, walk, s, [n]);
    RelaxedStill(w, src, src, n, walk, v, [n]);
    forall x | x in queue + [s] ensures |walk'[x.room]| == 1 && x.dir < n + 1 {
      assert x in queue || x == s;
    }
  }

  lemma Started(w: World, src: Vnum, queue: seq<Step>, walk: map<Vnum, seq<nat>>)
    requires Starting(w, src, queue, walk, NUM_DIRECTIONS)
    ensures Searching(w, src, [], queue, walk)
  {
    assert [] + queue == queue;
    if queue != [] {
      assert queue[0] in queue;
    }
  }

  // ----- the answer -------------------------------------------------------

  lemma HeadIsNearest(w: World, src: Vnum, done: seq<Step>, queue: seq<Step>, walk: map<Vnum, seq<nat>>)
    requires Searching(w, src, done, queue, walk) && queue != [] && queue[0].room in walk
    ensures DoneBelow(w, src, walk, |walk[queue[0].room]|)
  {
    var order, head := done + queue, queue[0];
    assert order[|done|] == head;
    forall u | u in walk && |walk[u]| < |walk[head.room]|
      ensures (u != src ==> walk[u] != []) && Relaxed(w, src, u, NUM_DIRECTIONS, walk)
    {
      if u != src {
        var s := Step(u, walk[u][0]);
        assert s in order;
        var i :| 0 <= i < |order| && order[i] == s;
        if i < |done| {
          assert s == done[i] && s in done;
        }
      }
    }
  }

  lemma {:induction false} SetsOutInADirection(w: World, src: Vnum, walk: seq<nat>)
    requires walk != [] && End(w, src, walk).Some?
    ensures walk[0] < NUM_DIRECTIONS
  {
    if |walk| > 1 {
      SetsOutInADirection(w, src, walk[..|walk| - 1]);
    }
  }

  lemma Found(w: World, src: Vnum, done: seq<Step>, queue: seq<Step>, walk: map<Vnum, seq<nat>>, target: Vnum)
    requires Searching(w, src, done, queue, walk) && queue != [] && queue[0].room == target && target != src
    ensures FirstOfShortest(w, src, target, queue[0].dir) && queue[0].dir < NUM_DIRECTIONS
    ensures Reachable(w, src, target)
  {
    hide Leads;
    LeadsAlways(w, src, target);
    var head := queue[0];
    assert head in done + queue;
    var best := walk[target];
    HeadIsNearest(w, src, done, queue, walk);
    forall other | Leads(w, src, target, other) ensures |best| <= |other| {
      if |other| < |best| { NoShorter(w, src, walk, |best|, other); }
    }
    assert Shortest(w, src, target, best) && best[0] == head.dir;
    SetsOutInADirection(w, src, best);
    forall other | Shortest(w, src, target, other) ensures other != [] && head.dir <= other[0] {
      assert |other| == |best|;
      NoShorter(w, src, walk, |best|, other);
    }
  }

  lemma NotFound(w: World, src: Vnum, done: seq<Step>, walk: map<Vnum, seq<nat>>, target: Vnum)
    requires Searching(w, src, done, [], walk) && target != src && forall s | s in done :: s.room != target
    ensures !Reachable(w, src, target)
  {
    hide Leads;
    LeadsAlways(w, src, target);
    assert done + [] == done;
    assert forall v | v in walk && v != src :: Step(v, walk[v][0]) in done && Step(v, walk[v][0]).room == v;
    forall other ensures !Leads(w, src, target, other) {
      if Leads(w, src, target, other) {
        forall u | u in walk && |walk[u]| < |other|
          ensures (u != src ==> walk[u] != []) && Relaxed(w, src, u, NUM_DIRECTIONS, walk)
        {
          if u != src { assert Step(u, walk[u][0]) in done; }
        }
        NoShorter(w, src, walk, |other|, other);
      }
    }
  }

  /** dir begins a shortest walk, and no shortest walk begins with a lower direction. */
  ghost predicate FirstOfShortest(w: World, src: Vnum, target: Vnum, dir: nat) {
    && (exists walk :: Shortest(w, src, target, walk) && walk != [] && walk[0] == dir)
    && (forall walk :: Shortest(w, src, target, walk) ==> walk != [] && dir <= walk[0])
  }

  /** Before the first step. */
  lemma Setting(w: World, src: Vnum)
    requires src in w.rooms
    ensures Starting(w, src, [], map[src := []], 0) && Reachable(w, src, src)
  {
    LeadsIs(w, src, src, []);
  }

  method FindFirstStep(w: World, src: Vnum, target: Vnum) returns (r: int)
    ensures r == BFS_ERROR <==> src !in w.rooms || target !in w.rooms
    ensures r == BFS_ALREADY_THERE <==> src in w.rooms && src == target
    ensures r == BFS_NO_PATH <==> src in w.rooms && target in w.rooms && !Reachable(w, src, target)
    ensures r >= 0 <==> src in w.rooms && target in w.rooms && src != target && Reachable(w, src, target)
    ensures r >= 0 ==> r < NUM_DIRECTIONS && FirstOfShortest(w, src, target, r)
  {
    hide Searching, Expanding, Starting, Known, InOrder, Frontier, Relaxed, Reachable, FirstOfShortest, Edge, Leads, Arrives;
    if src !in w.rooms || target !in w.rooms {
      return BFS_ERROR;
    }
    Setting(w, src);
    if src == target {
      return BFS_ALREADY_THERE;
    }
    var marked, queue := {src}, [];
    ghost var walk: map<Vnum, seq<nat>> := map[src := []];
    for dir := 0 to NUM_DIRECTIONS
      invariant Starting(w, src, queue, walk, dir) && marked == walk.Keys
    {
      var to := Edge(w, src, dir);
      if to.Some? && to.value !in marked {
        StartPush(w, src, queue, walk, dir);
        marked := marked + {to.value};
        queue := queue + [Step(to.value, dir)];
        walk := walk[to.value := [dir]];
      } else {
        StartMarked(w, src, queue, walk, dir);
      }
    }
    Started(w, src, queue, walk);
    ghost var done := [];
    while queue != []
      invariant Searching(w, src, done, queue, walk) && marked == walk.Keys
      invariant forall s | s in done :: s.room != target
      decreases w.rooms.Keys - walk.Keys, |queue|
    {
      var head := queue[0];
      StartExpanding(w, src, done, queue, walk);
      if head.room == target {
        Found(w, src, done, queue, walk, target);
        return head.dir;
      }
      ghost var before, length := walk, |queue|;
      for dir := 0 to NUM_DIRECTIONS
        invariant Expanding(w, src, done, queue, walk, dir) && marked == walk.Keys && queue != [] && queue[0] == head
        invariant before.Keys <= walk.Keys && (walk.Keys == before.Keys ==> |queue| == length)
      {
        var to := Edge(w, head.room, dir);
        if to.Some? && to.value !in marked {
          PushFromHead(w, src, done, queue, walk, dir);
          marked := marked + {to.value};
          queue := queue + [Step(to.value, head.dir)];
          walk := walk[to.value := walk[head.room] + [dir]];
        } else {
          MarkedIsNear(w, src, done, queue, walk, dir);
        }
      }
      Advance(w, src, done, queue, walk);
      done := done + [head];
      queue := queue[1..];
    }
    NotFound(w, src, done, walk, target);
    return BFS_NO_PATH;
  }
}
