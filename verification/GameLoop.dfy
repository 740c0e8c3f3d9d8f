/** The game loop: a bounded queue of tasks, a pulse that follows real time, and work that is due
    every so many pulses. */
module GameLoop {

  /** Work for the world goroutine, with everything that is queued while it runs, by it or by
      anybody else. */
  datatype Task = Task(id: int, queues: seq<Task>)

  datatype Periodic = Periodic(every: nat, work: Task)

  const DEFAULT_DEPTH := 1024

  // ----- the pulse --------------------------------------------------------

  /** The pulse after a tick: the next, or what real time has got to. */
  function Advance(pulse: nat, elapsed: nat): nat {
    if elapsed > pulse + 1 then elapsed else pulse + 1
  }

  /** What falls due when the pulse goes from one count to another. */
  predicate Due(every: nat, previous: nat, pulse: nat) {
    every != 0 && pulse / every != previous / every
  }

  /** The entries of a schedule that are due, by their index. */
  function DueOf(schedule: seq<Periodic>, previous: nat, pulse: nat): seq<nat> {
    if schedule == [] then []
    else
      var front := DueOf(schedule[..|schedule| - 1], previous, pulse);
      if Due(schedule[|schedule| - 1].every, previous, pulse) then front + [|schedule| - 1] else front
  }

  // ----- the queue --------------------------------------------------------

  function Min(a: int, b: int): int { if a < b then a else b }

  /** The queue after some tasks have been offered to it, one by one, in order. */
  function Offered(tasks: seq<Task>, more: seq<Task>, depth: nat): seq<Task> {
    if more == [] then tasks
    else
      var t := Offered(tasks, more[..|more| - 1], depth);
      if |t| < depth then t + [more[|more| - 1]] else t
  }

  /** As many are accepted as there is room for, from the front. */
  lemma {:induction false} OfferedIs(tasks: seq<Task>, more: seq<Task>, depth: nat)
    requires |tasks| <= depth
    ensures Offered(tasks, more, depth) == tasks + more[..Min(|more|, depth - |tasks|)]
  {
    if more == [] {
      assert tasks + [] == tasks;
    } else {
      var front := more[..|more| - 1];
      OfferedIs(tasks, front, depth);
      if |more| <= depth - |tasks| {
        assert more == front + [more[|more| - 1]] && front[..|front|] == front && more[..|more|] == more;
      } else {
        assert front[..depth - |tasks|] == more[..depth - |tasks|];
      }
    }
  }

  function Size(t: Task): (n: nat)
    ensures n > 0
  {
    1 + Sizes(t.queues)
  }

  function Sizes(tasks: seq<Task>): nat {
    if tasks == [] then 0 else Sizes(tasks[..|tasks| - 1]) + Size(tasks[|tasks| - 1])
  }

  lemma {:induction false} SizesAppend(a: seq<Task>, b: seq<Task>)
    ensures Sizes(a + b) == Sizes(a) + Sizes(b)
  {
    if b == [] {
      assert a + b == a;
    } else {
      SizesAppend(a, b[..|b| - 1]);
      assert (a + b)[..|a + b| - 1] == a + b[..|b| - 1];
    }
  }

  class Engine {
    const depth: nat
    const periodic: seq<Periodic>
    var tasks: seq<Task>
    var pulse: nat
    var missed: nat
    /** Everything the queue has accepted, and everything run from it. */
    ghost var accepted: seq<Task>
    ghost var ran: seq<Task>
    /** The pulse before each tick and after the last, and what each tick dispatched. */
    ghost var pulses: seq<nat>
    ghost var dispatched: seq<seq<nat>>

    /** Nothing accepted is lost, run twice or run out of turn, and no pulse is unaccounted for. */
    ghost predicate Valid()
      reads this
    {
      && depth > 0 && |tasks| <= depth
      && accepted == ran + tasks
      && |pulses| == |dispatched| + 1 && pulses[0] == 0 && pulses[|dispatched|] == pulse
      && pulse == |dispatched| + missed
      && Kept(periodic, pulses, dispatched)
    }

    constructor (queueDepth: int, periodic: seq<Periodic>)
      ensures Valid() && tasks == [] && accepted == [] && pulse == 0 && dispatched == [] && this.periodic == periodic
      ensures depth == if queueDepth <= 0 then DEFAULT_DEPTH else queueDepth
    {
      depth := if queueDepth <= 0 then DEFAULT_DEPTH else queueDepth;
      this.periodic := periodic;
      tasks, pulse, missed := [], 0, 0;
      accepted, ran, pulses, dispatched := [], [], [0], [];
    }

    /** Do: refused, and nothing changed, when the queue is full. */
    method Do(t: Task) returns (busy: bool)
      requires Valid()
      modifies `tasks, `accepted
      ensures Valid()
      ensures busy <==> |old(tasks)| == depth
      ensures busy ==> tasks == old(tasks) && accepted == old(accepted)
      ensures !busy ==> tasks == old(tasks) + [t] && accepted == old(accepted) + [t]
    {
      if |tasks| >= depth {
        return true;
      }
      tasks := tasks + [t];
      accepted := accepted + [t];
      return false;
    }

    /** runTask. */
    method RunTask(t: Task)
      requires Valid()
      modifies `tasks, `accepted
      ensures Valid()
      ensures tasks == Offered(old(tasks), t.queues, depth)
    {
      ghost var before := tasks;
      for i := 0 to |t.queues|
        invariant Valid() && tasks == Offered(before, t.queues[..i], depth)
      {
        assert t.queues[..i + 1][..i] == t.queues[..i];
        var busy := Do(t.queues[i]);
      }
      assert t.queues[..|t.queues|] == t.queues;
    }

    /** Takes the next task off the queue and runs it. */
    method RunNext()
      requires Valid() && tasks != []
      modifies `tasks, `accepted, `ran
      ensures Valid()
      ensures ran == old(ran) + [old(tasks)[0]]
      ensures tasks == Offered(old(tasks)[1..], old(tasks)[0].queues, depth)
    {
      var t := tasks[0];
      assert tasks == [t] + tasks[1..];
      assert ran + tasks == (ran + [t]) + tasks[1..];
      ran := ran + [t];
      tasks := tasks[1..];
      RunTask(t);
    }

    /** Exactly what was waiting when the tick began, in order, whatever those tasks queue. */
    method DrainWaiting()
      requires Valid()
      modifies `tasks, `accepted, `ran
      ensures Valid() && ran == old(ran) + old(tasks)
    {
      var waiting := |tasks|;
      ghost var before, done := tasks, ran;
      for i := 0 to waiting
        invariant Valid() && ran == done + before[..i]
        invariant |tasks| >= waiting - i && tasks[..waiting - i] == before[i..]
      {
        OfferedIs(tasks[1..], tasks[0].queues, depth);
        assert tasks[0] == tasks[..waiting - i][0] == before[i];
        assert before[..i] + [before[i]] == before[..i + 1];
        assert tasks[1..][..waiting - i - 1] == tasks[..waiting - i][1..] == before[i + 1..];
        RunNext();
      }
      assert before[..waiting] == before;
    }

    /** The work that fell due since the last pulse, each entry once. */
    method Dispatch(previous: nat) returns (ghost due: seq<nat>)
      requires Valid()
      modifies `tasks, `accepted
      ensures Valid() && due == DueOf(periodic, previous, pulse)
    {
      due := [];
      for i := 0 to |periodic|
        invariant Valid() && due == DueOf(periodic[..i], previous, pulse)
      {
        assert periodic[..i + 1][..i] == periodic[..i];
        var p := periodic[i];
        if p.every == 0 || pulse / p.every == previous / p.every {
          continue;
        }
        due := due + [i];
        RunTask(p.work);
      }
      assert periodic[..|periodic|] == periodic;
    }

    /** One tick, when `elapsed` intervals have gone by since the loop began. */
    method Tick(elapsed: nat)
      requires Valid()
      modifies this
      ensures Valid()
      ensures pulse == Advance(old(pulse), elapsed) && missed == old(missed) + (pulse - old(pulse) - 1)
      ensures ran == old(ran) + old(tasks)
      ensures pulses == old(pulses) + [pulse] && dispatched == old(dispatched) + [DueOf(periodic, old(pulse), pulse)]
    {
      var previous := pulse;
      var next := previous + 1;
      if elapsed > next {
        missed := missed + (elapsed - next);
        next := elapsed;
      }
      pulse := next;
      ghost var due := DueOf(periodic, previous, pulse);
      KeptOn(periodic, pulses, dispatched, pulse);
      pulses, dispatched := pulses + [pulse], dispatched + [due];
      DrainWaiting();
      var again := Dispatch(previous);
    }

    /** drain, at the end: nothing accepted before shutdown is dropped. */
    method Drain()
      requires Valid()
      modifies `tasks, `accepted, `ran
      ensures Valid() && tasks == [] && ran == accepted
    {
      while tasks != []
        invariant Valid()
        decreases Sizes(tasks)
      {
        RunsDown(tasks, depth);
        RunNext();
      }
    }
  }

  /** Running the head makes what is left to run smaller, whatever it queues. */
  lemma RunsDown(tasks: seq<Task>, depth: nat)
    requires tasks != [] && |tasks| <= depth
    ensures Sizes(Offered(tasks[1..], tasks[0].queues, depth)) < Sizes(tasks)
  {
    var t, rest := tasks[0], tasks[1..];
    OfferedIs(rest, t.queues, depth);
    var k := Min(|t.queues|, depth - |rest|);
    assert tasks == [t] + rest && t.queues == t.queues[..k] + t.queues[k..];
    SizesAppend([t], rest);
    SizesAppend(rest, t.queues[..k]);
    SizesAppend(t.queues[..k], t.queues[k..]);
    assert [t][..0] == [] && Sizes([t]) == Size(t);
  }

  // ----- the schedule over a run ------------------------------------------

  /** Each tick dispatched just what its step made due. */
  ghost predicate Kept(schedule: seq<Periodic>, pulses: seq<nat>, dispatched: seq<seq<nat>>)
    requires |pulses| == |dispatched| + 1
  {
    && (forall k | 0 <= k < |dispatched| :: pulses[k] < pulses[k + 1])
    && forall k | 0 <= k < |dispatched| :: dispatched[k] == DueOf(schedule, pulses[k], pulses[k + 1])
  }

  lemma KeptOn(schedule: seq<Periodic>, pulses: seq<nat>, dispatched: seq<seq<nat>>, pulse: nat)
    requires |pulses| == |dispatched| + 1 && Kept(schedule, pulses, dispatched) && pulses[|dispatched|] < pulse
    ensures Kept(schedule, pulses + [pulse], dispatched + [DueOf(schedule, pulses[|dispatched|], pulse)])
  {
  }

  lemma {:induction false} DueIs(schedule: seq<Periodic>, previous: nat, pulse: nat)
    ensures forall i: nat :: i in DueOf(schedule, previous, pulse) <==> i < |schedule| && Due(schedule[i].every, previous, pulse)
    ensures forall a, b | 0 <= a < b < |DueOf(schedule, previous, pulse)| ::
              DueOf(schedule, previous, pulse)[a] < DueOf(schedule, previous, pulse)[b]
  {
    if schedule != [] {
      DueIs(schedule[..|schedule| - 1], previous, pulse);
      var front := DueOf(schedule[..|schedule| - 1], previous, pulse);
      assert forall a | 0 <= a < |front| :: front[a] in front;
    }
  }

  /** How many times the i-th entry ran in the first n ticks. */
  function Runs(dispatched: seq<seq<nat>>, i: nat, n: nat): nat
    requires n <= |dispatched|
  {
    if n == 0 then 0 else Runs(dispatched, i, n - 1) + if i in dispatched[n - 1] then 1 else 0
  }

  /** How many of its multiples went by without a run of their own: all but one of those that a
      single step passed. */
  function Skipped(pulses: seq<nat>, every: nat, n: nat): int
    requires n < |pulses| && every > 0
  {
    if n == 0 then 0
    else
      var passed := pulses[n] / every - pulses[n - 1] / every;
      Skipped(pulses, every, n - 1) + if passed > 1 then passed - 1 else 0
  }

  lemma DivGrows(a: nat, b: nat, every: nat)
    requires a <= b && every > 0
    ensures a / every <= b / every
    ensures b <= a + every ==> b / every <= a / every + 1
  {
    var q, r := a / every, b / every;
    assert a == every * q + a % every && b == every * r + b % every;
    if r < q {
      StepUp(every, r, q);
    }
    if b <= a + every && r > q + 1 {
      StepUp(every, q, q + 1);
      StepUp(every, q + 1, r);
    }
  }

  lemma StepUp(c: nat, a: int, b: int)
    requires a < b
    ensures c * a + c <= c * b
  {
    MulOrder(c, a + 1, b);
    assert c * (a + 1) == c * a + c;
  }

  lemma MulOrder(c: nat, a: int, b: int)
    requires a <= b
    ensures c * a <= c * b
  {
  }

  /** Something is due on exactly the ticks whose step reaches or passes one of its multiples. */
  lemma DueIsCrossing(every: nat, previous: nat, pulse: nat)
    requires every > 0 && previous <= pulse
    ensures Due(every, previous, pulse) <==> exists m: nat :: previous < m * every <= pulse
  {
    var q, r := previous / every, pulse / every;
    assert previous == every * q + previous % every && pulse == every * r + pulse % every;
    DivGrows(previous, pulse, every);
    if q < r {
      StepUp(every, q, r);
      assert previous < r * every <= pulse;
    }
    forall m: nat | previous < m * every <= pulse ensures q < r {
      if m <= q {
        MulOrder(every, m, q);
      }
      if r < m {
        StepUp(every, r, m);
      }
    }
  }

  /** Its runs and the multiples it missed are together all the multiples there have been. */
  lemma {:induction false} RunsAre(schedule: seq<Periodic>, pulses: seq<nat>, dispatched: seq<seq<nat>>, i: nat, n: nat)
    requires |pulses| == |dispatched| + 1 && Kept(schedule, pulses, dispatched) && pulses[0] == 0
    requires i < |schedule| && schedule[i].every > 0 && n <= |dispatched|
    ensures Runs(dispatched, i, n) + Skipped(pulses, schedule[i].every, n) == pulses[n] / schedule[i].every
  {
    var every := schedule[i].every;
    if n > 0 {
      RunsAre(schedule, pulses, dispatched, i, n - 1);
      assert pulses[n - 1] < pulses[n - 1 + 1];
      DueIs(schedule, pulses[n - 1], pulses[n]);
      DivGrows(pulses[n - 1], pulses[n], every);
    }
  }

  /** No tick passes two multiples. */
  ghost predicate OneEachTick(pulses: seq<nat>, every: nat, n: nat)
    requires n < |pulses| && every > 0
  {
    forall k | 0 <= k < n :: pulses[k + 1] / every <= pulses[k] / every + 1
  }

  lemma {:induction false} SkippedNone(pulses: seq<nat>, every: nat, n: nat)
    requires n < |pulses| && every > 0
    ensures Skipped(pulses, every, n) >= 0
    ensures Skipped(pulses, every, n) == 0 <==> OneEachTick(pulses, every, n)
  {
    if n > 0 {
      SkippedNone(pulses, every, n - 1);
      assert pulses[n - 1 + 1] == pulses[n];
    }
  }

  lemma ShortSteps(pulses: seq<nat>, every: nat, n: nat)
    requires n < |pulses| && every > 0 && forall k | 0 <= k < n :: pulses[k] <= pulses[k + 1] <= pulses[k] + every
    ensures OneEachTick(pulses, every, n)
  {
    forall k | 0 <= k < n ensures pulses[k + 1] / every <= pulses[k] / every + 1 {
      DivGrows(pulses[k], pulses[k + 1], every);
    }
  }

  /** An entry has run once for each of its multiples exactly when no tick passed two of them, and
      so whenever no step was longer than its interval; it never ran more often. */
  lemma RunsExact(schedule: seq<Periodic>, pulses: seq<nat>, dispatched: seq<seq<nat>>, i: nat)
    requires |pulses| == |dispatched| + 1 && Kept(schedule, pulses, dispatched) && pulses[0] == 0
    requires i < |schedule| && schedule[i].every > 0
    ensures var n, every := |dispatched|, schedule[i].every;
      && Runs(dispatched, i, n) <= pulses[n] / every
      && (Runs(dispatched, i, n) == pulses[n] / every <==> OneEachTick(pulses, every, n))
      && ((forall k | 0 <= k < n :: pulses[k + 1] <= pulses[k] + every) ==> Runs(dispatched, i, n) == pulses[n] / every)
  {
    hide OneEachTick, Skipped, Runs, DueOf;
    var n, every := |dispatched|, schedule[i].every;
    RunsAre(schedule, pulses, dispatched, i, n);
    SkippedNone(pulses, every, n);
    if forall k | 0 <= k < n :: pulses[k + 1] <= pulses[k] + every {
      ShortSteps(pulses, every, n);
    }
  }

  /** The pulse after ticks at these elapsed counts. */
  function PulseAfter(elapsed: seq<nat>): nat {
    if elapsed == [] then 0 else Advance(PulseAfter(elapsed[..|elapsed| - 1]), elapsed[|elapsed| - 1])
  }

  /** The pulse is the least that never falls behind real time and moves on at every tick: it is as
      large as the ticks, and as each elapsed count with the ticks since, and no larger than all. */
  lemma {:induction false} PulseIs(elapsed: seq<nat>)
    ensures var n, pulse := |elapsed|, PulseAfter(elapsed);
      && pulse >= n
      && (forall i | 0 <= i < n :: pulse >= elapsed[i] + (n - 1 - i))
      && (pulse == n || exists i :: 0 <= i < n && pulse == elapsed[i] + (n - 1 - i))
  {
    if elapsed != [] {
      var n, front := |elapsed|, elapsed[..|elapsed| - 1];
      PulseIs(front);
      forall i | 0 <= i < n ensures PulseAfter(elapsed) >= elapsed[i] + (n - 1 - i) {
        if i < n - 1 {
          assert front[i] == elapsed[i];
        }
      }
      if PulseAfter(elapsed) == elapsed[n - 1] {
      } else if PulseAfter(front) != n - 1 {
        var i :| 0 <= i < n - 1 && PulseAfter(front) == front[i] + (n - 2 - i);
        assert PulseAfter(elapsed) == elapsed[i] + (n - 1 - i);
      }
    }
  }

  /** A loop that is never late misses nothing: the pulse is then the number of ticks. */
  lemma {:induction false} NeverLate(elapsed: seq<nat>)
    ensures PulseAfter(elapsed) == |elapsed| <==> forall i | 0 <= i < |elapsed| :: elapsed[i] <= i + 1
  {
    PulseIs(elapsed);
  }

  /** The loop over a run of ticks. */
  method RunTicks(e: Engine, elapsed: seq<nat>)
    requires e.Valid() && e.pulse == 0 && e.dispatched == []
    modifies e
    ensures e.Valid() && |e.dispatched| == |elapsed|
    ensures e.pulse == PulseAfter(elapsed) && e.missed == e.pulse - |elapsed|
    ensures e.pulses == seq(|elapsed| + 1, n requires 0 <= n <= |elapsed| => PulseAfter(elapsed[..n]))
  {
    for i := 0 to |elapsed|
      invariant e.Valid() && |e.dispatched| == i && e.pulse == PulseAfter(elapsed[..i])
      invariant forall n | 0 <= n <= i :: e.pulses[n] == PulseAfter(elapsed[..n])
    {
      assert elapsed[..i + 1][..i] == elapsed[..i];
      e.Tick(elapsed[i]);
    }
    assert elapsed[..|elapsed|] == elapsed;
  }
}
