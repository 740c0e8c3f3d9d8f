/** Zone resets: a small command interpreter with one register, whose population caps are read
    from an index. What one run of it does, as a function of the choices it makes, and what every
    run keeps. */
module ZoneReset {
  import opened ObjectGraph
  import opened Options
  import opened Extraction

  const NUM_DIRECTIONS := 6
  const EXIT_CLOSED: nat := 1
  const EXIT_LOCKED: nat := 2

  type MobVnum = int

  datatype Command = Command(op: char, ifFlag: int, arg1: int, arg2: int, arg3: int)

  datatype MobDef = MobDef(vnum: MobVnum, armorClass: int, gold: int)

  /** What the world files define; rooms map to the directions that have an exit. */
  datatype Defs = Defs(mobs: map<MobVnum, MobDef>, objs: map<ObjVnum, ObjDef>, rooms: map<RoomVnum, set<int>>)

  datatype Door = Door(room: RoomVnum, dir: int)

  /** The object graph, the mobiles with their index, who stands where, and the doors. */
  datatype World = World(
    s: State,
    mobiles: set<Character>,
    mobCounts: map<MobVnum, int>,
    occupants: map<RoomVnum, seq<Character>>,
    doors: map<Door, set<nat>>)

  /** The interpreter: the register, the condition, the list with what has been disabled in it. */
  datatype Machine = Machine(
    w: World, mob: Option<Character>, last: bool, commands: seq<Command>, stopped: bool, mobiles: int, objects: int, problems: int)

  /** What is not determined by the commands: the identity of what is made, and which of several
      containers of one kind is found. */
  datatype Choice =
    | Nothing
    | NewMobile(c: Character)
    | NewThing(o: Object)
    | NewInside(o: Object, found: Object)

  /** What becomes of one command. */
  datatype Verdict = Skips | Stops | Fails | Reports | Disables | Makes | Acts

  function Seen(counts: map<int, int>, v: int): int {
    if v in counts then counts[v] else 0
  }

  /** addMobile, for a mobile not yet listed. */
  function AddMobile(w: World, c: Character): World {
    if c in w.mobiles then w
    else
      w.(mobiles := w.mobiles + {c},
      mobCounts := match c.mobVnum case None => w.mobCounts case Some(v) => w.mobCounts[v := Seen(w.mobCounts, v) + 1])
  }

  /** dropMobile. */
  function DropMobile(w: World, c: Character): World {
    if c !in w.mobiles then w
    else
      w.(mobiles := w.mobiles - {c},
      mobCounts := match c.mobVnum case None => w.mobCounts case Some(v) => w.mobCounts[v := Seen(w.mobCounts, v) - 1])
  }

  /** A body comes into the world carrying nothing. */
  function Arrive(s: State, c: Character, r: Option<Record>): State {
    s.(records := s.records[c := r])
  }

  function MobileRecord(def: MobDef): Record {
    Record(def.armorClass * 10, def.gold, 0)
  }

  /** SpawnMobile, once prototype and room are known to exist. */
  function Spawn(w: World, def: MobDef, room: RoomVnum, c: Character): World {
    AddMobile(w.(s := Arrive(w.s, c, Some(MobileRecord(def))),
              occupants := w.occupants[room := [c] + (if room in w.occupants then w.occupants[room] else [])]), c)
  }

  /** The first object of a kind in a list. */
  function FirstOf(list: seq<Object>, v: ObjVnum): Option<Object> {
    if list == [] then None else if list[0].Vnum() == v then Some(list[0]) else FirstOf(list[1..], v)
  }

  ghost predicate Exists(s: State, v: ObjVnum) {
    exists id | id in s.tracked :: s.tracked[id].Vnum() == v
  }

  function SetDoor(flags: set<nat>, state: int): set<nat> {
    if state == 0 then flags - {EXIT_CLOSED, EXIT_LOCKED}
    else if state == 1 then flags + {EXIT_CLOSED} - {EXIT_LOCKED}
    else if state == 2 then flags + {EXIT_CLOSED, EXIT_LOCKED}
    else flags
  }

  /** The tests each command makes, in the order it makes them. */
  ghost function Judge(d: Defs, m: Machine, i: nat): Verdict
    requires i < |m.commands|
  {
    var cmd, s := m.commands[i], m.w.s;
    if m.stopped then Skips
    else if cmd.op == 'S' then Stops
    else if cmd.ifFlag != 0 && !m.last then Skips
    else if cmd.op == '*' then Fails
    else if cmd.op == 'M' then
      if Seen(m.w.mobCounts, cmd.arg1) >= cmd.arg2 then Fails
      else if cmd.arg1 !in d.mobs || cmd.arg3 !in d.rooms then Reports
      else Makes
    else if cmd.op == 'O' then
      if CountOf(s.counts, cmd.arg1) >= cmd.arg2 then Fails
      else if cmd.arg1 !in d.objs then Reports
      else Makes
    else if cmd.op == 'G' then
      if m.mob == None then Disables
      else if CountOf(s.counts, cmd.arg1) >= cmd.arg2 then Fails
      else if cmd.arg1 !in d.objs then Reports
      else Makes
    else if cmd.op == 'E' then
      if m.mob == None then Disables
      else if CountOf(s.counts, cmd.arg1) >= cmd.arg2 then Fails
      else if !(0 <= cmd.arg3 < NUM_WEARS) || cmd.arg1 !in d.objs then Reports
      else Makes
    else if cmd.op == 'P' then
      if CountOf(s.counts, cmd.arg1) >= cmd.arg2 then Fails
      else if !Exists(s, cmd.arg3) then Disables
      else if cmd.arg1 !in d.objs then Reports
      else Makes
    else if cmd.op == 'R' then Acts
    else if cmd.op == 'D' then
      if cmd.arg1 !in d.rooms || cmd.arg2 < 0 || cmd.arg2 >= NUM_DIRECTIONS || cmd.arg2 !in d.rooms[cmd.arg1] then Disables
      else Acts
    else Skips
  }

  /** The graph after a new object has been put where its command says. */
  ghost function Placed(s: State, cmd: Command, mob: Option<Character>, ch: Choice): State {
    match ch
    case NewThing(o) =>
      var t := Create(s, o);
      if cmd.op == 'O' then if cmd.arg3 != NO_ROOM then Move(t, o, InRoom(cmd.arg3)) else Track(t, o)
      else if mob == None then s
      else if cmd.op == 'G' then Move(t, o, CarriedBy(mob.value))
      else EquipOrGive(t, o, mob.value, cmd.arg3)
    case NewInside(o, found) => Nest(Create(s, o), o, found).0
    case _ => s
  }

  /** A command that passes its tests and makes something. */
  ghost function Make(d: Defs, m: Machine, cmd: Command, ch: Choice): Machine {
    match ch
    case NewMobile(c) =>
      if cmd.arg1 in d.mobs then
        m.(w := Spawn(m.w, d.mobs[cmd.arg1], cmd.arg3, c), mob := Some(c), last := true, mobiles := m.mobiles + 1)
      else m
    case Nothing => m
    case _ => m.(w := m.w.(s := Placed(m.w.s, cmd, m.mob, ch)), last := true, objects := m.objects + 1)
  }

  /** Removing an object, or setting a door. */
  function Act(m: Machine, cmd: Command): Machine {
    if cmd.op == 'R' then
      match FirstOf(At(m.w.s, InRoom(cmd.arg1)), cmd.arg2)
      case None => m.(last := true)
      case Some(o) => m.(w := m.w.(s := Extract(m.w.s, o)), last := true)
    else
      var door := Door(cmd.arg1, cmd.arg2);
      m.(w := m.w.(doors := m.w.doors[door := SetDoor(if door in m.w.doors then m.w.doors[door] else {}, cmd.arg3)]),
      last := true)
  }

  /** Worn when the slot is free, otherwise carried. */
  function EquipOrGive(s: State, o: Object, c: Character, pos: int): State {
    if EquipOn(s, o, c, pos).1 then EquipOn(s, o, c, pos).0 else Move(s, o, CarriedBy(c))
  }

  ghost function Step(d: Defs, m: Machine, i: nat, ch: Choice): (t: Machine)
    requires i < |m.commands|
    ensures |t.commands| == |m.commands|
  {
    match Judge(d, m, i)
    case Skips => m
    case Stops => m.(stopped := true)
    case Fails => m.(last := false)
    case Reports => m.(last := false, problems := m.problems + 1)
    case Disables => m.(commands := m.commands[i := m.commands[i].(op := '*')], problems := m.problems + 1)
    case Makes => Make(d, m, m.commands[i], ch)
    case Acts => Act(m, m.commands[i])
  }

  /** The choice fits the command: what is made is new and of the kind asked for, and a container
      that is found is one there is. */
  ghost predicate Fits(d: Defs, m: Machine, i: nat, ch: Choice)
    requires i < |m.commands|
  {
    var cmd, s := m.commands[i], m.w.s;
    var made := Judge(d, m, i) == Makes;
    match ch
    case Nothing => !made
    case NewMobile(c) => made && cmd.op == 'M' && c !in s.records && c !in m.w.mobiles && c.mobVnum == Some(cmd.arg1)
    case NewThing(o) => made && cmd.op in {'O', 'G', 'E'} && Unused(s, o) && o.Vnum() == cmd.arg1
    case NewInside(o, k) =>
      && made && cmd.op == 'P' && Unused(s, o) && o.Vnum() == cmd.arg1
      && k.id in s.tracked && s.tracked[k.id] == k && k.Vnum() == cmd.arg3
  }

  /** The first n commands, run in order. */
  ghost function Reset(d: Defs, m: Machine, n: nat, choices: seq<Choice>): (r: Machine)
    requires n <= |m.commands| && n <= |choices|
    ensures |r.commands| == |m.commands|
  {
    if n == 0 then m else Step(d, Reset(d, m, n - 1, choices), n - 1, choices[n - 1])
  }

  ghost predicate AllFit(d: Defs, m: Machine, n: nat, choices: seq<Choice>)
    requires n <= |m.commands| && n <= |choices|
  {
    forall i | 0 <= i < n :: Fits(d, Reset(d, m, i, choices), i, choices[i])
  }

  // ----- what every run keeps ---------------------------------------------

  ghost function MobInstances(mobiles: set<Character>, v: MobVnum): set<Character> {
    set c | c in mobiles && c.mobVnum == Some(v)
  }

  /** Both indexes agree with a scan; the mobiles are bodies of this world. */
  ghost predicate Sound(w: World) {
    && Inv(w.s)
    && w.mobiles <= w.s.records.Keys
    && forall v: MobVnum :: Seen(w.mobCounts, v) == |MobInstances(w.mobiles, v)|
  }

  ghost predicate SoundMachine(d: Defs, m: Machine) {
    && Sound(m.w)
    && (m.mob.Some? ==> m.mob.value in m.w.s.records)
    && (forall v | v in d.mobs :: d.mobs[v].vnum == v)
  }

  lemma ArriveKeepsInv(s: State, c: Character, r: Option<Record>)
    requires Inv(s)
    ensures Inv(Arrive(s, c, r))
  {
    var t := Arrive(s, c, r);
    forall x | x in t.place ensures Known(t, t.place[x]) {
      assert Known(s, s.place[x]);
    }
    assert CompleteBut(t, {});
  }

  lemma AddMobileKeepsIndex(w: World, c: Character)
    requires forall v: MobVnum :: Seen(w.mobCounts, v) == |MobInstances(w.mobiles, v)|
    ensures forall v: MobVnum :: Seen(AddMobile(w, c).mobCounts, v) == |MobInstances(AddMobile(w, c).mobiles, v)|
  {
    if c !in w.mobiles {
      forall v: MobVnum ensures Seen(AddMobile(w, c).mobCounts, v) == |MobInstances(w.mobiles + {c}, v)| {
        MobInstancesWith(w.mobiles, c, v);
      }
    }
  }

  lemma MobInstancesWith(mobiles: set<Character>, c: Character, v: MobVnum)
    requires c !in mobiles
    ensures |MobInstances(mobiles + {c}, v)| == |MobInstances(mobiles, v)| + if c.mobVnum == Some(v) then 1 else 0
  {
    if c.mobVnum == Some(v) {
      assert MobInstances(mobiles + {c}, v) == MobInstances(mobiles, v) + {c};
    } else {
      assert MobInstances(mobiles + {c}, v) == MobInstances(mobiles, v);
    }
  }

  /** dropMobile keeps the index too. */
  lemma DropMobileKeepsIndex(w: World, c: Character)
    requires Sound(w)
    ensures Sound(DropMobile(w, c))
  {
    var t := DropMobile(w, c);
    if c in w.mobiles {
      forall v: MobVnum ensures Seen(t.mobCounts, v) == |MobInstances(t.mobiles, v)| {
        assert t.mobiles + {c} == w.mobiles;
        MobInstancesWith(t.mobiles, c, v);
      }
    }
  }

  /** What a step may do to the object index: at most one object more of the kind it makes. */
  ghost predicate Grows(s: State, t: State, v: ObjVnum) {
    && Inv(t) && s.records.Keys <= t.records.Keys
    && forall u: ObjVnum :: CountOf(t.counts, u) <= CountOf(s.counts, u) + if u == v then 1 else 0
  }

  lemma CountsShrink(s: State, t: State)
    requires IndexAgrees(s) && IndexAgrees(t) && t.tracked.Keys <= s.tracked.Keys
    requires forall id | id in t.tracked :: t.tracked[id] == s.tracked[id]
    ensures forall u: ObjVnum :: CountOf(t.counts, u) <= CountOf(s.counts, u)
  {
    forall u: ObjVnum ensures CountOf(t.counts, u) <= CountOf(s.counts, u) {
      SubsetSmaller(Instances(t.tracked, u), Instances(s.tracked, u));
    }
  }

  lemma {:induction false} SubsetSmaller(a: set<nat>, b: set<nat>)
    requires a <= b
    ensures |a| <= |b|
    decreases |a|
  {
    if a != {} {
      var x :| x in a;
      SubsetSmaller(a - {x}, b - {x});
    }
  }

  // ----- making and removing objects --------------------------------------

  lemma NewEnclosesNothing(s: State, o: Object, k: Object)
    requires Inv(s) && Unused(s, o) && k in s.place
    ensures !Encloses(Create(s, o).place, o, k)
  {
    var t := Create(s, o);
    CreateKeepsInv(s, o);
    forall n: nat ensures Around(t.place, k, n) != Some(o) {
      StaysOld(s, o, k, n);
    }
  }

  /** Going up from an old object one meets only old objects. */
  lemma {:induction false} StaysOld(s: State, o: Object, k: Object, n: nat)
    requires Closed(s) && Unused(s, o) && k in s.place
    ensures Around(Create(s, o).place, k, n).Some? ==> Around(Create(s, o).place, k, n).value in s.place
    ensures Around(Create(s, o).place, k, n) != Some(o)
  {
    if n > 0 {
      StaysOld(s, o, k, n - 1);
      match Around(Create(s, o).place, k, n - 1)
      case None =>
      case Some(x) => assert Known(s, s.place[x]);
    }
  }

  lemma NewIsUncounted(s: State, o: Object)
    requires Inv(s) && Unused(s, o)
    ensures o.id !in s.tracked
  {
  }

  lemma MoveCounts(s: State, o: Object, p: Placement)
    requires o.id !in s.tracked
    ensures forall u: ObjVnum :: CountOf(Move(s, o, p).counts, u) == CountOf(s.counts, u) + if u == o.Vnum() then 1 else 0
    ensures Move(s, o, p).records == s.records
  {
  }

  /** A command that makes an object adds one of the kind it names. */
  lemma PlacedGrows(d: Defs, m: Machine, i: nat, ch: Choice)
    requires SoundMachine(d, m) && i < |m.commands| && Fits(d, m, i, ch) && (ch.NewThing? || ch.NewInside?)
    ensures Grows(m.w.s, Placed(m.w.s, m.commands[i], m.mob, ch), m.commands[i].arg1)
  {
    var cmd, s := m.commands[i], m.w.s;
    var o := ch.o;
    var t := Create(s, o);
    CreateKeepsInv(s, o);
    NewIsUncounted(s, o);
    hide Inv, Move, Nest, Encloses, Unused;
    match ch
    case NewThing(_) =>
      if cmd.op == 'O' {
        if cmd.arg3 != NO_ROOM {
          PlaceKeepsInv(t, o, InRoom(cmd.arg3));
          MoveCounts(t, o, InRoom(cmd.arg3));
        } else {
          TrackNowhere(t, o);
        }
      } else {
        EquipOrGiveGrows(t, o, m.mob.value, if cmd.op == 'G' then -1 else cmd.arg3);
      }
    case NewInside(_, k) =>
      TrackedExists(s, k);
      NewEnclosesNothing(s, o, k);
      NestGrows(t, o, k);
  }

  lemma TrackedExists(s: State, k: Object)
    requires Inv(s) && k.id in s.tracked && s.tracked[k.id] == k
    ensures k in s.place
  {
  }

  lemma NestGrows(t: State, o: Object, k: Object)
    requires Inv(t) && o in t.place && k in t.place && o.id !in t.tracked && !Encloses(t.place, o, k)
    ensures Grows(t, Nest(t, o, k).0, o.Vnum())
  {
    hide Inv, Move, Encloses;
    NestKeepsInv(t, o, k);
    MoveCounts(t, o, InContainer(k));
  }

  lemma TrackNowhere(t: State, o: Object)
    requires Inv(t) && o in t.place && o.id !in t.tracked
    ensures Grows(t, Track(t, o), o.Vnum())
  {
    TrackKeepsIndex(t, o);
    SameGraph(t, Track(t, o), {});
    assert TracksPlaced(Track(t, o));
  }

  lemma EquipOrGiveGrows(t: State, o: Object, c: Character, pos: int)
    requires Inv(t) && o in t.place && o.id !in t.tracked && c in t.records
    ensures Grows(t, Move(t, o, CarriedBy(c)), o.Vnum())
    ensures Grows(t, EquipOrGive(t, o, c, pos), o.Vnum())
  {
    hide Inv, Move;
    PlaceKeepsInv(t, o, CarriedBy(c));
    MoveCounts(t, o, CarriedBy(c));
    if EquipOn(t, o, c, pos).1 {
      EquipKeepsInv(t, o, c, pos);
      MoveCounts(t, o, WornBy(c, pos));
      ArmourCounts(Move(t, o, WornBy(c, pos)), c, -ArmorClassOf(o, pos));
    }
  }

  lemma ArmourCounts(s: State, c: Character, d: int)
    ensures Armour(s, c, d).counts == s.counts && Armour(s, c, d).records.Keys == s.records.Keys
  {
  }

  lemma {:induction false} FirstOfIsThere(list: seq<Object>, v: ObjVnum)
    ensures match FirstOf(list, v) case None => true case Some(o) => o in list && o.Vnum() == v
  {
    if list != [] {
      FirstOfIsThere(list[1..], v);
    }
  }

  /** Removing an object makes nothing more numerous. */
  lemma RemoveShrinks(s: State, o: Object, room: RoomVnum)
    requires Inv(s) && o in At(s, InRoom(room))
    ensures Inv(Extract(s, o)) && Extract(s, o).records == s.records
    ensures forall u: ObjVnum :: CountOf(Extract(s, o).counts, u) <= CountOf(s.counts, u)
  {
    OnePlaced(s, o, InRoom(room));
    ExtractFromPlace(s, o);
    ExtractInv(s, o, {});
    assert {} - {o} == {};
    CountsShrinkInv(s, Extract(s, o));
  }

  lemma CountsShrinkInv(s: State, t: State)
    requires Inv(s) && Inv(t) && t.tracked.Keys <= s.tracked.Keys && forall id | id in t.tracked :: t.tracked[id] == s.tracked[id]
    ensures forall u: ObjVnum :: CountOf(t.counts, u) <= CountOf(s.counts, u)
  {
    CountsShrink(s, t);
  }

  // ----- one step ---------------------------------------------------------

  predicate MakesThings(op: char) {
    op == 'O' || op == 'G' || op == 'E' || op == 'P'
  }

  /** What one step does to the counts: a kind may become one more numerous only when the command
      makes it, and then only from below the command's cap. */
  ghost predicate StepBounds(m: Machine, cmd: Command, t: Machine) {
    && (forall v: ObjVnum ::
          || CountOf(t.w.s.counts, v) <= CountOf(m.w.s.counts, v)
          || (MakesThings(cmd.op) && cmd.arg1 == v && CountOf(t.w.s.counts, v) <= cmd.arg2))
    && (forall v: MobVnum ::
          || Seen(t.w.mobCounts, v) <= Seen(m.w.mobCounts, v)
          || (cmd.op == 'M' && cmd.arg1 == v && Seen(t.w.mobCounts, v) <= cmd.arg2))
  }

  lemma SpawnKeeps(d: Defs, m: Machine, i: nat, c: Character)
    requires SoundMachine(d, m) && i < |m.commands| && Fits(d, m, i, NewMobile(c))
    ensures var cmd := m.commands[i]; var t := Make(d, m, cmd, NewMobile(c));
      SoundMachine(d, t) && StepBounds(m, cmd, t)
  {
    var cmd := m.commands[i];
    var t := Make(d, m, cmd, NewMobile(c));
    var def := d.mobs[cmd.arg1];
    ArriveKeepsInv(m.w.s, c, Some(MobileRecord(def)));
    var entered := m.w.(s := Arrive(m.w.s, c, Some(MobileRecord(def))),
                        occupants := t.w.occupants);
    AddMobileKeepsIndex(entered, c);
  }

  lemma MakeKeeps(d: Defs, m: Machine, i: nat, ch: Choice)
    requires SoundMachine(d, m) && i < |m.commands| && Fits(d, m, i, ch) && (ch.NewThing? || ch.NewInside?)
    ensures var cmd := m.commands[i]; var t := Make(d, m, cmd, ch);
      SoundMachine(d, t) && StepBounds(m, cmd, t)
  {
    hide Inv, Placed;
    PlacedGrows(d, m, i, ch);
  }

  lemma ActKeeps(d: Defs, m: Machine, cmd: Command)
    requires SoundMachine(d, m)
    ensures SoundMachine(d, Act(m, cmd)) && StepBounds(m, cmd, Act(m, cmd))
  {
    if cmd.op == 'R' {
      FirstOfIsThere(At(m.w.s, InRoom(cmd.arg1)), cmd.arg2);
      match FirstOf(At(m.w.s, InRoom(cmd.arg1)), cmd.arg2)
      case None =>
      case Some(o) => RemoveShrinks(m.w.s, o, cmd.arg1);
    }
  }

  lemma StepKeeps(d: Defs, m: Machine, i: nat, ch: Choice)
    requires SoundMachine(d, m) && i < |m.commands| && Fits(d, m, i, ch)
    ensures var t := Step(d, m, i, ch);
      SoundMachine(d, t) && StepBounds(m, m.commands[i], t)
  {
    hide Inv, Make, Act;
    match Judge(d, m, i)
    case Makes =>
      if ch.NewMobile? {
        SpawnKeeps(d, m, i, ch.c);
      } else {
        MakeKeeps(d, m, i, ch);
      }
    case Acts => ActKeeps(d, m, m.commands[i]);
    case _ =>
  }

  // ----- a whole reset ----------------------------------------------------

  /** A command of the list as it was, or that command disabled. */
  ghost predicate OnlyDisabled(was: seq<Command>, now: seq<Command>) {
    |was| == |now| && forall j | 0 <= j < |was| :: now[j] == was[j] || now[j] == was[j].(op := '*')
  }

  lemma {:induction false} ResetDisables(d: Defs, m: Machine, n: nat, choices: seq<Choice>)
    requires n <= |m.commands| && n <= |choices|
    ensures OnlyDisabled(m.commands, Reset(d, m, n, choices).commands)
  {
    if n > 0 {
      ResetDisables(d, m, n - 1, choices);
      StepDisables(d, Reset(d, m, n - 1, choices), n - 1, choices[n - 1]);
    }
  }

  lemma StepDisables(d: Defs, m: Machine, i: nat, ch: Choice)
    requires i < |m.commands|
    ensures OnlyDisabled(m.commands, Step(d, m, i, ch).commands)
  {
  }

  /** No kind ends more numerous than it began, or than the largest cap of a command that makes it. */
  ghost predicate Capped(commands: seq<Command>, n: nat, before: World, after: World)
    requires n <= |commands|
  {
    && (forall v: ObjVnum ::
          || CountOf(after.s.counts, v) <= CountOf(before.s.counts, v)
          || exists j | 0 <= j < n ::
               MakesThings(commands[j].op) && commands[j].arg1 == v && CountOf(after.s.counts, v) <= commands[j].arg2)
    && (forall v: MobVnum ::
          || Seen(after.mobCounts, v) <= Seen(before.mobCounts, v)
          || exists j | 0 <= j < n :: commands[j].op == 'M' && commands[j].arg1 == v && Seen(after.mobCounts, v) <= commands[j].arg2)
  }

  lemma CappedStep(commands: seq<Command>, i: nat, before: World, m: Machine, t: Machine)
    requires i < |commands| && i < |m.commands| && Capped(commands, i, before, m.w)
    requires m.commands[i] == commands[i] || m.commands[i] == commands[i].(op := '*')
    requires StepBounds(m, m.commands[i], t)
    ensures Capped(commands, i + 1, before, t.w)
  {
    forall v: ObjVnum
      ensures CountOf(t.w.s.counts, v) <= CountOf(before.s.counts, v) ||
              exists j | 0 <= j < i + 1 ::
                MakesThings(commands[j].op) && commands[j].arg1 == v && CountOf(t.w.s.counts, v) <= commands[j].arg2
    {
      if CountOf(t.w.s.counts, v) > CountOf(m.w.s.counts, v) {
        assert MakesThings(commands[i].op) && commands[i].arg1 == v;
      }
    }
    forall v: MobVnum
      ensures Seen(t.w.mobCounts, v) <= Seen(before.mobCounts, v) ||
              exists j | 0 <= j < i + 1 :: commands[j].op == 'M' && commands[j].arg1 == v && Seen(t.w.mobCounts, v) <= commands[j].arg2
    {
      if Seen(t.w.mobCounts, v) > Seen(m.w.mobCounts, v) {
        assert commands[i].op == 'M' && commands[i].arg1 == v;
      }
    }
  }

  /** Every reset, whatever it makes and finds, leaves both indexes equal to a scan, the object
      graph sound, and every population within its caps. */
  lemma {:induction false} ResetKeeps(d: Defs, m: Machine, n: nat, choices: seq<Choice>)
    requires SoundMachine(d, m) && n <= |m.commands| && n <= |choices| && AllFit(d, m, n, choices)
    ensures SoundMachine(d, Reset(d, m, n, choices))
    ensures Capped(m.commands, n, m.w, Reset(d, m, n, choices).w)
  {
    hide SoundMachine, Step, Fits, Capped, StepBounds;
    if n == 0 {
      CappedAtFirst(m.commands, m.w);
    } else {
      assert AllFit(d, m, n - 1, choices);
      ResetKeeps(d, m, n - 1, choices);
      ResetDisables(d, m, n - 1, choices);
      var r := Reset(d, m, n - 1, choices);
      assert Fits(d, r, n - 1, choices[n - 1]);
      StepKeeps(d, r, n - 1, choices[n - 1]);
      CappedStep(m.commands, n - 1, m.w, r, Reset(d, m, n, choices));
    }
  }

  lemma CappedAtFirst(commands: seq<Command>, w: World)
    ensures Capped(commands, 0, w, w)
  {
  }
}
