/** ResetZone and SpawnMobile as they run, on the heap. */
module ZoneRunning {
  import opened ObjectGraph
  import opened Options
  import opened Extraction
  import opened Carry
  import opened ZoneReset

  /** Who is in the world and where, and how the doors stand. */
  class Population {
    var mobiles: set<Character>
    var mobCounts: map<MobVnum, int>
    var occupants: map<RoomVnum, seq<Character>>
    var doors: map<Door, set<nat>>

    constructor ()
      ensures mobiles == {} && mobCounts == map[] && occupants == map[] && doors == map[]
    {
      mobiles, mobCounts, occupants, doors := {}, map[], map[], map[];
    }

    /** addMobile. */
    method Add(c: Character, ghost s: State)
      modifies `mobiles, `mobCounts
      ensures World(s, mobiles, mobCounts, occupants, doors) ==
              AddMobile(World(s, old(mobiles), old(mobCounts), occupants, doors), c)
    {
      if c in mobiles {
        return;
      }
      mobiles := mobiles + {c};
      if c.mobVnum.Some? {
        mobCounts := mobCounts[c.mobVnum.value := Seen(mobCounts, c.mobVnum.value) + 1];
      }
    }

    /** dropMobile. */
    method Drop(c: Character, ghost s: State)
      modifies `mobiles, `mobCounts
      ensures World(s, mobiles, mobCounts, occupants, doors) ==
              DropMobile(World(s, old(mobiles), old(mobCounts), occupants, doors), c)
    {
      if c !in mobiles {
        return;
      }
      mobiles := mobiles - {c};
      if c.mobVnum.Some? {
        mobCounts := mobCounts[c.mobVnum.value := Seen(mobCounts, c.mobVnum.value) - 1];
      }
    }
  }

  class Zone {
    var commands: seq<Command>

    constructor (commands: seq<Command>)
      ensures this.commands == commands
    {
      this.commands := commands;
    }
  }

  /** The register, the condition and the report of one reset. */
  datatype Run = Run(mob: Character?, last: bool, stopped: bool, mobiles: int, objects: int, problems: int)

  ghost function WorldOf(l: Live, p: Population): World
    reads l, p, l.Objs`placement, l.Objs`contents, l.Chars`carrying, l.Chars`equipment, l.Chars`record
  {
    World(l.View(), p.mobiles, p.mobCounts, p.occupants, p.doors)
  }

  ghost function MachineOf(w: World, commands: seq<Command>, run: Run): Machine {
    Machine(w, if run.mob == null then None else Some(run.mob), run.last, commands, run.stopped,
            run.mobiles, run.objects, run.problems)
  }

  /** The definitions are this world's, and everything is in order. */
  ghost predicate Ready(d: Defs, l: Live, m: Machine)
    reads l, l.Objs`placement, l.Objs`contents, l.Chars`carrying, l.Chars`equipment, l.Chars`record
  {
    l.Heap() && l.Numbered() && d.objs == l.objectDefs && SoundMachine(d, m) && m.w.s == l.View()
  }

  lemma ReadyParts(d: Defs, l: Live, m: Machine)
    requires Ready(d, l, m)
    ensures l.Valid() && l.Heap() && l.Numbered() && Inv(l.View()) && d.objs == l.objectDefs && m.w.s == l.View()
    ensures m.w.mobiles <= l.Chars && m.w.s.records.Keys == l.Chars
    ensures forall v | v in d.mobs :: d.mobs[v].vnum == v
    ensures m.w.s.tracked == l.objects && m.w.s.counts == l.objCounts
    ensures m.mob.Some? ==> m.mob.value in l.Chars
  {
    l.Sees();
  }

  /** The command at i is neither skipped nor past a stop. */
  ghost predicate Runs(m: Machine, i: nat) {
    i < |m.commands| && !m.stopped && m.commands[i].op != 'S' && !(m.commands[i].ifFlag != 0 && !m.last)
  }

  /** Enter, for a body that is in no room: prepended to the room's list. */
  method Enter(p: Population, c: Character, room: RoomVnum)
    modifies c`room, p`occupants
    ensures c.room == room
    ensures p.occupants == old(p.occupants)[room := [c] + if room in old(p.occupants) then old(p.occupants)[room] else []]
  {
    c.room := room;
    p.occupants := p.occupants[room := [c] + if room in p.occupants then p.occupants[room] else []];
  }

  /** nil when there is no such prototype or no such room. */
  method SpawnMobile(d: Defs, l: Live, p: Population, vnum: MobVnum, room: RoomVnum) returns (c: Character?)
    requires l.Heap() && p.mobiles <= l.Chars && (forall v | v in d.mobs :: d.mobs[v].vnum == v)
    modifies l`Chars, p`mobiles, p`mobCounts, p`occupants
    ensures l.Heap()
    ensures c == null <==> vnum !in d.mobs || room !in d.rooms
    ensures c == null ==> WorldOf(l, p) == old(WorldOf(l, p)) && l.Chars == old(l.Chars)
    ensures c != null ==>
              && fresh(c) && c.mobVnum == Some(vnum) && l.Chars == old(l.Chars) + {c}
              && WorldOf(l, p) == Spawn(old(WorldOf(l, p)), d.mobs[vnum], room, c)
  {
    hide Live.View, Live.Heap;
    if vnum !in d.mobs || room !in d.rooms {
      return null;
    }
    var def := d.mobs[vnum];
    c := new Character(Some(vnum), NO_ROOM, Some(MobileRecord(def)));
    l.Welcome(c);
    Enter(p, c, room);
    p.Add(c, l.View());
  }

  // ----- the verdicts -----------------------------------------------------

  lemma Verdicts(d: Defs, m: Machine, i: nat)
    requires Runs(m, i)
    ensures i < |m.commands|
    ensures Judge(d, m, i) != Makes ==> Fits(d, m, i, Nothing)
    ensures Judge(d, m, i) == Skips ==> Step(d, m, i, Nothing) == m
    ensures Judge(d, m, i) == Stops ==> Step(d, m, i, Nothing) == m.(stopped := true)
    ensures Judge(d, m, i) == Fails ==> Step(d, m, i, Nothing) == m.(last := false)
    ensures Judge(d, m, i) == Reports ==> Step(d, m, i, Nothing) == m.(last := false, problems := m.problems + 1)
    ensures Judge(d, m, i) == Disables ==>
              Step(d, m, i, Nothing) == m.(commands := Disabled(m.commands, i), problems := m.problems + 1)
    ensures Judge(d, m, i) == Acts ==> Step(d, m, i, Nothing) == Act(m, m.commands[i])
    ensures Judge(d, m, i) == Makes ==> forall ch :: Step(d, m, i, ch) == Make(d, m, m.commands[i], ch)
  {
  }

  function Disabled(commands: seq<Command>, i: nat): seq<Command>
    requires i < |commands|
  {
    commands[i := commands[i].(op := '*')]
  }

  lemma JudgesMobile(d: Defs, m: Machine, i: nat)
    requires Runs(m, i) && m.commands[i].op == 'M'
    ensures var cmd := m.commands[i];
      Judge(d, m, i) == if Seen(m.w.mobCounts, cmd.arg1) >= cmd.arg2 then Fails
                        else if cmd.arg1 !in d.mobs || cmd.arg3 !in d.rooms then Reports else Makes
  {
  }

  lemma MobileFits(d: Defs, m: Machine, i: nat, c: Character)
    requires Runs(m, i) && m.commands[i].op == 'M' && Judge(d, m, i) == Makes
    requires c !in m.w.s.records && c !in m.w.mobiles && c.mobVnum == Some(m.commands[i].arg1)
    ensures Fits(d, m, i, NewMobile(c))
    ensures var cmd := m.commands[i];
      && cmd.arg1 in d.mobs && cmd.arg3 in d.rooms
      && Step(d, m, i, NewMobile(c)) ==
         m.(w := Spawn(m.w, d.mobs[cmd.arg1], cmd.arg3, c), mob := Some(c), last := true, mobiles := m.mobiles + 1)
  {
  }

  method DoMobile(d: Defs, l: Live, p: Population, cmd: Command, run: Run, ghost m: Machine, ghost i: nat)
    returns (r: Run, ghost ch: Choice)
    requires Ready(d, l, m) && Runs(m, i) && m.commands[i] == cmd && cmd.op == 'M'
    requires m == MachineOf(WorldOf(l, p), m.commands, run)
    modifies l`Chars, p`mobiles, p`mobCounts, p`occupants
    ensures l.Heap() && l.Numbered() && fresh(l.Chars - old(l.Chars))
    ensures Fits(d, m, i, ch) && Step(d, m, i, ch) == MachineOf(WorldOf(l, p), m.commands, r)
  {
    ReadyParts(d, l, m);
    JudgesMobile(d, m, i);
    Verdicts(d, m, i);
    hide Inv, Live.View, Live.Heap, Live.Numbered, Ready, SoundMachine, Spawn, Judge, Step, Fits, Make, Runs;
    if Seen(p.mobCounts, cmd.arg1) >= cmd.arg2 {
      return run.(last := false), Nothing;
    }
    var created := SpawnMobile(d, l, p, cmd.arg1, cmd.arg3);
    if created == null {
      return run.(last := false, problems := run.problems + 1), Nothing;
    }
    MobileFits(d, m, i, created);
    return run.(mob := created, last := true, mobiles := run.mobiles + 1), NewMobile(created);
  }

  // ----- objects ----------------------------------------------------------

  /** What the tests of a command that makes an object come to, once past its own first test. */
  lemma JudgesThing(d: Defs, m: Machine, i: nat)
    requires Runs(m, i)
    ensures var cmd := m.commands[i];
      && (cmd.op == 'O' ==>
            Judge(d, m, i) == if CountOf(m.w.s.counts, cmd.arg1) >= cmd.arg2 then Fails
                              else if cmd.arg1 !in d.objs then Reports else Makes)
      && (cmd.op == 'G' ==>
            Judge(d, m, i) == if m.mob == None then Disables
                              else if CountOf(m.w.s.counts, cmd.arg1) >= cmd.arg2 then Fails
                              else if cmd.arg1 !in d.objs then Reports else Makes)
      && (cmd.op == 'E' ==>
            Judge(d, m, i) == if m.mob == None then Disables
                              else if CountOf(m.w.s.counts, cmd.arg1) >= cmd.arg2 then Fails
                              else if !(0 <= cmd.arg3 < NUM_WEARS) || cmd.arg1 !in d.objs then Reports else Makes)
      && (cmd.op == 'P' ==>
            Judge(d, m, i) == if CountOf(m.w.s.counts, cmd.arg1) >= cmd.arg2 then Fails
                              else if !Exists(m.w.s, cmd.arg3) then Disables
                              else if cmd.arg1 !in d.objs then Reports else Makes)
  {
  }

  lemma ThingFits(d: Defs, m: Machine, i: nat, o: Object)
    requires Runs(m, i) && m.commands[i].op in {'O', 'G', 'E'} && Judge(d, m, i) == Makes
    requires Unused(m.w.s, o) && o.Vnum() == m.commands[i].arg1
    ensures Fits(d, m, i, NewThing(o))
    ensures Step(d, m, i, NewThing(o)) ==
            m.(w := m.w.(s := Placed(m.w.s, m.commands[i], m.mob, NewThing(o))), last := true, objects := m.objects + 1)
  {
  }

  lemma InsideFits(d: Defs, m: Machine, i: nat, o: Object, k: Object)
    requires Runs(m, i) && m.commands[i].op == 'P' && Judge(d, m, i) == Makes
    requires Unused(m.w.s, o) && o.Vnum() == m.commands[i].arg1
    requires k.id in m.w.s.tracked && m.w.s.tracked[k.id] == k && k.Vnum() == m.commands[i].arg3
    ensures Fits(d, m, i, NewInside(o, k))
    ensures Step(d, m, i, NewInside(o, k)) ==
            m.(w := m.w.(s := Nest(Create(m.w.s, o), o, k).0), last := true, objects := m.objects + 1)
  {
  }

  function FloorLoad(s: State, o: Object, room: RoomVnum): State {
    if room != NO_ROOM then Move(Create(s, o), o, InRoom(room)) else Track(Create(s, o), o)
  }

  lemma AcyclicView(s: State)
    requires Inv(s)
    ensures Acyclic(s.place)
  {
  }

  lemma PlacedFloor(s: State, cmd: Command, mob: Option<Character>, o: Object)
    requires cmd.op == 'O'
    ensures Placed(s, cmd, mob, NewThing(o)) ==
            FloorLoad(s, o, cmd.arg3)
  {
  }

  lemma PlacedInHands(s: State, cmd: Command, c: Character, o: Object)
    requires cmd.op == 'G'
    ensures Placed(s, cmd, Some(c), NewThing(o)) == Move(Create(s, o), o, CarriedBy(c))
  {
  }

  lemma PlacedOn(s: State, cmd: Command, c: Character, o: Object)
    requires cmd.op == 'E'
    ensures Placed(s, cmd, Some(c), NewThing(o)) == EquipOrGive(Create(s, o), o, c, cmd.arg3)
  {
  }

  lemma RefusedUnchanged(s: State, o: Object, c: Character, pos: int)
    ensures !EquipOn(s, o, c, pos).1 ==> EquipOn(s, o, c, pos).0 == s
  {
  }

  /** What a choice brings into the world. */
  function MadeBy(ch: Choice): set<Object> {
    match ch
    case NewThing(o) => {o}
    case NewInside(o, _) => {o}
    case _ => {}
  }

  method NewOnFloor(l: Live, vnum: ObjVnum, room: RoomVnum) returns (o: Object?)
    requires l.Valid() && l.Heap() && l.Numbered()
    modifies l`nextObjectID, l`Objs, l`roomObjects, l`objects, l`objCounts
    modifies l.Objs`placement, l.Objs`contents, l.Chars`carrying, l.Chars`equipment
    ensures l.Heap() && l.Numbered() && l.Objs == old(l.Objs) + if o == null then {} else {o}
    ensures o == null <==> vnum !in l.objectDefs
    ensures o == null ==> l.View() == old(l.View())
    ensures o != null ==> fresh(o) && o.Vnum() == vnum && Unused(old(l.View()), o)
    ensures o != null ==> l.View() == FloorLoad(old(l.View()), o, room)
  {
    hide Inv, Live.View, Live.Heap, Live.Numbered, Move, Create, Unused, EquipOn, Nest, Encloses, Acyclic;
    o := l.NewObject(vnum);
    if o == null {
      return;
    }
    if room != NO_ROOM {
      l.ObjectToRoom(o, room);
    } else {
      l.Track(o);
    }
  }

  method NewInHands(l: Live, vnum: ObjVnum, c: Character) returns (o: Object?)
    requires l.Valid() && l.Heap() && l.Numbered() && c in l.Chars
    modifies l`nextObjectID, l`Objs, l`roomObjects, l`objects, l`objCounts
    modifies l.Objs`placement, l.Objs`contents, l.Chars`carrying, l.Chars`equipment
    ensures l.Heap() && l.Numbered() && l.Objs == old(l.Objs) + if o == null then {} else {o}
    ensures o == null <==> vnum !in l.objectDefs
    ensures o == null ==> l.View() == old(l.View())
    ensures o != null ==> fresh(o) && o.Vnum() == vnum && Unused(old(l.View()), o)
    ensures o != null ==> l.View() == Move(Create(old(l.View()), o), o, CarriedBy(c))
  {
    hide Inv, Live.View, Live.Heap, Live.Numbered, Move, Create, Unused, EquipOn, Nest, Encloses, Acyclic;
    o := l.NewObject(vnum);
    if o == null {
      return;
    }
    l.ObjectToChar(o, c);
  }

  method NewOnBody(l: Live, vnum: ObjVnum, c: Character, pos: int) returns (o: Object?)
    requires l.Valid() && l.Heap() && l.Numbered() && c in l.Chars
    modifies l`nextObjectID, l`Objs, l`roomObjects, l`objects, l`objCounts
    modifies l.Objs`placement, l.Objs`contents, l.Chars`carrying, l.Chars`equipment, l.Chars`record
    ensures l.Heap() && l.Numbered() && l.Objs == old(l.Objs) + if o == null then {} else {o}
    ensures o == null <==> vnum !in l.objectDefs
    ensures o == null ==> l.View() == old(l.View())
    ensures o != null ==> fresh(o) && o.Vnum() == vnum && Unused(old(l.View()), o)
    ensures o != null ==> l.View() == EquipOrGive(Create(old(l.View()), o), o, c, pos)
  {
    hide Inv, Live.View, Live.Heap, Live.Numbered, Move, Create, Unused, EquipOn, Nest, Encloses, Acyclic;
    o := l.NewObject(vnum);
    if o == null {
      return;
    }
    ghost var t := l.View();
    var ok := l.Equip(o, c, pos);
    if !ok {
      RefusedUnchanged(t, o, c, pos);
      l.ObjectToChar(o, c);
    }
  }

  method NewInContainer(l: Live, vnum: ObjVnum, k: Object) returns (o: Object?)
    requires l.Valid() && l.Heap() && l.Numbered() && k in l.Objs
    modifies l`nextObjectID, l`Objs, l`roomObjects, l`objects, l`objCounts
    modifies l.Objs`placement, l.Objs`contents, l.Chars`carrying, l.Chars`equipment
    ensures l.Heap() && l.Numbered() && l.Objs == old(l.Objs) + if o == null then {} else {o}
    ensures o == null <==> vnum !in l.objectDefs
    ensures o == null ==> l.View() == old(l.View())
    ensures o != null ==> fresh(o) && o.Vnum() == vnum && Unused(old(l.View()), o)
    ensures o != null ==> l.View() == Nest(Create(old(l.View()), o), o, k).0
  {
    hide Inv, Live.View, Live.Heap, Live.Numbered, Move, Create, Unused, EquipOn, Nest, Encloses, Acyclic;
    o := l.NewObject(vnum);
    if o == null {
      return;
    }
    AcyclicView(l.View());
    var ok := l.ObjectToObject(o, k);
  }

  method DoObject(d: Defs, l: Live, cmd: Command, run: Run, ghost m: Machine, ghost i: nat)
    returns (r: Run, ghost ch: Choice)
    requires Ready(d, l, m) && Runs(m, i) && m.commands[i] == cmd && cmd.op == 'O'
    requires m == MachineOf(m.w, m.commands, run)
    modifies l`nextObjectID, l`Objs, l`roomObjects, l`objects, l`objCounts
    modifies l.Objs`placement, l.Objs`contents, l.Chars`carrying, l.Chars`equipment
    ensures l.Heap() && l.Numbered() && fresh(MadeBy(ch)) && l.Objs == old(l.Objs) + MadeBy(ch)
    ensures Fits(d, m, i, ch) && Step(d, m, i, ch) == MachineOf(m.w.(s := l.View()), m.commands, r)
  {
    hide Inv, InvBut, Live.View, Live.Heap, Live.Numbered, Live.Valid, Ready, SoundMachine, Judge, Step, Fits, Runs, Act,
      Move, Create, Extract, Placed, Unused, EquipOn, Nest, Exists, EquipOrGive, FloorLoad;
    ReadyParts(d, l, m);
    JudgesThing(d, m, i);
    Verdicts(d, m, i);
    if CountOf(l.objCounts, cmd.arg1) >= cmd.arg2 {
      return run.(last := false), Nothing;
    }
    var o := NewOnFloor(l, cmd.arg1, cmd.arg3);
    if o == null {
      return run.(last := false, problems := run.problems + 1), Nothing;
    }
    ThingFits(d, m, i, o);
    PlacedFloor(m.w.s, cmd, m.mob, o);
    return run.(last := true, objects := run.objects + 1), NewThing(o);
  }

  method DoGive(d: Defs, l: Live, cmd: Command, run: Run, ghost m: Machine, ghost i: nat)
    returns (r: Run, disabled: bool, ghost ch: Choice)
    requires Ready(d, l, m) && Runs(m, i) && m.commands[i] == cmd && cmd.op == 'G'
    requires m == MachineOf(m.w, m.commands, run)
    modifies l`nextObjectID, l`Objs, l`roomObjects, l`objects, l`objCounts
    modifies l.Objs`placement, l.Objs`contents, l.Chars`carrying, l.Chars`equipment
    ensures l.Heap() && l.Numbered() && fresh(MadeBy(ch)) && l.Objs == old(l.Objs) + MadeBy(ch)
    ensures Fits(d, m, i, ch)
    ensures Step(d, m, i, ch) == MachineOf(m.w.(s := l.View()), if disabled then Disabled(m.commands, i) else m.commands, r)
  {
    hide Inv, InvBut, Live.View, Live.Heap, Live.Numbered, Live.Valid, Ready, SoundMachine, Judge, Step, Fits, Runs, Act,
      Move, Create, Extract, Placed, Unused, EquipOn, Nest, Exists, EquipOrGive, FloorLoad;
    ReadyParts(d, l, m);
    JudgesThing(d, m, i);
    Verdicts(d, m, i);
    if run.mob == null {
      return run.(problems := run.problems + 1), true, Nothing;
    }
    if CountOf(l.objCounts, cmd.arg1) >= cmd.arg2 {
      return run.(last := false), false, Nothing;
    }
    var o := NewInHands(l, cmd.arg1, run.mob);
    if o == null {
      return run.(last := false, problems := run.problems + 1), false, Nothing;
    }
    ThingFits(d, m, i, o);
    PlacedInHands(m.w.s, cmd, run.mob, o);
    return run.(last := true, objects := run.objects + 1), false, NewThing(o);
  }

  method DoEquip(d: Defs, l: Live, cmd: Command, run: Run, ghost m: Machine, ghost i: nat)
    returns (r: Run, disabled: bool, ghost ch: Choice)
    requires Ready(d, l, m) && Runs(m, i) && m.commands[i] == cmd && cmd.op == 'E'
    requires m == MachineOf(m.w, m.commands, run)
    modifies l`nextObjectID, l`Objs, l`roomObjects, l`objects, l`objCounts
    modifies l.Objs`placement, l.Objs`contents, l.Chars`carrying, l.Chars`equipment, l.Chars`record
    ensures l.Heap() && l.Numbered() && fresh(MadeBy(ch)) && l.Objs == old(l.Objs) + MadeBy(ch)
    ensures Fits(d, m, i, ch)
    ensures Step(d, m, i, ch) == MachineOf(m.w.(s := l.View()), if disabled then Disabled(m.commands, i) else m.commands, r)
  {
    hide Inv, InvBut, Live.View, Live.Heap, Live.Numbered, Live.Valid, Ready, SoundMachine, Judge, Step, Fits, Runs, Act,
      Move, Create, Extract, Placed, Unused, EquipOn, Nest, Exists, EquipOrGive, FloorLoad;
    ReadyParts(d, l, m);
    JudgesThing(d, m, i);
    Verdicts(d, m, i);
    if run.mob == null {
      return run.(problems := run.problems + 1), true, Nothing;
    }
    if CountOf(l.objCounts, cmd.arg1) >= cmd.arg2 {
      return run.(last := false), false, Nothing;
    }
    if cmd.arg3 < 0 || cmd.arg3 >= NUM_WEARS {
      return run.(last := false, problems := run.problems + 1), false, Nothing;
    }
    var o := NewOnBody(l, cmd.arg1, run.mob, cmd.arg3);
    if o == null {
      return run.(last := false, problems := run.problems + 1), false, Nothing;
    }
    ThingFits(d, m, i, o);
    PlacedOn(m.w.s, cmd, run.mob, o);
    return run.(last := true, objects := run.objects + 1), false, NewThing(o);
  }

  /** Any tracked object of the kind. */
  method FindObjectByVnum(l: Live, v: ObjVnum) returns (k: Object?)
    requires Inv(l.View())
    ensures k == null <==> !Exists(l.View(), v)
    ensures k != null ==> k.id in l.objects && l.objects[k.id] == k && k.Vnum() == v
  {
    if exists id | id in l.objects :: l.objects[id].Vnum() == v {
      var id :| id in l.objects && l.objects[id].Vnum() == v;
      k := l.objects[id];
    } else {
      k := null;
    }
  }

  lemma TrackedIsHere(l: Live, k: Object)
    requires Inv(l.View()) && k.id in l.objects && l.objects[k.id] == k
    ensures k in l.Objs
  {
    l.Sees();
    TrackedExists(l.View(), k);
  }

  method PutInto(d: Defs, l: Live, cmd: Command, run: Run, k: Object, ghost m: Machine, ghost i: nat)
    returns (r: Run, ghost ch: Choice)
    requires Ready(d, l, m) && Runs(m, i) && m.commands[i] == cmd && cmd.op == 'P'
    requires m == MachineOf(m.w, m.commands, run) && Judge(d, m, i) == if cmd.arg1 !in d.objs then Reports else Makes
    requires k.id in l.objects && l.objects[k.id] == k && k.Vnum() == cmd.arg3
    modifies l`nextObjectID, l`Objs, l`roomObjects, l`objects, l`objCounts
    modifies l.Objs`placement, l.Objs`contents, l.Chars`carrying, l.Chars`equipment
    ensures l.Heap() && l.Numbered() && fresh(MadeBy(ch)) && l.Objs == old(l.Objs) + MadeBy(ch)
    ensures Fits(d, m, i, ch) && Step(d, m, i, ch) == MachineOf(m.w.(s := l.View()), m.commands, r)
  {
    hide Inv, InvBut, Live.View, Live.Heap, Live.Numbered, Live.Valid, Ready, SoundMachine, Judge, Step, Fits, Runs, Act,
      Move, Create, Extract, Placed, Unused, EquipOn, Nest, Exists, EquipOrGive, FloorLoad;
    ReadyParts(d, l, m);
    Verdicts(d, m, i);
    TrackedIsHere(l, k);
    var o := NewInContainer(l, cmd.arg1, k);
    if o == null {
      return run.(last := false, problems := run.problems + 1), Nothing;
    }
    InsideFits(d, m, i, o, k);
    return run.(last := true, objects := run.objects + 1), NewInside(o, k);
  }

  method DoPut(d: Defs, l: Live, cmd: Command, run: Run, ghost m: Machine, ghost i: nat)
    returns (r: Run, disabled: bool, ghost ch: Choice)
    requires Ready(d, l, m) && Runs(m, i) && m.commands[i] == cmd && cmd.op == 'P'
    requires m == MachineOf(m.w, m.commands, run)
    modifies l`nextObjectID, l`Objs, l`roomObjects, l`objects, l`objCounts
    modifies l.Objs`placement, l.Objs`contents, l.Chars`carrying, l.Chars`equipment
    ensures l.Heap() && l.Numbered() && fresh(MadeBy(ch)) && l.Objs == old(l.Objs) + MadeBy(ch)
    ensures Fits(d, m, i, ch)
    ensures Step(d, m, i, ch) == MachineOf(m.w.(s := l.View()), if disabled then Disabled(m.commands, i) else m.commands, r)
  {
    hide Inv, InvBut, Live.View, Live.Heap, Live.Numbered, Live.Valid, Ready, SoundMachine, Judge, Step, Fits, Runs, Act,
      Move, Create, Extract, Placed, Unused, EquipOn, Nest, Exists, EquipOrGive, FloorLoad;
    ReadyParts(d, l, m);
    JudgesThing(d, m, i);
    Verdicts(d, m, i);
    if CountOf(l.objCounts, cmd.arg1) >= cmd.arg2 {
      return run.(last := false), false, Nothing;
    }
    var k := FindObjectByVnum(l, cmd.arg3);
    if k == null {
      return run.(problems := run.problems + 1), true, Nothing;
    }
    r, ch := PutInto(d, l, cmd, run, k, m, i);
    return r, false, ch;
  }

  // ----- removing, and doors ----------------------------------------------

  lemma JudgesAct(d: Defs, m: Machine, i: nat)
    requires Runs(m, i)
    ensures var cmd := m.commands[i];
      && (cmd.op == 'R' ==> Judge(d, m, i) == Acts)
      && (cmd.op == 'D' ==>
            Judge(d, m, i) ==
            if cmd.arg1 !in d.rooms || cmd.arg2 < 0 || cmd.arg2 >= NUM_DIRECTIONS || cmd.arg2 !in d.rooms[cmd.arg1] then Disables
            else Acts)
      && (cmd.op == '*' ==> Judge(d, m, i) == Fails)
      && (cmd.op !in {'M', 'O', 'G', 'E', 'P', 'R', 'D', '*'} ==> Judge(d, m, i) == Skips)
  {
  }

  /** findObjectInRoom. */
  method FindObjectInRoom(l: Live, room: RoomVnum, v: ObjVnum) returns (o: Object?)
    ensures FirstOf(At(l.View(), InRoom(room)), v) == if o == null then None else Some(o)
  {
    l.ListedAt(InRoom(room));
    var floor := l.FloorOf(room);
    hide Live.View;
    for i := 0 to |floor|
      invariant FirstOf(floor, v) == FirstOf(floor[i..], v)
    {
      assert floor[i..][1..] == floor[i + 1..];
      if floor[i].Vnum() == v {
        return floor[i];
      }
    }
    return null;
  }

  lemma Removes(l: Live, m: Machine, cmd: Command, o: Object)
    requires l.Heap() && Inv(l.View()) && m.w.s == l.View() && cmd.op == 'R'
    requires FirstOf(At(l.View(), InRoom(cmd.arg1)), cmd.arg2) == Some(o)
    ensures o in l.Objs && o.placement == InRoom(cmd.arg1) && InvBut(l.View(), {}) && Elems(o.contents) !! {}
    ensures Act(m, cmd) == m.(w := m.w.(s := Extract(m.w.s, o)), last := true)
  {
    l.Sees();
    FirstOfIsThere(At(l.View(), InRoom(cmd.arg1)), cmd.arg2);
    OnePlaced(l.View(), o, InRoom(cmd.arg1));
  }

  lemma RemovesNothing(m: Machine, cmd: Command)
    requires cmd.op == 'R' && FirstOf(At(m.w.s, InRoom(cmd.arg1)), cmd.arg2) == None
    ensures Act(m, cmd) == m.(last := true)
  {
  }

  method DoRemove(d: Defs, l: Live, cmd: Command, run: Run, ghost m: Machine, ghost i: nat) returns (r: Run)
    requires Ready(d, l, m) && Runs(m, i) && m.commands[i] == cmd && cmd.op == 'R'
    requires m == MachineOf(m.w, m.commands, run)
    modifies l`roomObjects, l`objects, l`objCounts
    modifies l.Objs`placement, l.Objs`contents, l.Chars`carrying, l.Chars`equipment
    ensures l.Heap() && l.Numbered()
    ensures Fits(d, m, i, Nothing) && Step(d, m, i, Nothing) == MachineOf(m.w.(s := l.View()), m.commands, r)
  {
    hide Inv, InvBut, Live.View, Live.Heap, Live.Numbered, Live.Valid, Ready, SoundMachine, Judge, Step, Fits, Runs, Act,
      Move, Create, Extract, Placed, Unused, EquipOn, Nest, Exists, EquipOrGive, FloorLoad;
    ReadyParts(d, l, m);
    JudgesAct(d, m, i);
    Verdicts(d, m, i);
    var o := FindObjectInRoom(l, cmd.arg1, cmd.arg2);
    if o == null {
      RemovesNothing(m, cmd);
    } else {
      Removes(l, m, cmd, o);
      l.ExtractObject(o);
    }
    return run.(last := true);
  }

  method DoDoor(d: Defs, p: Population, cmd: Command, run: Run, ghost m: Machine, ghost i: nat)
    returns (r: Run, disabled: bool)
    requires Runs(m, i) && m.commands[i] == cmd && cmd.op == 'D' && m.w.doors == p.doors
    requires m == MachineOf(m.w, m.commands, run)
    modifies p`doors
    ensures Fits(d, m, i, Nothing)
    ensures Step(d, m, i, Nothing) ==
            MachineOf(m.w.(doors := p.doors), if disabled then Disabled(m.commands, i) else m.commands, r)
  {
    JudgesAct(d, m, i);
    Verdicts(d, m, i);
    hide Judge, Step, Fits, Runs;
    if cmd.arg1 !in d.rooms || cmd.arg2 < 0 || cmd.arg2 >= NUM_DIRECTIONS || cmd.arg2 !in d.rooms[cmd.arg1] {
      return run.(problems := run.problems + 1), true;
    }
    var door := Door(cmd.arg1, cmd.arg2);
    p.doors := p.doors[door := SetDoor(if door in p.doors then p.doors[door] else {}, cmd.arg3)];
    return run.(last := true), false;
  }

  // ----- the list of commands ---------------------------------------------

  lemma SkipsCommand(d: Defs, m: Machine, i: nat)
    requires i < |m.commands| && !m.stopped
    ensures m.commands[i].op == 'S' ==> Fits(d, m, i, Nothing) && Step(d, m, i, Nothing) == m.(stopped := true)
    ensures m.commands[i].op != 'S' && m.commands[i].ifFlag != 0 && !m.last ==>
              Fits(d, m, i, Nothing) && Step(d, m, i, Nothing) == m
    ensures m.commands[i].op != 'S' && !(m.commands[i].ifFlag != 0 && !m.last) ==> Runs(m, i)
  {
  }

  /** The four commands that make an object. */
  method DoThing(d: Defs, l: Live, cmd: Command, run: Run, ghost m: Machine, ghost i: nat)
    returns (r: Run, disabled: bool, ghost ch: Choice)
    requires Ready(d, l, m) && Runs(m, i) && m.commands[i] == cmd && MakesThings(cmd.op)
    requires m == MachineOf(m.w, m.commands, run)
    modifies l`nextObjectID, l`Objs, l`roomObjects, l`objects, l`objCounts
    modifies l.Objs`placement, l.Objs`contents, l.Chars`carrying, l.Chars`equipment, l.Chars`record
    ensures l.Heap() && l.Numbered() && fresh(MadeBy(ch)) && l.Objs == old(l.Objs) + MadeBy(ch)
    ensures Fits(d, m, i, ch)
    ensures Step(d, m, i, ch) == MachineOf(m.w.(s := l.View()), if disabled then Disabled(m.commands, i) else m.commands, r)
  {
    hide Inv, InvBut, Live.View, Live.Heap, Live.Numbered, Live.Valid, Ready, SoundMachine, Judge, Step, Fits, Runs, Act;
    if cmd.op == 'O' {
      r, ch := DoObject(d, l, cmd, run, m, i);
      disabled := false;
    } else if cmd.op == 'G' {
      r, disabled, ch := DoGive(d, l, cmd, run, m, i);
    } else if cmd.op == 'E' {
      r, disabled, ch := DoEquip(d, l, cmd, run, m, i);
    } else {
      r, disabled, ch := DoPut(d, l, cmd, run, m, i);
    }
  }

  /** The switch, for a command that is not skipped. */
  method Perform(d: Defs, l: Live, p: Population, cmd: Command, run: Run, ghost m: Machine, ghost i: nat)
    returns (r: Run, disabled: bool, ghost ch: Choice)
    requires Ready(d, l, m) && Runs(m, i) && m.commands[i] == cmd && m == MachineOf(WorldOf(l, p), m.commands, run)
    modifies l`nextObjectID, l`Objs, l`Chars, l`roomObjects, l`objects, l`objCounts
    modifies l.Objs`placement, l.Objs`contents, l.Chars`carrying, l.Chars`equipment, l.Chars`record, p
    ensures l.Heap() && l.Numbered() && fresh(l.Objs - old(l.Objs)) && fresh(l.Chars - old(l.Chars))
    ensures Fits(d, m, i, ch)
    ensures Step(d, m, i, ch) == MachineOf(WorldOf(l, p), if disabled then Disabled(m.commands, i) else m.commands, r)
  {
    hide Inv, InvBut, Live.View, Live.Heap, Live.Numbered, Live.Valid, Ready, SoundMachine, Judge, Step, Fits, Runs, Act;
    ReadyParts(d, l, m);
    Verdicts(d, m, i);
    JudgesAct(d, m, i);
    r, disabled, ch := run, false, Nothing;
    if MakesThings(cmd.op) {
      r, disabled, ch := DoThing(d, l, cmd, run, m, i);
    } else if cmd.op == 'M' {
      r, ch := DoMobile(d, l, p, cmd, run, m, i);
    } else if cmd.op == 'R' {
      r := DoRemove(d, l, cmd, run, m, i);
    } else if cmd.op == 'D' {
      r, disabled := DoDoor(d, p, cmd, run, m, i);
    } else if cmd.op == '*' {
      r := run.(last := false);
    }
  }

  /** One turn of the loop. */
  method RunCommand(d: Defs, l: Live, p: Population, z: Zone, i: nat, run: Run, ghost m: Machine)
    returns (r: Run, ghost ch: Choice)
    requires Ready(d, l, m) && i < |z.commands| && !run.stopped && m == MachineOf(WorldOf(l, p), z.commands, run)
    modifies l`nextObjectID, l`Objs, l`Chars, l`roomObjects, l`objects, l`objCounts
    modifies l.Objs`placement, l.Objs`contents, l.Chars`carrying, l.Chars`equipment, l.Chars`record
    modifies p, z
    ensures l.Heap() && l.Numbered() && fresh(l.Objs - old(l.Objs)) && fresh(l.Chars - old(l.Chars))
    ensures |z.commands| == old(|z.commands|)
    ensures Fits(d, m, i, ch) && Step(d, m, i, ch) == MachineOf(WorldOf(l, p), z.commands, r)
  {
    hide Inv, InvBut, Live.View, Live.Heap, Live.Numbered, Live.Valid, Ready, SoundMachine, Judge, Step, Fits, Runs, Act;
    ReadyParts(d, l, m);
    SkipsCommand(d, m, i);
    var cmd := z.commands[i];
    if cmd.op == 'S' {
      return run.(stopped := true), Nothing;
    }
    if cmd.ifFlag != 0 && !run.last {
      return run, Nothing;
    }
    var disabled;
    r, disabled, ch := Perform(d, l, p, cmd, run, m, i);
    if disabled {
      z.commands := Disabled(z.commands, i);
    }
  }

  /** Once stopped, the rest of the list changes nothing. */
  lemma {:induction false} ResetStopped(d: Defs, m: Machine, i: nat, n: nat, choices: seq<Choice>)
    requires i <= n <= |m.commands| && n <= |choices| && AllFit(d, m, i, choices) && Reset(d, m, i, choices).stopped
    requires forall j | i <= j < n :: choices[j] == Nothing
    ensures Reset(d, m, n, choices) == Reset(d, m, i, choices) && AllFit(d, m, n, choices)
    decreases n
  {
    hide Step, Fits;
    if i < n {
      ResetStopped(d, m, i, n - 1, choices);
      StaysStopped(d, Reset(d, m, n - 1, choices), n - 1);
      forall j | 0 <= j < n ensures Fits(d, Reset(d, m, j, choices), j, choices[j]) {}
    }
  }

  lemma StaysStopped(d: Defs, m: Machine, i: nat)
    requires i < |m.commands| && m.stopped
    ensures Step(d, m, i, Nothing) == m && Fits(d, m, i, Nothing)
  {
  }

  /** The first n choices are all a run of n commands depends on. */
  lemma {:induction false} ResetPrefix(d: Defs, m: Machine, n: nat, choices: seq<Choice>, more: seq<Choice>)
    requires n <= |m.commands| && n <= |choices| && choices <= more
    ensures Reset(d, m, n, more) == Reset(d, m, n, choices)
    ensures AllFit(d, m, n, choices) ==> AllFit(d, m, n, more)
  {
    if n > 0 {
      ResetPrefix(d, m, n - 1, choices, more);
    }
    forall i | 0 <= i < n ensures Reset(d, m, i, more) == Reset(d, m, i, choices) && choices[i] == more[i] {
      ResetPrefix(d, m, i, choices, more);
    }
  }

  lemma ResetOn(d: Defs, m: Machine, n: nat, choices: seq<Choice>, ch: Choice)
    requires n < |m.commands| && n == |choices| && AllFit(d, m, n, choices) && Fits(d, Reset(d, m, n, choices), n, ch)
    ensures Reset(d, m, n + 1, choices + [ch]) == Step(d, Reset(d, m, n, choices), n, ch)
    ensures AllFit(d, m, n + 1, choices + [ch])
  {
    hide Step, Fits;
    ResetPrefix(d, m, n, choices, choices + [ch]);
  }

  const FRESH_RUN := Run(null, false, false, 0, 0, 0)

  /** ResetZone. What it does is what the interpreter does for some choices that fit, so both
      indexes still equal a scan of the world and no population has passed its caps. */
  method ResetZone(d: Defs, l: Live, p: Population, z: Zone) returns (report: Run, ghost choices: seq<Choice>)
    requires l.Heap() && l.Numbered() && d.objs == l.objectDefs && Sound(WorldOf(l, p))
    requires forall v | v in d.mobs :: d.mobs[v].vnum == v
    modifies l`nextObjectID, l`Objs, l`Chars, l`roomObjects, l`objects, l`objCounts
    modifies l.Objs`placement, l.Objs`contents, l.Chars`carrying, l.Chars`equipment, l.Chars`record
    modifies p, z
    ensures var m := old(MachineOf(WorldOf(l, p), z.commands, FRESH_RUN)); var n := |m.commands|;
      && |choices| == n && AllFit(d, m, n, choices)
      && MachineOf(WorldOf(l, p), z.commands, report) == Reset(d, m, n, choices)
    ensures l.Valid() && Sound(WorldOf(l, p))
    ensures Capped(old(z.commands), |old(z.commands)|, old(WorldOf(l, p)), WorldOf(l, p))
  {
    hide Inv, InvBut, Live.View, Live.Heap, Live.Numbered, Live.Valid, Ready, Sound, SoundMachine, Step, Fits, Reset, AllFit,
      Capped;
    report, choices := FRESH_RUN, [];
    ghost var m := MachineOf(WorldOf(l, p), z.commands, FRESH_RUN);
    Begins(d, l, m);
    var n, i := |z.commands|, 0;
    ghost var now := m;
    while i < n && !report.stopped
      invariant 0 <= i <= n == |z.commands| == |m.commands| && |choices| == i
      invariant fresh(l.Objs - old(l.Objs)) && fresh(l.Chars - old(l.Chars))
      invariant l.Heap() && l.Numbered()
      invariant now == MachineOf(WorldOf(l, p), z.commands, report)
      invariant AllFit(d, m, i, choices) && now == Reset(d, m, i, choices)
      invariant Ready(d, l, now) && SoundMachine(d, now)
    {
      ghost var ch;
      report, ch := RunCommand(d, l, p, z, i, report, now);
      ResetOn(d, m, i, choices, ch);
      StepIsReady(d, l, now, i, ch, MachineOf(WorldOf(l, p), z.commands, report));
      now := Step(d, now, i, ch);
      choices := choices + [ch];
      i := i + 1;
    }
    choices := Finishes(d, m, i, choices);
    Ends(d, l, now);
    ResetKeeps(d, m, n, choices);
  }

  lemma Begins(d: Defs, l: Live, m: Machine)
    requires l.Heap() && l.Numbered() && d.objs == l.objectDefs && Sound(m.w) && m.w.s == l.View() && m.mob == None
    requires forall v | v in d.mobs :: d.mobs[v].vnum == v
    ensures Ready(d, l, m) && SoundMachine(d, m) && AllFit(d, m, 0, []) && Reset(d, m, 0, []) == m
  {
  }

  lemma StepIsReady(d: Defs, l: Live, m: Machine, i: nat, ch: Choice, t: Machine)
    requires SoundMachine(d, m) && i < |m.commands| && Fits(d, m, i, ch) && t == Step(d, m, i, ch)
    requires l.Heap() && l.Numbered() && d.objs == l.objectDefs && t.w.s == l.View()
    ensures Ready(d, l, t) && SoundMachine(d, t)
  {
    StepKeeps(d, m, i, ch);
  }

  lemma Finishes(d: Defs, m: Machine, i: nat, choices: seq<Choice>) returns (all: seq<Choice>)
    requires i == |choices| <= |m.commands| && AllFit(d, m, i, choices)
    requires i == |m.commands| || Reset(d, m, i, choices).stopped
    ensures |all| == |m.commands| && AllFit(d, m, |all|, all) && Reset(d, m, |all|, all) == Reset(d, m, i, choices)
  {
    all := choices + seq(|m.commands| - i, _ => Nothing);
    ResetPrefix(d, m, i, choices, all);
    if i < |m.commands| {
      ResetStopped(d, m, i, |m.commands|, all);
    }
  }

  lemma Ends(d: Defs, l: Live, m: Machine)
    requires Ready(d, l, m)
    ensures l.Valid() && Sound(m.w)
  {
  }
}
