/** What each reset command does, said of the world and not of the interpreter: when something is
    made, where it is put, what is removed, how a door is left, and what a run of them comes to. */
module ZoneEffects {
  import opened ObjectGraph
  import opened Options
  import opened Extraction
  import opened ZoneReset

  /** The list at p has become l and no other has changed. */
  ghost predicate OnlyList(s: State, t: State, p: Placement, l: seq<Object>) {
    && At(t, p) == l
    && forall q | q in s.lists.Keys + t.lists.Keys && q != p :: At(t, q) == At(s, q)
  }

  /** o, new, is at p, in front; every other placement and list is as before. */
  ghost predicate PutAt(s: State, o: Object, p: Placement, t: State) {
    t.place == s.place[o := p] && o.id in t.tracked && OnlyList(s, t, p, [o] + At(s, p))
  }

  lemma MovedNew(s: State, o: Object, p: Placement)
    requires Inv(s) && Unused(s, o) && (p.WornBy? ==> 0 <= p.at < NUM_WEARS && At(s, p) == []) && p != Nowhere
    ensures PutAt(s, o, p, Move(Create(s, o), o, p))
  {
    hide *;
    CreateKeepsInv(s, o);
    var t := Create(s, o);
    CreatedIs(s, o, p);
    LinkedIn(t, {});
    MovedTracked(t, o, p);
    FreePlace(t, p);
    MoveLists(t, o, p);
    forall q ensures At(Move(t, o, p), q) == if q == p then [o] + At(s, p) else At(s, q) {
      WithoutAbsent(At(s, q), o);
      NothingMore(At(s, q));
    }
    PutIs(s, o, p, Move(t, o, p));
  }

  lemma CreatedIs(s: State, o: Object, p: Placement)
    ensures var t := Create(s, o);
      && o in t.place && (Inv(t) ==> InvBut(t, {})) && t.place[o := p] == s.place[o := p] && t.records == s.records
      && forall q :: At(t, q) == At(s, q)
  {
    assert s.place[o := Nowhere][o := p] == s.place[o := p];
  }

  lemma FreePlace(t: State, p: Placement)
    requires (p.WornBy? ==> 0 <= p.at < NUM_WEARS && At(t, p) == []) && p != Nowhere
    ensures Free(t, p)
  {
  }

  lemma NothingMore(l: seq<Object>)
    ensures [] + l == l
  {
  }

  lemma PutIs(s: State, o: Object, p: Placement, t: State)
    requires t.place == s.place[o := p] && o.id in t.tracked
    requires forall q :: At(t, q) == if q == p then [o] + At(s, p) else At(s, q)
    ensures PutAt(s, o, p, t)
  {
  }

  lemma MovedTracked(t: State, o: Object, p: Placement)
    ensures o.id in Move(t, o, p).tracked
  {
  }

  /** A thing that is made for a room is at the head of its floor; with no room it is nowhere, and in
      the object table all the same. */
  lemma MadeForRoom(d: Defs, m: Machine, i: nat, ch: Choice)
    requires SoundMachine(d, m) && i < |m.commands| && Fits(d, m, i, ch) && ch.NewThing? && m.commands[i].op == 'O'
    ensures var s, t, cmd := m.w.s, Step(d, m, i, ch).w.s, m.commands[i];
      if cmd.arg3 != NO_ROOM then PutAt(s, ch.o, InRoom(cmd.arg3), t)
      else t.place == s.place[ch.o := Nowhere] && t.lists == s.lists && ch.o.id in t.tracked
  {
    var cmd := m.commands[i];
    StepMade(d, m, i, ch);
    if cmd.arg3 != NO_ROOM { MovedNew(m.w.s, ch.o, InRoom(cmd.arg3)); }
  }

  lemma StepMade(d: Defs, m: Machine, i: nat, ch: Choice)
    requires SoundMachine(d, m) && i < |m.commands| && Fits(d, m, i, ch) && (ch.NewThing? || ch.NewInside?)
    ensures Inv(m.w.s) && Unused(m.w.s, ch.o) && Step(d, m, i, ch).w.s == Placed(m.w.s, m.commands[i], m.mob, ch)
    ensures m.commands[i].op in {'G', 'E'} ==> m.mob.Some? && m.mob.value in m.w.s.records
    ensures m.commands[i].op == 'E' ==> 0 <= m.commands[i].arg3 < NUM_WEARS
  {
    hide Inv, Placed, Unused, Judge;
    JudgedToMake(d, m, i);
  }

  lemma JudgedToMake(d: Defs, m: Machine, i: nat)
    requires i < |m.commands| && Judge(d, m, i) == Makes
    ensures m.commands[i].op in {'G', 'E'} ==> m.mob.Some?
    ensures m.commands[i].op == 'E' ==> 0 <= m.commands[i].arg3 < NUM_WEARS
  {
  }

  /** A thing that is given is at the head of what the last mobile carries. */
  lemma MadeForHands(d: Defs, m: Machine, i: nat, ch: Choice)
    requires SoundMachine(d, m) && i < |m.commands| && Fits(d, m, i, ch) && ch.NewThing? && m.commands[i].op == 'G'
    ensures m.mob.Some? && PutAt(m.w.s, ch.o, CarriedBy(m.mob.value), Step(d, m, i, ch).w.s)
  {
    StepMade(d, m, i, ch);
    MovedNew(m.w.s, ch.o, CarriedBy(m.mob.value));
  }

  /** A thing to be worn is worn, when the slot is free, and taken off the wearer's armour figure;
      otherwise it is carried, and the slot is as it was. */
  lemma MadeToWear(d: Defs, m: Machine, i: nat, ch: Choice)
    requires SoundMachine(d, m) && i < |m.commands| && Fits(d, m, i, ch) && ch.NewThing? && m.commands[i].op == 'E'
    ensures m.mob.Some? && m.mob.value in m.w.s.records
    ensures var s, t, c, slot := m.w.s, Step(d, m, i, ch).w.s, m.mob.value, WornBy(m.mob.value, m.commands[i].arg3);
      if At(s, slot) == [] then
        && PutAt(s, ch.o, slot, t) && At(t, slot) == [ch.o] && At(t, CarriedBy(c)) == At(s, CarriedBy(c))
        && c in t.records
        && (s.records[c].Some? ==>
              t.records[c] == Some(s.records[c].value.(
                                   realArmor := s.records[c].value.realArmor - ArmorClassOf(ch.o, m.commands[i].arg3))))
      else
        PutAt(s, ch.o, CarriedBy(c), t) && At(t, slot) == At(s, slot) && t.records == s.records
  {
    hide Inv, Unused, EquipOrGive, PutAt, Step, Fits, SoundMachine, ArmorClassOf;
    StepMade(d, m, i, ch);
    WearOrCarry(m.w.s, ch.o, m.mob.value, m.commands[i].arg3);
    PlacedToWear(m.w.s, m.commands[i], m.mob.value, ch.o);
  }

  lemma PlacedToWear(s: State, cmd: Command, c: Character, o: Object)
    requires cmd.op == 'E'
    ensures Placed(s, cmd, Some(c), NewThing(o)) == EquipOrGive(Create(s, o), o, c, cmd.arg3)
  {
  }

  lemma WearOrCarry(s: State, o: Object, c: Character, pos: int)
    requires Inv(s) && Unused(s, o) && c in s.records && 0 <= pos < NUM_WEARS
    ensures var t, slot := EquipOrGive(Create(s, o), o, c, pos), WornBy(c, pos);
      if At(s, slot) == [] then
        && PutAt(s, o, slot, t) && At(t, slot) == [o] && At(t, CarriedBy(c)) == At(s, CarriedBy(c))
        && c in t.records
        && (s.records[c].Some? ==>
              t.records[c] ==
              Some(s.records[c].value.(realArmor := s.records[c].value.realArmor - ArmorClassOf(o, pos))))
      else
        PutAt(s, o, CarriedBy(c), t) && At(t, slot) == At(s, slot) && t.records == s.records
  {
    hide *;
    var slot := WornBy(c, pos);
    CreatedIs(s, o, slot);
    EquipOrGiveIs(Create(s, o), o, c, pos);
    MovedNew(s, o, CarriedBy(c));
    if At(s, slot) == [] {
      MovedNew(s, o, slot);
      SamePut(s, o, slot, Move(Create(s, o), o, slot), EquipOrGive(Create(s, o), o, c, pos));
      PutElsewhere(s, o, slot, EquipOrGive(Create(s, o), o, c, pos), CarriedBy(c));
      OnlyOne(o, At(s, slot));
    } else {
      PutElsewhere(s, o, CarriedBy(c), Move(Create(s, o), o, CarriedBy(c)), slot);
    }
  }

  lemma OnlyOne(o: Object, l: seq<Object>)
    ensures l == [] ==> [o] + l == [o]
  {
  }

  lemma EquipOrGiveIs(t: State, o: Object, c: Character, pos: int)
    requires c in t.records && 0 <= pos < NUM_WEARS
    ensures var u, slot := EquipOrGive(t, o, c, pos), WornBy(c, pos);
      if At(t, slot) == [] then
        && u.place == Move(t, o, slot).place && u.lists == Move(t, o, slot).lists && u.tracked == Move(t, o, slot).tracked
        && c in u.records
        && (t.records[c].Some? ==>
              u.records[c] ==
              Some(t.records[c].value.(realArmor := t.records[c].value.realArmor - ArmorClassOf(o, pos))))
      else u == Move(t, o, CarriedBy(c)) && u.records == t.records
  {
    MoveRecords(t, o, WornBy(c, pos));
    MoveRecords(t, o, CarriedBy(c));
    hide Move, ArmorClassOf;
  }

  lemma MoveRecords(s: State, o: Object, p: Placement)
    ensures Move(s, o, p).records == s.records
  {
  }

  lemma SamePut(s: State, o: Object, p: Placement, t: State, u: State)
    requires PutAt(s, o, p, t) && u.place == t.place && u.lists == t.lists && u.tracked == t.tracked
    ensures PutAt(s, o, p, u)
  {
  }

  /** What is put in one list leaves another alone. */
  lemma PutElsewhere(s: State, o: Object, p: Placement, t: State, q: Placement)
    requires PutAt(s, o, p, t)
    ensures At(t, p) == [o] + At(s, p) && (q != p ==> At(t, q) == At(s, q))
  {
  }

  /** A thing to be put in another is at the head of what that holds. */
  lemma MadeForContainer(d: Defs, m: Machine, i: nat, ch: Choice)
    requires SoundMachine(d, m) && i < |m.commands| && Fits(d, m, i, ch) && ch.NewInside?
    ensures ch.found.Vnum() == m.commands[i].arg3 && PutAt(m.w.s, ch.o, InContainer(ch.found), Step(d, m, i, ch).w.s)
  {
    StepMade(d, m, i, ch);
    TrackedExists(m.w.s, ch.found);
    NewEnclosesNothing(m.w.s, ch.o, ch.found);
    MovedNew(m.w.s, ch.o, InContainer(ch.found));
  }

  // ----- when a command acts ----------------------------------------------

  /** Nothing has stopped the run, and the command is not one that waits on a failure. */
  predicate Asked(m: Machine, i: nat)
    requires i < |m.commands|
  {
    !m.stopped && (m.commands[i].ifFlag == 0 || m.last)
  }

  ghost predicate ThingWanted(d: Defs, m: Machine, i: nat)
    requires i < |m.commands|
  {
    var cmd, s := m.commands[i], m.w.s;
    && Asked(m, i) && cmd.arg1 in d.objs && CountOf(s.counts, cmd.arg1) < cmd.arg2
    && (cmd.op == 'G' || cmd.op == 'E' ==> m.mob.Some?)
    && (cmd.op == 'E' ==> 0 <= cmd.arg3 < NUM_WEARS)
    && (cmd.op == 'P' ==> exists id | id in s.tracked :: s.tracked[id].Vnum() == cmd.arg3)
  }

  /** A command that makes things makes one, of its kind, exactly when it is asked to, knows the kind,
      finds it below its cap, and has what it is to go on or in; otherwise the world is as it was. */
  lemma ThingMadeExactly(d: Defs, m: Machine, i: nat, ch: Choice)
    requires SoundMachine(d, m) && i < |m.commands| && Fits(d, m, i, ch) && MakesThings(m.commands[i].op)
    ensures ThingWanted(d, m, i) ==>
              && (ch.NewThing? || ch.NewInside?) && ch.o.Vnum() == m.commands[i].arg1
              && ch.o.id !in m.w.s.tracked && ch.o.id in Step(d, m, i, ch).w.s.tracked && Step(d, m, i, ch).last
    ensures !ThingWanted(d, m, i) ==> Step(d, m, i, ch).w == m.w
  {
    ThingJudged(d, m, i, ch);
    if ThingWanted(d, m, i) {
      hide ThingWanted, SoundMachine, Step, Fits, PutAt, Inv;
      NewIsUntracked(m.w.s, ch.o);
      match m.commands[i].op {
        case 'O' => MadeForRoom(d, m, i, ch);
        case 'G' => MadeForHands(d, m, i, ch);
        case 'E' => MadeToWear(d, m, i, ch);
        case _ => MadeForContainer(d, m, i, ch);
      }
      PutTracked(m, ch, Step(d, m, i, ch).w.s);
    }
  }

  lemma ThingJudged(d: Defs, m: Machine, i: nat, ch: Choice)
    requires SoundMachine(d, m) && i < |m.commands| && Fits(d, m, i, ch) && MakesThings(m.commands[i].op)
    ensures ThingWanted(d, m, i) ==>
              && (ch.NewThing? <==> m.commands[i].op != 'P') && (ch.NewInside? <==> m.commands[i].op == 'P')
              && ch.o.Vnum() == m.commands[i].arg1 && Inv(m.w.s) && Unused(m.w.s, ch.o) && Step(d, m, i, ch).last
    ensures !ThingWanted(d, m, i) ==> Step(d, m, i, ch).w == m.w
  {
    hide Inv, Placed;
  }

  lemma NewIsUntracked(s: State, o: Object)
    requires Inv(s) && Unused(s, o)
    ensures o.id !in s.tracked
  {
  }

  lemma PutTracked(m: Machine, ch: Choice, t: State)
    requires ch.NewThing? || ch.NewInside?
    ensures forall p :: PutAt(m.w.s, ch.o, p, t) ==> ch.o.id in t.tracked
  {
  }

  ghost predicate MobileWanted(d: Defs, m: Machine, i: nat)
    requires i < |m.commands|
  {
    var cmd := m.commands[i];
    Asked(m, i) && cmd.arg1 in d.mobs && cmd.arg3 in d.rooms && ZoneReset.Seen(m.w.mobCounts, cmd.arg1) < cmd.arg2
  }

  /** A mobile is made under the same conditions: one more, of its kind, with what its kind has, first in
      its room, with nothing on it, and it is the one that later commands are about. */
  lemma MobileMadeExactly(d: Defs, m: Machine, i: nat, ch: Choice)
    requires SoundMachine(d, m) && i < |m.commands| && Fits(d, m, i, ch) && m.commands[i].op == 'M'
    ensures MobileWanted(d, m, i) ==>
              var r, cmd := Step(d, m, i, ch), m.commands[i];
              && ch.NewMobile? && ch.c.mobVnum == Some(cmd.arg1) && ch.c !in m.w.mobiles
              && r.w.mobiles == m.w.mobiles + {ch.c} && r.mob == Some(ch.c) && r.last
              && r.w.occupants ==
                 m.w.occupants[cmd.arg3 := [ch.c] + if cmd.arg3 in m.w.occupants then m.w.occupants[cmd.arg3] else []]
              && r.w.s == m.w.s.(records := m.w.s.records[ch.c :=
                                 Some(Record(d.mobs[cmd.arg1].armorClass * 10, d.mobs[cmd.arg1].gold, 0))])
    ensures MobileWanted(d, m, i) ==>
              && At(Step(d, m, i, ch).w.s, CarriedBy(ch.c)) == []
              && forall pos :: At(Step(d, m, i, ch).w.s, WornBy(ch.c, pos)) == []
    ensures !MobileWanted(d, m, i) ==> Step(d, m, i, ch).w == m.w && Step(d, m, i, ch).mob == m.mob
  {
    MobileJudged(d, m, i, ch);
    if MobileWanted(d, m, i) {
      NothingOnStranger(m.w.s, ch.c);
    }
  }

  lemma MobileJudged(d: Defs, m: Machine, i: nat, ch: Choice)
    requires SoundMachine(d, m) && i < |m.commands| && Fits(d, m, i, ch) && m.commands[i].op == 'M'
    ensures MobileWanted(d, m, i) ==> ch.NewMobile? && Inv(m.w.s) && ch.c !in m.w.s.records
    ensures MobileWanted(d, m, i) ==> Step(d, m, i, ch) == Make(d, m, m.commands[i], ch)
    ensures !MobileWanted(d, m, i) ==> Step(d, m, i, ch).w == m.w && Step(d, m, i, ch).mob == m.mob
  {
    hide Inv;
  }

  /** Nobody unknown has anything. */
  lemma NothingOnStranger(s: State, c: Character)
    requires Inv(s) && c !in s.records
    ensures At(s, CarriedBy(c)) == [] && forall pos :: At(s, WornBy(c, pos)) == []
  {
    Unlisted(s, CarriedBy(c));
    forall pos ensures At(s, WornBy(c, pos)) == [] {
      Unlisted(s, WornBy(c, pos));
    }
  }

  lemma OnlyThere(s: State, p: Placement, x: Object)
    requires Inv(s)
    ensures x in At(s, p) ==> x in s.place && s.place[x] == p
  {
  }

  lemma Unlisted(s: State, p: Placement)
    requires Inv(s) && (p.CarriedBy? || p.WornBy?) && p.holder !in s.records
    ensures At(s, p) == []
  {
    forall x | x in s.place ensures s.place[x] != p {
      assert Known(s, s.place[x]);
    }
    forall x ensures x !in At(s, p) {
      OnlyThere(s, p, x);
    }
    assert Elems(At(s, p)) == {};
    NoElems(At(s, p));
  }

  /** A removal takes the first of the kind on the floor: it is destroyed, alone, and what it held is on
      that floor. With none there nothing happens. */
  lemma RemovedFirst(d: Defs, m: Machine, i: nat, ch: Choice)
    requires SoundMachine(d, m) && i < |m.commands| && Fits(d, m, i, ch) && m.commands[i].op == 'R'
    ensures Step(d, m, i, ch).w.(s := m.w.s) == m.w
    ensures var s, t, floor := m.w.s, Step(d, m, i, ch).w.s, InRoom(m.commands[i].arg1);
      var list, v := At(s, floor), m.commands[i].arg2;
      && (!Asked(m, i) || (forall o | o in list :: o.Vnum() != v) ==> t == s)
      && forall k: nat | Asked(m, i) && k < |list| && list[k].Vnum() == v && (forall j | 0 <= j < k :: list[j].Vnum() != v) ::
           && list[k] in s.place && list[k] in t.place && t.place[list[k]] == Nowhere && list[k].id !in t.tracked
           && At(t, floor) == Reverse(Contents(s, list[k])) + Without(list, list[k])
           && forall x | x in s.place && x != list[k] && x !in Contents(s, list[k]) :: x in t.place && t.place[x] == s.place[x]
  {
    hide Inv, Extract, Reverse, Without, Contents;
    var s, floor := m.w.s, InRoom(m.commands[i].arg1);
    var list, v := At(s, floor), m.commands[i].arg2;
    FirstOfIsThere(list, v);
    if forall o | o in list :: o.Vnum() != v {
      NoneFirst(list, v);
    }
    forall k: nat | Asked(m, i) && k < |list| && list[k].Vnum() == v && (forall j | 0 <= j < k :: list[j].Vnum() != v)
      ensures
        var t := Step(d, m, i, ch).w.s;
        && list[k] in s.place && list[k] in t.place && t.place[list[k]] == Nowhere && list[k].id !in t.tracked
        && At(t, floor) == Reverse(Contents(s, list[k])) + Without(list, list[k])
        && forall x | x in s.place && x != list[k] && x !in Contents(s, list[k]) :: x in t.place && t.place[x] == s.place[x]
    {
      FirstIs(list, v, k);
      TakenOffFloor(s, floor, list[k]);
    }
  }

  lemma TakenOffFloor(s: State, floor: Placement, o: Object)
    requires Inv(s) && floor.InRoom? && o in At(s, floor)
    ensures o in s.place
    ensures var t := Extract(s, o);
      && o in t.place && t.place[o] == Nowhere && o.id !in t.tracked
      && At(t, floor) == Reverse(Contents(s, o)) + Without(At(s, floor), o)
      && forall x | x in s.place && x != o && x !in Contents(s, o) :: x in t.place && t.place[x] == s.place[x]
  {
    ListedIsThere(s, floor, o);
    OnePlaced(s, o, floor);
    hide *;
    ContentsLand(s, o, {});
  }

  lemma ListedIsThere(s: State, p: Placement, o: Object)
    requires Inv(s) && o in At(s, p)
    ensures o in s.place && s.place[o] == p && p != Nowhere && InvBut(s, {}) && Elems(Contents(s, o)) !! {}
  {
  }

  lemma {:induction false} FirstIs(list: seq<Object>, v: ObjVnum, k: nat)
    requires k < |list| && list[k].Vnum() == v && forall j | 0 <= j < k :: list[j].Vnum() != v
    ensures FirstOf(list, v) == Some(list[k])
  {
    if k > 0 { FirstIs(list[1..], v, k - 1); }
  }

  lemma {:induction false} NoneFirst(list: seq<Object>, v: ObjVnum)
    requires forall o | o in list :: o.Vnum() != v
    ensures FirstOf(list, v) == None
  {
    if list != [] {
      assert list == [list[0]] + list[1..];
      NoneFirst(list[1..], v);
    }
  }

  /** A door is left open, shut or locked, by the number, with what else was said of it; any other number
      leaves it as it was. No other door and nothing else changes. */
  lemma DoorLeft(d: Defs, m: Machine, i: nat, ch: Choice)
    requires SoundMachine(d, m) && i < |m.commands| && Fits(d, m, i, ch) && m.commands[i].op == 'D'
    ensures var r, cmd := Step(d, m, i, ch), m.commands[i];
      var door := Door(cmd.arg1, cmd.arg2);
      && r.w.(doors := m.w.doors) == m.w
      && if Asked(m, i) && cmd.arg1 in d.rooms && 0 <= cmd.arg2 < 6 && cmd.arg2 in d.rooms[cmd.arg1] then
           var was, now := DoorOf(m.w, door), DoorOf(r.w, door);
           && r.w.doors == m.w.doors[door := now]
           && (forall f | f != EXIT_CLOSED && f != EXIT_LOCKED :: f in now <==> f in was)
           && (cmd.arg3 == 0 ==> EXIT_CLOSED !in now && EXIT_LOCKED !in now)
           && (cmd.arg3 == 1 ==> EXIT_CLOSED in now && EXIT_LOCKED !in now)
           && (cmd.arg3 == 2 ==> EXIT_CLOSED in now && EXIT_LOCKED in now)
           && (cmd.arg3 !in {0, 1, 2} ==> now == was)
         else r.w == m.w
  {
  }

  function DoorOf(w: World, door: Door): set<nat> {
    if door in w.doors then w.doors[door] else {}
  }

  // ----- one command and then another -------------------------------------

  /** After a failure, every command that waits on the one before is passed over, however many there
      are, and nothing has changed. */
  lemma {:induction false} ConditionalsSkip(d: Defs, m: Machine, i: nat, j: nat, choices: seq<Choice>)
    requires i <= j <= |m.commands| && j <= |choices| && !Reset(d, m, i, choices).last
    requires forall k | i <= k < j :: Reset(d, m, i, choices).commands[k].ifFlag != 0 && Reset(d, m, i, choices).commands[k].op != 'S'
    ensures Reset(d, m, j, choices) == Reset(d, m, i, choices)
  {
    if i < j {
      ConditionalsSkip(d, m, i, j - 1, choices);
      var r := Reset(d, m, j - 1, choices);
      PassedOver(d, r, j - 1, choices[j - 1]);
    }
  }

  lemma PassedOver(d: Defs, m: Machine, i: nat, ch: Choice)
    requires i < |m.commands| && !m.last && m.commands[i].ifFlag != 0 && m.commands[i].op != 'S'
    ensures Step(d, m, i, ch) == m
  {
  }

  /** In a reset, a mobile made by one command wears what the next makes it wear. */
  lemma DressedMobile(d: Defs, m: Machine, i: nat, choices: seq<Choice>)
    requires SoundMachine(d, m) && i + 2 <= |m.commands| && i + 2 <= |choices| && AllFit(d, m, i + 2, choices)
    requires m.commands[i].op == 'M' && m.commands[i + 1].op == 'E' && choices[i].NewMobile? && choices[i + 1].NewThing?
    ensures var t, c, o, pos := Reset(d, m, i + 2, choices).w.s, choices[i].c, choices[i + 1].o, m.commands[i + 1].arg3;
      && At(t, WornBy(c, pos)) == [o] && o in t.place && t.place[o] == WornBy(c, pos) && At(t, CarriedBy(c)) == []
  {
    hide SoundMachine, Step, Fits, Judge, PutAt;
    assert AllFit(d, m, i, choices);
    ResetKeeps(d, m, i, choices);
    var r := Reset(d, m, i, choices);
    assert Fits(d, r, i, choices[i]) && Fits(d, Reset(d, m, i + 1, choices), i + 1, choices[i + 1]);
    StepKeeps(d, r, i, choices[i]);
    StillAsked(d, m, i, choices);
    var u := Reset(d, m, i + 1, choices);
    MobileWas(d, r, i, choices[i]);
    MobileMadeExactly(d, r, i, choices[i]);
    MadeToWear(d, u, i + 1, choices[i + 1]);
    WornIs(u.w.s, choices[i + 1].o, WornBy(choices[i].c, m.commands[i + 1].arg3), Reset(d, m, i + 2, choices).w.s);
  }

  lemma WornIs(s: State, o: Object, p: Placement, t: State)
    ensures PutAt(s, o, p, t) ==> o in t.place && t.place[o] == p
  {
  }

  lemma MobileWas(d: Defs, m: Machine, i: nat, ch: Choice)
    requires i < |m.commands| && Fits(d, m, i, ch) && ch.NewMobile?
    ensures MobileWanted(d, m, i) && m.commands[i].op == 'M'
  {
  }

  /** A command that makes something is the one the list began with. */
  lemma StillAsked(d: Defs, m: Machine, i: nat, choices: seq<Choice>)
    requires i + 2 <= |m.commands| && i + 2 <= |choices| && AllFit(d, m, i + 2, choices)
    requires choices[i].NewMobile? && choices[i + 1].NewThing?
    ensures Reset(d, m, i, choices).commands[i] == m.commands[i]
    ensures Reset(d, m, i + 1, choices).commands[i + 1] == m.commands[i + 1]
  {
    ResetDisables(d, m, i, choices);
    ResetDisables(d, m, i + 1, choices);
    assert Fits(d, Reset(d, m, i, choices), i, choices[i]);
    assert Fits(d, Reset(d, m, i + 1, choices), i + 1, choices[i + 1]);
  }
}
