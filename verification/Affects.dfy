/** Affects: a character's figures are rebuilt from the unaffected ones, what is worn and what is
    on them, every time anything changes. Arithmetic is that of 32-bit integers. */
module Affects {
  import opened Options
  import opened Int32s

  type Spell = int

  const PERMANENT: Int32 := -1
  const BASE_ARMOR: Int32 := 100

  datatype Modifier = Modifier(location: int, amount: Int32)

  datatype Affect = Affect(spell: Spell, location: int, modifier: Int32, duration: Int32, bits: set<nat>)

  datatype Worn = Worn(permAffect: set<nat>, affects: seq<Modifier>)

  /** Abilities, the points an affect can change, and the saving throws. */
  datatype Figures = Figures(
    strength: Int32, percentile: Int32, dexterity: Int32, intelligence: Int32, wisdom: Int32, constitution: Int32, charisma: Int32,
    maxMana: Int32, maxHit: Int32, maxMove: Int32, armor: Int32, hitRoll: Int32, damRoll: Int32,
    paralyse: Int32, rod: Int32, petrify: Int32, breath: Int32, spell: Int32)

  datatype Sheet = Sheet(figures: Figures, weight: Int32, height: Int32)

  // ----- one modifier -----------------------------------------------------

  predicate Lands(location: int) {
    1 <= location <= 6 || 10 <= location <= 14 || 17 <= location <= 24
  }

  /** The figure a location names. */
  function At(s: Sheet, location: int): Int32
    requires Lands(location)
  {
    var f := s.figures;
    match location
    case 1 => f.strength
    case 2 => f.dexterity
    case 3 => f.intelligence
    case 4 => f.wisdom
    case 5 => f.constitution
    case 6 => f.charisma
    case 10 => s.weight
    case 11 => s.height
    case 12 => f.maxMana
    case 13 => f.maxHit
    case 14 => f.maxMove
    case 17 => f.armor
    case 18 => f.hitRoll
    case 19 => f.damRoll
    case 20 => f.paralyse
    case 21 => f.rod
    case 22 => f.petrify
    case 23 => f.breath
    case _ => f.spell
  }

  /** applyModifier. */
  function Apply(s: Sheet, m: Modifier): Sheet {
    var f, d := s.figures, m.amount;
    match m.location
    case 1 => s.(figures := f.(strength := Wrap(f.strength + d)))
    case 2 => s.(figures := f.(dexterity := Wrap(f.dexterity + d)))
    case 3 => s.(figures := f.(intelligence := Wrap(f.intelligence + d)))
    case 4 => s.(figures := f.(wisdom := Wrap(f.wisdom + d)))
    case 5 => s.(figures := f.(constitution := Wrap(f.constitution + d)))
    case 6 => s.(figures := f.(charisma := Wrap(f.charisma + d)))
    case 10 => s.(weight := Wrap(s.weight + d))
    case 11 => s.(height := Wrap(s.height + d))
    case 12 => s.(figures := f.(maxMana := Wrap(f.maxMana + d)))
    case 13 => s.(figures := f.(maxHit := Wrap(f.maxHit + d)))
    case 14 => s.(figures := f.(maxMove := Wrap(f.maxMove + d)))
    case 17 => s.(figures := f.(armor := Wrap(f.armor + d)))
    case 18 => s.(figures := f.(hitRoll := Wrap(f.hitRoll + d)))
    case 19 => s.(figures := f.(damRoll := Wrap(f.damRoll + d)))
    case 20 => s.(figures := f.(paralyse := Wrap(f.paralyse + d)))
    case 21 => s.(figures := f.(rod := Wrap(f.rod + d)))
    case 22 => s.(figures := f.(petrify := Wrap(f.petrify + d)))
    case 23 => s.(figures := f.(breath := Wrap(f.breath + d)))
    case 24 => s.(figures := f.(spell := Wrap(f.spell + d)))
    case _ => s
  }

  function ApplyAll(s: Sheet, mods: seq<Modifier>): Sheet {
    if mods == [] then s else Apply(ApplyAll(s, mods[..|mods| - 1]), mods[|mods| - 1])
  }

  function SumAt(mods: seq<Modifier>, location: int): int {
    if mods == [] then 0
    else SumAt(mods[..|mods| - 1], location) + if mods[|mods| - 1].location == location then mods[|mods| - 1].amount else 0
  }

  lemma ApplyAt(s: Sheet, m: Modifier, location: int)
    requires Lands(location)
    ensures At(Apply(s, m), location) == if m.location == location then Wrap(At(s, location) + m.amount) else At(s, location)
    ensures Apply(s, m).figures.percentile == s.figures.percentile
  {
  }

  /** However many modifiers there are and in whatever order, each figure is its start plus their sum. */
  lemma {:induction false} ApplyAllAt(s: Sheet, mods: seq<Modifier>, location: int)
    requires Lands(location)
    ensures At(ApplyAll(s, mods), location) == Wrap(At(s, location) + SumAt(mods, location))
    ensures ApplyAll(s, mods).figures.percentile == s.figures.percentile
  {
    hide At, Apply, Wrap;
    if mods == [] {
      WrapSame(At(s, location));
    } else {
      var front, m := mods[..|mods| - 1], mods[|mods| - 1];
      ApplyAllAt(s, front, location);
      ApplyAt(ApplyAll(s, front), m, location);
      WrapOnce(At(s, location) + SumAt(front, location), m.amount);
    }
  }

  ghost predicate SameAt(s: Sheet, t: Sheet) {
    s.figures.percentile == t.figures.percentile && forall l | Lands(l) :: At(s, l) == At(t, l)
  }

  /** A sheet is its figures. */
  lemma SheetIs(s: Sheet, t: Sheet)
    requires SameAt(s, t)
    ensures s == t
  {
    assert At(s, 1) == At(t, 1) && At(s, 2) == At(t, 2) && At(s, 3) == At(t, 3) && At(s, 4) == At(t, 4);
    assert At(s, 5) == At(t, 5) && At(s, 6) == At(t, 6) && At(s, 10) == At(t, 10) && At(s, 11) == At(t, 11);
    assert At(s, 12) == At(t, 12) && At(s, 13) == At(t, 13) && At(s, 14) == At(t, 14) && At(s, 17) == At(t, 17);
    assert At(s, 18) == At(t, 18) && At(s, 19) == At(t, 19) && At(s, 20) == At(t, 20) && At(s, 21) == At(t, 21);
    assert At(s, 22) == At(t, 22) && At(s, 23) == At(t, 23) && At(s, 24) == At(t, 24);
  }

  lemma {:induction false} SumAtAppend(a: seq<Modifier>, b: seq<Modifier>, location: int)
    ensures SumAt(a + b, location) == SumAt(a, location) + SumAt(b, location)
  {
    if b == [] {
      assert a + b == a;
    } else {
      var front := b[..|b| - 1];
      SumAtAppend(a, front, location);
      assert (a + b)[..|a + b| - 1] == a + front;
    }
  }

  lemma {:induction false} SumAtPermuted(a: seq<Modifier>, b: seq<Modifier>, location: int)
    requires multiset(a) == multiset(b)
    ensures SumAt(a, location) == SumAt(b, location)
  {
    if a == [] {
      assert |b| == |multiset(b)| == 0;
    } else {
      var i := TakenOut(a, b);
      var front, m, p, q := a[..|a| - 1], a[|a| - 1], b[..i], b[i + 1..];
      SumAtPermuted(front, p + q, location);
      SumAtAppend(p, [m], location);
      SumAtAppend(p + [m], q, location);
      SumAtAppend(p, q, location);
      assert [m][..0] == [];
    }
  }

  /** Where the last of a is in b, which without it is what a is without it. */
  lemma TakenOut<T>(a: seq<T>, b: seq<T>) returns (i: nat)
    requires multiset(a) == multiset(b) && a != []
    ensures i < |b| && b[i] == a[|a| - 1] && b == b[..i] + [b[i]] + b[i + 1..]
    ensures multiset(a[..|a| - 1]) == multiset(b[..i] + b[i + 1..])
  {
    var front, m := a[..|a| - 1], a[|a| - 1];
    assert a == front + [m];
    assert m in multiset(b);
    i :| 0 <= i < |b| && b[i] == m;
    var rest := b[..i] + b[i + 1..];
    assert b == b[..i] + [m] + b[i + 1..];
    assert multiset(a) == multiset(front) + multiset{m} && multiset(b) == multiset(rest) + multiset{m};
    assert multiset(front) == multiset(a) - multiset{m} && multiset(rest) == multiset(b) - multiset{m};
  }

  // ----- the clamps -------------------------------------------------------

  function Min(a: int, b: int): int { if a < b then a else b }

  function Max(a: int, b: int): int { if a < b then b else a }

  function Clamp(v: Int32, ceiling: Int32): Int32
    requires ceiling >= 0
  {
    Max(0, Min(ceiling, v))
  }

  function Ceiling(mobile: bool): Int32 {
    if mobile then 25 else 18
  }

  function Clamped(f: Figures, mobile: bool): Figures {
    var c := Ceiling(mobile);
    var s: Int32 := Max(0, f.strength);
    f.(intelligence := Clamp(f.intelligence, c),
    wisdom := Clamp(f.wisdom, c),
    dexterity := Clamp(f.dexterity, c),
    constitution := Clamp(f.constitution, c),
    charisma := Clamp(f.charisma, c),
    strength := Min(c, s),
    percentile := if !mobile && s > 18 then Min(100, Wrap(f.percentile + (s - 18) * 10)) else f.percentile)
  }

  // ----- the record -------------------------------------------------------

  /** A record, as a value. */
  datatype Rec = Rec(
    current: Figures, rolled: Figures, affectFlags: set<nat>, baseAffectFlags: set<nat>,
    weight: Int32, height: Int32, mobile: bool, worn: Option<seq<Option<Worn>>>, affects: seq<Affect>)

  function ModifierOf(a: Affect): Modifier {
    Modifier(a.location, a.modifier)
  }

  function OfWorn(worn: seq<Option<Worn>>): seq<Modifier> {
    if worn == [] then []
    else OfWorn(worn[..|worn| - 1]) + match worn[|worn| - 1] case None => [] case Some(w) => w.affects
  }

  function OfAffects(affects: seq<Affect>): seq<Modifier> {
    if affects == [] then [] else OfAffects(affects[..|affects| - 1]) + [ModifierOf(affects[|affects| - 1])]
  }

  /** Equipment first, then spells. */
  function ModifiersOf(r: Rec): seq<Modifier> {
    (if r.worn.Some? then OfWorn(r.worn.value) else []) + OfAffects(r.affects)
  }

  function WornFlags(worn: seq<Option<Worn>>): set<nat> {
    if worn == [] then {}
    else WornFlags(worn[..|worn| - 1]) + match worn[|worn| - 1] case None => {} case Some(w) => w.permAffect
  }

  function SpellFlags(affects: seq<Affect>): set<nat> {
    if affects == [] then {} else SpellFlags(affects[..|affects| - 1]) + affects[|affects| - 1].bits
  }

  function FlagsOf(r: Rec): set<nat> {
    r.baseAffectFlags + (if r.worn.Some? then WornFlags(r.worn.value) else {}) + SpellFlags(r.affects)
  }

  function Recomputed(r: Rec): Rec {
    var s := ApplyAll(Sheet(r.rolled, r.weight, r.height), ModifiersOf(r));
    r.(current := Clamped(s.figures, r.mobile), affectFlags := FlagsOf(r), weight := s.weight, height := s.height)
  }

  function Lacking(affects: seq<Affect>, spell: Spell): seq<Affect> {
    if affects == [] then []
    else
      var front, a := affects[..|affects| - 1], affects[|affects| - 1];
      if a.spell == spell then Lacking(front, spell) else Lacking(front, spell) + [a]
  }

  /** The first affect with a's spell and location, or the length. */
  function FirstLike(affects: seq<Affect>, a: Affect): (k: nat)
    ensures k <= |affects| && (k < |affects| ==> affects[k].spell == a.spell && affects[k].location == a.location)
    ensures forall i | 0 <= i < k :: !(affects[i].spell == a.spell && affects[i].location == a.location)
  {
    if affects == [] || (affects[0].spell == a.spell && affects[0].location == a.location) then 0
    else FirstLike(affects[1..], a) + 1
  }

  function Merged(existing: Affect, a: Affect, accumDuration: bool, accumModifier: bool): Affect {
    a.(duration := if accumDuration then Wrap(a.duration + existing.duration) else a.duration,
    modifier := if accumModifier then Wrap(a.modifier + existing.modifier) else a.modifier)
  }

  function Joined(affects: seq<Affect>, a: Affect, accumDuration: bool, accumModifier: bool): seq<Affect> {
    var i := FirstLike(affects, a);
    if i == |affects| then affects + [a]
    else affects[..i] + affects[i + 1..] + [Merged(affects[i], a, accumDuration, accumModifier)]
  }

  /** What one ageing makes of an affect: nothing left of it when it expires. */
  function AgedOne(a: Affect): seq<Affect> {
    if a.duration >= 1 then [a.(duration := a.duration - 1)] else if a.duration == PERMANENT then [a] else []
  }

  function Aged(affects: seq<Affect>): (kept: seq<Affect>)
    ensures |kept| <= |affects|
  {
    if affects == [] then [] else Aged(affects[..|affects| - 1]) + AgedOne(affects[|affects| - 1])
  }

  function Snapshot(r: Rec): Rec {
    r.(rolled := r.current, baseAffectFlags := r.affectFlags)
  }

  /** BaseRecord: the copy that is saved. */
  function BaseRecord(r: Rec): Rec {
    r.(current := r.rolled.(armor := BASE_ARMOR, hitRoll := 0, damRoll := 0), affectFlags := r.baseAffectFlags)
  }

  class PlayerRecord {
    var current: Figures
    var rolled: Figures
    var affectFlags: set<nat>
    var baseAffectFlags: set<nat>
    var weight: Int32
    var height: Int32
    var mobile: bool
    var worn: Option<seq<Option<Worn>>>
    var affects: seq<Affect>

    constructor (r: Rec)
      ensures View() == r
    {
      current, rolled, affectFlags, baseAffectFlags := r.current, r.rolled, r.affectFlags, r.baseAffectFlags;
      weight, height, mobile, worn, affects := r.weight, r.height, r.mobile, r.worn, r.affects;
    }

    ghost function View(): Rec
      reads this
    {
      Rec(current, rolled, affectFlags, baseAffectFlags, weight, height, mobile, worn, affects)
    }

    method ApplyModifier(m: Modifier)
      modifies `current, `weight, `height
      ensures Sheet(current, weight, height) == Apply(old(Sheet(current, weight, height)), m)
    {
      var s := Apply(Sheet(current, weight, height), m);
      current, weight, height := s.figures, s.weight, s.height;
    }

    method ApplyWorn(w: Worn)
      modifies `current, `weight, `height
      ensures Sheet(current, weight, height) == ApplyAll(old(Sheet(current, weight, height)), w.affects)
    {
      hide Apply;
      ghost var s := Sheet(current, weight, height);
      for i := 0 to |w.affects|
        invariant Sheet(current, weight, height) == ApplyAll(s, w.affects[..i])
      {
        assert w.affects[..i + 1][..i] == w.affects[..i];
        ApplyModifier(w.affects[i]);
      }
      assert w.affects[..|w.affects|] == w.affects;
    }

    method RecomputeAffects()
      modifies `current, `affectFlags, `weight, `height
      ensures View() == Recomputed(old(View()))
    {
      hide Apply, Clamped, ApplyAll, OfWorn, OfAffects, WornFlags, SpellFlags, Wrap;
      NoModifiers(Sheet(rolled, weight, height));
      ghost var was := View();
      ghost var s := Sheet(rolled, weight, height);
      current := rolled;
      var flags := baseAffectFlags;
      ghost var mods := [];
      if worn.Some? {
        for i := 0 to |worn.value|
          invariant mods == OfWorn(worn.value[..i]) && flags == baseAffectFlags + WornFlags(worn.value[..i])
          invariant Sheet(current, weight, height) == ApplyAll(s, mods)
        {
          NextWorn(worn.value, i);
          match worn.value[i] {
            case None =>
            case Some(w) =>
              flags := flags + w.permAffect;
              ApplyWorn(w);
              ApplyAllAppend(s, mods, w.affects);
              mods := mods + w.affects;
          }
        }
        assert worn.value[..|worn.value|] == worn.value;
      }
      ghost var first := mods;
      assert first + [] == first;
      for i := 0 to |affects|
        invariant flags == was.baseAffectFlags + (if worn.Some? then WornFlags(worn.value) else {}) + SpellFlags(affects[..i])
        invariant mods == first + OfAffects(affects[..i])
        invariant Sheet(current, weight, height) == ApplyAll(s, mods)
      {
        NextAffect(affects, i);
        flags := flags + affects[i].bits;
        ApplyModifier(ModifierOf(affects[i]));
        OneMoreModifier(s, mods, ModifierOf(affects[i]));
        mods := mods + [ModifierOf(affects[i])];
      }
      assert affects[..|affects|] == affects;
      affectFlags := flags;
      current := Clamped(current, mobile);
    }

    /** AddAffect. */
    method AddAffect(a: Affect)
      modifies `current, `affectFlags, `weight, `height, `affects
      ensures View() == Recomputed(old(View()).(affects := old(affects) + [a]))
    {
      affects := affects + [a];
      RecomputeAffects();
    }

    /** RemoveAffectsOf: keeps the others, in order, and recomputes only when it took something off. */
    method RemoveAffectsOf(spell: Spell) returns (removed: bool)
      modifies `current, `affectFlags, `weight, `height, `affects
      ensures removed <==> exists a | a in old(affects) :: a.spell == spell
      ensures View() == if removed then Recomputed(old(View()).(affects := Lacking(old(affects), spell))) else old(View())
    {
      var kept := [];
      removed := false;
      for i := 0 to |affects|
        invariant kept == Lacking(affects[..i], spell)
        invariant removed <==> exists a | a in affects[..i] :: a.spell == spell
        invariant !removed ==> kept == affects[..i]
      {
        assert affects[..i + 1] == affects[..i] + [affects[i]];
        assert affects[..i + 1][..i] == affects[..i];
        if affects[i].spell == spell {
          removed := true;
        } else {
          kept := kept + [affects[i]];
        }
      }
      assert affects[..|affects|] == affects;
      affects := kept;
      if removed {
        RecomputeAffects();
      }
    }

    /** JoinAffect: merged with the first affect of its spell and location, or added. */
    method JoinAffect(a: Affect, accumDuration: bool, accumModifier: bool)
      modifies `current, `affectFlags, `weight, `height, `affects
      ensures View() == Recomputed(old(View()).(affects := Joined(old(affects), a, accumDuration, accumModifier)))
    {
      hide Recomputed, Merged;
      for i := 0 to |affects|
        invariant View() == old(View())
        invariant FirstLike(affects, a) == FirstLike(affects[i..], a) + i
      {
        assert affects[i..][1..] == affects[i + 1..];
        if affects[i].spell == a.spell && affects[i].location == a.location {
          var merged := Merged(affects[i], a, accumDuration, accumModifier);
          affects := affects[..i] + affects[i + 1..];
          AddAffect(merged);
          return;
        }
      }
      assert affects[|affects|..] == [];
      AddAffect(a);
    }

    /** AgeAffects: what ran out, with what is said of it, and the rest a tick older. */
    method AgeAffects(wearOff: map<Spell, string>) returns (expired: seq<Expired>)
      modifies `current, `affectFlags, `weight, `height, `affects
      ensures expired == ExpiredOf(old(affects), |old(affects)|, wearOff)
      ensures View() == var t := old(View()).(affects := Aged(old(affects))); if expired == [] then t else Recomputed(t)
    {
      hide Recomputed, Aged, ExpiredOf;
      var list := affects;
      var slice := new Affect[|list|](i requires 0 <= i < |list| => list[i]);
      assert slice[..] == list;
      var kept;
      kept, expired := AgeInPlace(slice, wearOff);
      affects := slice[..kept];
      if |expired| > 0 {
        RecomputeAffects();
      }
    }

    /** SnapshotReal. */
    method SnapshotReal()
      modifies `rolled, `baseAffectFlags
      ensures View() == Snapshot(old(View()))
    {
      rolled, baseAffectFlags := current, affectFlags;
    }
  }

  // ----- wearing off ------------------------------------------------------

  datatype Expired = Expired(spell: Spell, message: string)

  predicate Expires(a: Affect) {
    a.duration < 1 && a.duration != PERMANENT
  }

  /** countAffects. */
  function CountAffects(list: seq<Affect>, spell: Spell): nat {
    if list == [] then 0
    else CountAffects(list[..|list| - 1], spell) + if list[|list| - 1].spell == spell then 1 else 0
  }

  /** Whether the end of affect i is told, the affects kept so far being written over the first of
      the list while it is read. */
  predicate Told(affects: seq<Affect>, i: nat)
    requires i < |affects|
  {
    var kept, spell := Aged(affects[..i]), affects[i].spell;
    && CountAffects(kept, spell) == 0
    && CountAffects(kept + affects[|kept|..], spell) == 1
  }

  function Message(affects: seq<Affect>, i: nat, wearOff: map<Spell, string>): string
    requires i < |affects|
  {
    if affects[i].spell in wearOff && Told(affects, i) then wearOff[affects[i].spell] else ""
  }

  /** What ran out among the first n affects, in their order. */
  function ExpiredOf(affects: seq<Affect>, n: nat, wearOff: map<Spell, string>): seq<Expired>
    requires n <= |affects|
  {
    if n == 0 then []
    else
      ExpiredOf(affects, n - 1, wearOff) +
      if Expires(affects[n - 1]) then [Expired(affects[n - 1].spell, Message(affects, n - 1, wearOff))] else []
  }

  method Tally(list: array<Affect>, n: nat, spell: Spell) returns (count: nat)
    requires n <= list.Length
    ensures count == CountAffects(list[..n], spell)
  {
    count := 0;
    for i := 0 to n
      invariant count == CountAffects(list[..i], spell)
    {
      assert list[..i + 1][..i] == list[..i];
      if list[i].spell == spell {
        count := count + 1;
      }
    }
  }

  /** The loop of AgeAffects: what is kept is written over the front of the list it is read from. */
  method AgeInPlace(list: array<Affect>, wearOff: map<Spell, string>) returns (kept: nat, expired: seq<Expired>)
    modifies list
    ensures kept <= list.Length && list[..kept] == Aged(old(list[..]))
    ensures expired == ExpiredOf(old(list[..]), list.Length, wearOff)
  {
    hide Aged, Message, Told, CountAffects, ExpiredOf;
    ghost var was := list[..];
    NothingAged();
    NoneExpired(was, wearOff);
    kept, expired := 0, [];
    for i := 0 to list.Length
      invariant kept <= i && list[..kept] == Aged(was[..i]) && list[kept..] == was[kept..]
      invariant expired == ExpiredOf(was, i, wearOff)
    {
      AgedOn(was, i);
      ExpiredOn(was, i, wearOff);
      var a := list[i];
      assert a == list[kept..][i - kept] == was[kept..][i - kept];
      if a.duration >= 1 {
        list[kept] := a.(duration := a.duration - 1);
        kept := kept + 1;
      } else if a.duration == PERMANENT {
        list[kept] := a;
        kept := kept + 1;
      } else {
        var message := TellOf(list, kept, was, i, wearOff);
        expired := expired + [Expired(a.spell, message)];
      }
    }
    assert was[..list.Length] == was;
  }

  lemma NothingAged()
    ensures Aged([]) == []
  {
  }

  lemma AgedOn(affects: seq<Affect>, i: nat)
    requires i < |affects|
    ensures Aged(affects[..i + 1]) == Aged(affects[..i]) + AgedOne(affects[i])
  {
    assert affects[..i + 1][..i] == affects[..i];
  }

  lemma NoneExpired(affects: seq<Affect>, wearOff: map<Spell, string>)
    ensures ExpiredOf(affects, 0, wearOff) == []
  {
  }

  lemma ExpiredOn(affects: seq<Affect>, i: nat, wearOff: map<Spell, string>)
    requires i < |affects|
    ensures ExpiredOf(affects, i + 1, wearOff) == ExpiredOf(affects, i, wearOff) +
            if Expires(affects[i]) then [Expired(affects[i].spell, Message(affects, i, wearOff))] else []
  {
  }

  method TellOf(list: array<Affect>, kept: nat, ghost was: seq<Affect>, i: nat, wearOff: map<Spell, string>)
    returns (message: string)
    requires kept <= i < list.Length == |was|
    requires list[..kept] == Aged(was[..i]) && list[kept..] == was[kept..]
    ensures message == Message(was, i, wearOff)
  {
    hide Aged, CountAffects;
    ghost var now := Aged(was[..i]) + was[kept..];
    assert list[..] == list[..kept] + list[kept..] == now;
    var spell := list[i].spell;
    assert list[i] == list[kept..][i - kept] == was[i];
    if spell !in wearOff {
      return "";
    }
    var before := Tally(list, kept, spell);
    var all := Tally(list, list.Length, spell);
    assert list[..list.Length] == list[..];
    return if before == 0 && all == 1 then wearOff[spell] else "";
  }

  lemma {:induction false} CountAppend(a: seq<Affect>, b: seq<Affect>, spell: Spell)
    ensures CountAffects(a + b, spell) == CountAffects(a, spell) + CountAffects(b, spell)
  {
    if b == [] {
      assert a + b == a;
    } else {
      var front := b[..|b| - 1];
      CountAppend(a, front, spell);
      assert (a + b)[..|a + b| - 1] == a + front;
    }
  }

  lemma {:induction false} CountNone(list: seq<Affect>, spell: Spell)
    ensures CountAffects(list, spell) == 0 <==> forall a | a in list :: a.spell != spell
  {
    if list != [] {
      var front, last := list[..|list| - 1], list[|list| - 1];
      CountNone(front, spell);
      assert list == front + [last];
    }
  }

  /** With one of a spell at i, there is no other exactly when the count is one. */
  lemma CountOne(list: seq<Affect>, spell: Spell, i: nat)
    requires i < |list| && list[i].spell == spell
    ensures CountAffects(list, spell) == 1 <==> forall j | 0 <= j < |list| && j != i :: list[j].spell != spell
  {
    var front, back := list[..i], list[i + 1..];
    assert list == front + [list[i]] + back;
    CountAppend(front + [list[i]], back, spell);
    CountAppend(front, [list[i]], spell);
    CountNone(front, spell);
    CountNone(back, spell);
    CountNone([], spell);
    assert CountAffects([list[i]], spell) == 1;
    assert forall j | 0 <= j < i :: front[j] == list[j];
    assert forall j | i < j < |list| :: back[j - i - 1] == list[j];
  }

  lemma {:induction false} AgedHas(affects: seq<Affect>, spell: Spell)
    ensures (exists a | a in Aged(affects) :: a.spell == spell) <==>
            exists j | 0 <= j < |affects| :: affects[j].spell == spell && !Expires(affects[j])
  {
    if affects != [] {
      var front, last := affects[..|affects| - 1], affects[|affects| - 1];
      AgedHas(front, spell);
      assert Aged(affects) == Aged(front) + AgedOne(last);
      if j :| 0 <= j < |affects| && affects[j].spell == spell && !Expires(affects[j]) {
        if j < |front| {
          assert front[j] == affects[j];
        } else {
          assert AgedOne(last)[0] in Aged(affects) && AgedOne(last)[0].spell == spell;
        }
      }
    }
  }

  /** The end of affect i is told exactly when it is the last of its spell, all of the spell before
      it have run out too, and what has been kept by then has been written over all of those. */
  lemma ToldIs(affects: seq<Affect>, i: nat)
    requires i < |affects| && Expires(affects[i])
    ensures Told(affects, i) <==>
            && (forall j | i < j < |affects| :: affects[j].spell != affects[i].spell)
            && (forall j | 0 <= j < i && affects[j].spell == affects[i].spell ::
                  Expires(affects[j]) && j < |Aged(affects[..i])|)
  {
    hide Aged, CountAffects, Expires;
    var kept, spell := Aged(affects[..i]), affects[i].spell;
    var now, k := kept + affects[|kept|..], |kept|;
    AgedHas(affects[..i], spell);
    CountNone(kept, spell);
    assert now[i] == affects[i];
    CountOne(now, spell, i);
    assert forall j | 0 <= j < k :: now[j] == kept[j];
    assert forall j | k <= j < |affects| :: now[j] == affects[j];
    assert forall j | 0 <= j < i :: affects[..i][j] == affects[j];
  }

  /** No spell's end is told twice. */
  lemma ToldOnce(affects: seq<Affect>, i: nat, j: nat)
    requires i < |affects| && j < |affects| && affects[i].spell == affects[j].spell
    requires Expires(affects[i]) && Expires(affects[j]) && Told(affects, i) && Told(affects, j)
    ensures i == j
  {
    ToldIs(affects, i);
    ToldIs(affects, j);
  }

  /** Two affects of one spell at the head of the list that run out together: neither is told. */
  lemma BothUntold(a: Affect, b: Affect, rest: seq<Affect>)
    requires a.spell == b.spell && Expires(a) && Expires(b)
    ensures var list := [a, b] + rest; !Told(list, 0) && !Told(list, 1)
  {
    var list := [a, b] + rest;
    ToldIs(list, 0);
    ToldIs(list, 1);
    assert list[..1] == [a] && Aged([]) == [];
    assert list[1] == b && Aged([a]) == [];
  }

  // ----- recomputing, one thing after another -----------------------------

  lemma NoModifiers(s: Sheet)
    ensures OfWorn([]) == [] && OfAffects([]) == [] && WornFlags([]) == {} && SpellFlags([]) == {} && ApplyAll(s, []) == s
  {
  }

  lemma NextWorn(worn: seq<Option<Worn>>, i: nat)
    requires i < |worn|
    ensures OfWorn(worn[..i + 1]) == OfWorn(worn[..i]) + match worn[i] case None => [] case Some(w) => w.affects
    ensures WornFlags(worn[..i + 1]) == WornFlags(worn[..i]) + match worn[i] case None => {} case Some(w) => w.permAffect
  {
    assert worn[..i + 1][..i] == worn[..i];
  }

  lemma NextAffect(affects: seq<Affect>, i: nat)
    requires i < |affects|
    ensures OfAffects(affects[..i + 1]) == OfAffects(affects[..i]) + [ModifierOf(affects[i])]
    ensures SpellFlags(affects[..i + 1]) == SpellFlags(affects[..i]) + affects[i].bits
  {
    assert affects[..i + 1][..i] == affects[..i];
  }

  lemma OneMoreModifier(s: Sheet, mods: seq<Modifier>, m: Modifier)
    ensures ApplyAll(s, mods + [m]) == Apply(ApplyAll(s, mods), m)
  {
    assert (mods + [m])[..|mods|] == mods;
  }

  lemma {:induction false} ApplyAllAppend(s: Sheet, a: seq<Modifier>, b: seq<Modifier>)
    ensures ApplyAll(s, a + b) == ApplyAll(ApplyAll(s, a), b)
  {
    if b == [] {
      assert a + b == a;
    } else {
      var front := b[..|b| - 1];
      ApplyAllAppend(s, a, front);
      assert (a + b)[..|a + b| - 1] == a + front;
    }
  }

  // ----- what recomputing depends on --------------------------------------

  /** Each figure, before the clamps, is the unaffected one plus every modifier at its location. */
  lemma FiguresAre(r: Rec, location: int)
    requires Lands(location)
    ensures var s := ApplyAll(Sheet(r.rolled, r.weight, r.height), ModifiersOf(r));
      && At(s, location) == Wrap(At(Sheet(r.rolled, r.weight, r.height), location) + SumAt(ModifiersOf(r), location))
      && s.figures.percentile == r.rolled.percentile
      && Recomputed(r).current == Clamped(s.figures, r.mobile)
  {
    ApplyAllAt(Sheet(r.rolled, r.weight, r.height), ModifiersOf(r), location);
  }

  /** What an ability comes to before it is cut: the unaffected one and all its modifiers. */
  function Uncut(r: Rec, location: int): Int32
    requires Lands(location)
  {
    Wrap(At(Sheet(r.rolled, r.weight, r.height), location) + SumAt(ModifiersOf(r), location))
  }

  /** Each ability ends between 0 and 18, or 25 for a mobile, and is what it came to when that is in
      between. A player's strength above 18 adds ten a point to the percentile, up to 100; nothing else
      does. */
  lemma AbilitiesAre(r: Rec, location: int)
    requires 1 <= location <= 6
    ensures var v, top := Uncut(r, location), if r.mobile then 25 else 18;
      At(Standing(Recomputed(r)), location) == if v < 0 then 0 else if v > top then top else v
    ensures var extra := Wrap(r.rolled.percentile + (Uncut(r, 1) - 18) * 10);
      Recomputed(r).current.percentile ==
      if r.mobile || Uncut(r, 1) <= 18 then r.rolled.percentile else if extra > 100 then 100 else extra
  {
    hide ApplyAll, SumAt, ModifiersOf, Wrap, FlagsOf;
    FiguresAre(r, location);
    FiguresAre(r, 1);
    AbilityCut(ApplyAll(Sheet(r.rolled, r.weight, r.height), ModifiersOf(r)), r.mobile, location);
  }

  lemma AbilityCut(s: Sheet, mobile: bool, location: int)
    requires 1 <= location <= 6
    ensures var v, top := At(s, location), if mobile then 25 else 18;
      At(s.(figures := Clamped(s.figures, mobile)), location) == if v < 0 then 0 else if v > top then top else v
    ensures var extra := Wrap(s.figures.percentile + (At(s, 1) - 18) * 10);
      Clamped(s.figures, mobile).percentile ==
      if mobile || At(s, 1) <= 18 then s.figures.percentile else if extra > 100 then 100 else extra
  {
    hide Wrap;
  }

  /** Modifiers that add up alike change a sheet alike. */
  lemma SumsDecide(s: Sheet, a: seq<Modifier>, b: seq<Modifier>)
    requires forall l | Lands(l) :: SumAt(a, l) == SumAt(b, l)
    ensures ApplyAll(s, a) == ApplyAll(s, b)
  {
    hide ApplyAll, SumAt, At;
    forall l | Lands(l) ensures At(ApplyAll(s, a), l) == At(ApplyAll(s, b), l) {
      ApplyAllAt(s, a, l);
      ApplyAllAt(s, b, l);
    }
    ApplyAllAt(s, a, 1);
    ApplyAllAt(s, b, 1);
    SheetIs(ApplyAll(s, a), ApplyAll(s, b));
  }

  lemma {:induction false} OfAffectsAppend(a: seq<Affect>, b: seq<Affect>)
    ensures OfAffects(a + b) == OfAffects(a) + OfAffects(b)
    ensures SpellFlags(a + b) == SpellFlags(a) + SpellFlags(b)
  {
    if b == [] {
      assert a + b == a;
    } else {
      OfAffectsAppend(a, b[..|b| - 1]);
      assert (a + b)[..|a + b| - 1] == a + b[..|b| - 1];
    }
  }

  lemma {:induction false} AffectsPermuted(a: seq<Affect>, b: seq<Affect>)
    requires multiset(a) == multiset(b)
    ensures multiset(OfAffects(a)) == multiset(OfAffects(b)) && SpellFlags(a) == SpellFlags(b)
  {
    hide OfAffects, SpellFlags;
    if a == [] {
      assert |b| == |multiset(b)| == 0;
    } else {
      var i := TakenOut(a, b);
      AffectsPermuted(a[..|a| - 1], b[..i] + b[i + 1..]);
      LastOut(a);
      OneOut(b[..i], b[i], b[i + 1..]);
    }
  }

  lemma LastOut(a: seq<Affect>)
    requires a != []
    ensures var front, x := a[..|a| - 1], a[|a| - 1];
      && multiset(OfAffects(a)) == multiset(OfAffects(front)) + multiset{ModifierOf(x)}
      && SpellFlags(a) == SpellFlags(front) + x.bits
  {
  }

  lemma OneOut(a: seq<Affect>, x: Affect, b: seq<Affect>)
    ensures multiset(OfAffects(a + [x] + b)) == multiset(OfAffects(a + b)) + multiset{ModifierOf(x)}
    ensures SpellFlags(a + [x] + b) == SpellFlags(a + b) + x.bits
  {
    OfOne(x, 0);
    hide OfAffects, SpellFlags, ModifierOf;
    OfAffectsAppend(a, [x]);
    OfAffectsAppend(a + [x], b);
    OfAffectsAppend(a, b);
    MiddleOut(OfAffects(a), ModifierOf(x), OfAffects(b));
  }

  lemma MiddleOut<T>(a: seq<T>, x: T, b: seq<T>)
    ensures multiset(a + [x] + b) == multiset(a + b) + multiset{x}
  {
  }

  /** The order of the affects does not matter. */
  lemma OrderDoesNotMatter(r: Rec, affects: seq<Affect>)
    requires multiset(affects) == multiset(r.affects)
    ensures Recomputed(r.(affects := affects)) == Recomputed(r).(affects := affects)
  {
    AffectsPermuted(affects, r.affects);
    var q := r.(affects := affects);
    var w := if r.worn.Some? then OfWorn(r.worn.value) else [];
    forall l | Lands(l) ensures SumAt(ModifiersOf(q), l) == SumAt(ModifiersOf(r), l) {
      SumAtAppend(w, OfAffects(affects), l);
      SumAtAppend(w, OfAffects(r.affects), l);
      SumAtPermuted(OfAffects(affects), OfAffects(r.affects), l);
    }
    SumsDecide(Sheet(r.rolled, r.weight, r.height), ModifiersOf(q), ModifiersOf(r));
  }

  // ----- recomputing again ------------------------------------------------

  /** Nothing but weight and height depends on what they were. */
  lemma BodyApart(f: Figures, w: Int32, h: Int32, v: Int32, g: Int32, mods: seq<Modifier>)
    ensures ApplyAll(Sheet(f, w, h), mods).figures == ApplyAll(Sheet(f, v, g), mods).figures
  {
    hide ApplyAll, At;
    var s, t := ApplyAll(Sheet(f, w, h), mods), ApplyAll(Sheet(f, v, g), mods);
    var u := t.(weight := s.weight, height := s.height);
    forall l | Lands(l) ensures At(s, l) == At(u, l) {
      ApplyAllAt(Sheet(f, w, h), mods, l);
      ApplyAllAt(Sheet(f, v, g), mods, l);
      AtBody(Sheet(f, w, h), v, g, l);
      AtBody(t, s.weight, s.height, l);
      AtBodyItself(s, u);
    }
    ApplyAllAt(Sheet(f, w, h), mods, 1);
    ApplyAllAt(Sheet(f, v, g), mods, 1);
    SheetIs(s, u);
  }

  lemma AtBody(s: Sheet, v: Int32, g: Int32, l: int)
    requires Lands(l)
    ensures l != 10 && l != 11 ==> At(s.(weight := v, height := g), l) == At(s, l)
  {
  }

  lemma AtBodyItself(s: Sheet, t: Sheet)
    requires s.weight == t.weight && s.height == t.height
    ensures At(s, 10) == At(t, 10) && At(s, 11) == At(t, 11)
  {
  }

  lemma BodyMoves(r: Rec)
    ensures Recomputed(r).weight == Wrap(r.weight + SumAt(ModifiersOf(r), 10))
    ensures Recomputed(r).height == Wrap(r.height + SumAt(ModifiersOf(r), 11))
  {
    FiguresAre(r, 10);
    FiguresAre(r, 11);
  }

  /** Recomputing twice gives the figures of recomputing once; weight and height move again. */
  lemma RecomputeTwice(r: Rec)
    ensures var once := Recomputed(r);
      Recomputed(once) == once.(weight := Wrap(once.weight + SumAt(ModifiersOf(r), 10)),
                                height := Wrap(once.height + SumAt(ModifiersOf(r), 11)))
  {
    var once := Recomputed(r);
    assert ModifiersOf(once) == ModifiersOf(r);
    BodyApart(r.rolled, r.weight, r.height, once.weight, once.height, ModifiersOf(r));
    BodyMoves(once);
  }

  lemma WrapStays(a: Int32, d: int)
    ensures Wrap(a + d) == a <==> d % 0x1_0000_0000 == 0
  {
  }

  /** So it is idempotent exactly when what is worn and what is on them leave weight and height alone. */
  lemma Idempotent(r: Rec)
    ensures Recomputed(Recomputed(r)) == Recomputed(r) <==>
            SumAt(ModifiersOf(r), 10) % 0x1_0000_0000 == 0 && SumAt(ModifiersOf(r), 11) % 0x1_0000_0000 == 0
  {
    RecomputeTwice(r);
    WrapStays(Recomputed(r).weight, SumAt(ModifiersOf(r), 10));
    WrapStays(Recomputed(r).height, SumAt(ModifiersOf(r), 11));
  }

  // ----- putting on and taking off ----------------------------------------

  lemma {:induction false} LackingAbsent(affects: seq<Affect>, spell: Spell)
    requires forall a | a in affects :: a.spell != spell
    ensures Lacking(affects, spell) == affects
  {
    if affects != [] {
      LackingAbsent(affects[..|affects| - 1], spell);
    }
  }

  /** An affect of a spell that was not there, put on and taken off again, leaves the record as
      recomputing it would have, but for weight and height. */
  lemma AddThenRemove(r: Rec, a: Affect)
    requires forall b | b in r.affects :: b.spell != a.spell
    ensures var on := Recomputed(r.(affects := r.affects + [a]));
      var off := Recomputed(on.(affects := Lacking(on.affects, a.spell)));
      off == Recomputed(r).(weight := off.weight, height := off.height)
  {
    var q := r.(affects := r.affects + [a]);
    var on := Recomputed(q);
    assert on.affects[..|on.affects| - 1] == r.affects;
    LackingAbsent(r.affects, a.spell);
    BodyApart(r.rolled, r.weight, r.height, on.weight, on.height, ModifiersOf(r));
  }

  // ----- saving and loading -----------------------------------------------

  /** What a saved record becomes when it is loaded and first recomputed. */
  function Reloaded(r: Rec): Rec {
    Recomputed(Snapshot(BaseRecord(r)))
  }

  /** Loading what was saved gives the figures and flags there were, exactly when the unaffected
      armour class, hitroll and damroll are the ones every load starts from. */
  lemma ReloadedSame(r: Rec)
    ensures var back := Reloaded(r);
      back.rolled == r.rolled <==> r.rolled.armor == BASE_ARMOR && r.rolled.hitRoll == 0 && r.rolled.damRoll == 0
    ensures var back := Reloaded(r);
      back.affectFlags == Recomputed(r).affectFlags && back.affects == r.affects && back.baseAffectFlags == r.baseAffectFlags
    ensures Reloaded(r).current == Recomputed(r).current <==>
            r.rolled.armor == BASE_ARMOR && r.rolled.hitRoll == 0 && r.rolled.damRoll == 0
  {
    hide ApplyAll, SumAt, OfWorn, OfAffects, WornFlags, SpellFlags, Clamped;
    var b := Snapshot(BaseRecord(r));
    var mods := ModifiersOf(r);
    assert ModifiersOf(b) == mods;
    FiguresAre(b, 17);
    FiguresAre(b, 18);
    FiguresAre(b, 19);
    FiguresAre(r, 17);
    FiguresAre(r, 18);
    FiguresAre(r, 19);
    WrapInjective(BASE_ARMOR, r.rolled.armor, SumAt(mods, 17));
    WrapInjective(0, r.rolled.hitRoll, SumAt(mods, 18));
    WrapInjective(0, r.rolled.damRoll, SumAt(mods, 19));
    ClampKeeps(ApplyAll(Sheet(b.rolled, b.weight, b.height), mods).figures, b.mobile);
    ClampKeeps(ApplyAll(Sheet(r.rolled, r.weight, r.height), mods).figures, r.mobile);
  }

  lemma ClampKeeps(f: Figures, mobile: bool)
    ensures var c := Clamped(f, mobile); c.armor == f.armor && c.hitRoll == f.hitRoll && c.damRoll == f.damRoll
  {
  }

  lemma WrapInjective(a: Int32, b: Int32, d: int)
    ensures Wrap(a + d) == Wrap(b + d) <==> a == b
  {
  }

  /** After the first load, saving and loading changes no figure any more. */
  lemma ReloadedSettles(r: Rec)
    ensures Reloaded(Reloaded(r)).current == Reloaded(r).current
    ensures Reloaded(Reloaded(r)).affectFlags == Reloaded(r).affectFlags
  {
    var b := Reloaded(r);
    ReloadedSame(b);
    RecomputeTwice(Snapshot(BaseRecord(r)));
  }

  /** The figures a record stands at, with its weight and height. */
  function Standing(r: Rec): Sheet {
    Sheet(r.current, r.weight, r.height)
  }

  /** Every location but the abilities, which the clamps cut. */
  predicate Unclamped(location: int) {
    10 <= location <= 14 || 17 <= location <= 24
  }

  lemma UnclampedAt(r: Rec, location: int)
    requires Unclamped(location)
    ensures At(Standing(Recomputed(r)), location) ==
            Wrap(At(Sheet(r.rolled, r.weight, r.height), location) + SumAt(ModifiersOf(r), location))
  {
    hide ApplyAll, SumAt, ModifiersOf;
    FiguresAre(r, location);
  }

  /** A snapshot taken after recomputing folds the affects in, and the next recomputing adds them
      again: every figure that is not clamped moves by twice its modifiers. */
  lemma SnapshotDoubles(r: Rec, location: int)
    requires Unclamped(location)
    ensures At(Standing(Recomputed(Snapshot(Recomputed(r)))), location) ==
            Wrap(At(Sheet(r.rolled, r.weight, r.height), location) + 2 * SumAt(ModifiersOf(r), location))
  {
    var once := Recomputed(r);
    var b := Snapshot(once);
    assert ModifiersOf(b) == ModifiersOf(r);
    hide At, Recomputed;
    UnclampedAt(r, location);
    UnclampedAt(b, location);
    WrapOnce(At(Sheet(r.rolled, r.weight, r.height), location) + SumAt(ModifiersOf(r), location), SumAt(ModifiersOf(r), location));
  }

  // ----- joining ----------------------------------------------------------

  /** No two affects have one spell and location. */
  predicate OneEach(affects: seq<Affect>) {
    forall i, j | 0 <= i < j < |affects| ::
      !(affects[i].spell == affects[j].spell && affects[i].location == affects[j].location)
  }

  /** Joining never makes a second affect of a spell at a location. */
  lemma JoinKeepsOneEach(affects: seq<Affect>, a: Affect, accumDuration: bool, accumModifier: bool)
    requires OneEach(affects)
    ensures OneEach(Joined(affects, a, accumDuration, accumModifier))
    ensures |Joined(affects, a, accumDuration, accumModifier)| ==
            if FirstLike(affects, a) < |affects| then |affects| else |affects| + 1
  {
    hide Wrap;
    var i, r := FirstLike(affects, a), Joined(affects, a, accumDuration, accumModifier);
    if i < |affects| {
      assert forall j | 0 <= j < |r| - 1 :: r[j] == if j < i then affects[j] else affects[j + 1];
      assert r[|r| - 1].spell == affects[i].spell && r[|r| - 1].location == affects[i].location;
    }
  }

  /** A join that accumulates adds its modifier at its location and nothing anywhere else, whether
      it merged or not. */
  lemma JoinAdds(affects: seq<Affect>, a: Affect, accumDuration: bool, location: int)
    ensures var t := Joined(affects, a, accumDuration, true);
      Wrap(SumAt(OfAffects(t), location)) ==
      Wrap(SumAt(OfAffects(affects), location) + if a.location == location then a.modifier else 0)
  {
    hide OfAffects, SumAt, FirstLike, Wrap;
    var i := FirstLike(affects, a);
    OfOne(a, location);
    if i == |affects| {
      OfAffectsAppend(affects, [a]);
      SumAtAppend(OfAffects(affects), OfAffects([a]), location);
    } else {
      var m := Merged(affects[i], a, accumDuration, true);
      var p, q := affects[..i], affects[i + 1..];
      assert affects == p + [affects[i]] + q && p + q + [m] + [] == p + q + [m];
      SumOneOut(p, affects[i], q, location);
      SumOneOut(p + q, m, [], location);
      assert p + q + [] == p + q;
      WrapOnce(a.modifier + affects[i].modifier, SumAt(OfAffects(p + q), location));
    }
  }

  lemma SumOneOut(p: seq<Affect>, x: Affect, q: seq<Affect>, location: int)
    ensures SumAt(OfAffects(p + [x] + q), location) ==
            SumAt(OfAffects(p + q), location) + if x.location == location then x.modifier else 0
  {
    OneOut(p, x, q);
    OfOne(x, location);
    OfAffectsAppend(p + q, [x]);
    SumAtPermuted(OfAffects(p + [x] + q), OfAffects(p + q + [x]), location);
    SumAtAppend(OfAffects(p + q), OfAffects([x]), location);
  }

  lemma OfOne(a: Affect, location: int)
    ensures OfAffects([a]) == [ModifierOf(a)] && SpellFlags([a]) == a.bits
    ensures SumAt(OfAffects([a]), location) == if a.location == location then a.modifier else 0
  {
    assert OfAffects([a]) == [ModifierOf(a)] by { assert [a][..0] == []; }
    assert [ModifierOf(a)][..0] == [];
  }

  // ----- ageing -----------------------------------------------------------

  function AgedTimes(affects: seq<Affect>, n: nat): seq<Affect> {
    if n == 0 then affects else Aged(AgedTimes(affects, n - 1))
  }

  /** What is left of the affects n ticks on: the permanent ones, and those whose time was n or more. */
  function Left(affects: seq<Affect>, n: nat): seq<Affect> {
    if affects == [] then [] else Left(affects[..|affects| - 1], n) + LeftOne(affects[|affects| - 1], n)
  }

  function LeftOne(a: Affect, n: nat): seq<Affect> {
    if a.duration == PERMANENT then [a] else if n == 0 || a.duration >= n then [a.(duration := a.duration - n)] else []
  }

  lemma LeftOneAged(a: Affect, n: nat)
    ensures LeftOne(a, n) == [] ==> LeftOne(a, n + 1) == []
    ensures LeftOne(a, n) != [] ==> |LeftOne(a, n)| == 1 && AgedOne(LeftOne(a, n)[0]) == LeftOne(a, n + 1)
  {
  }

  lemma AgedLast(front: seq<Affect>, x: Affect)
    ensures Aged(front + [x]) == Aged(front) + AgedOne(x)
  {
    assert (front + [x])[..|front|] == front;
  }

  lemma {:induction false} AgedLeft(affects: seq<Affect>, n: nat)
    ensures Aged(Left(affects, n)) == Left(affects, n + 1)
  {
    hide Aged, AgedOne, LeftOne;
    if affects == [] {
      NothingAged();
    } else {
      var front, a := affects[..|affects| - 1], affects[|affects| - 1];
      AgedLeft(front, n);
      LeftOneAged(a, n);
      if LeftOne(a, n) == [] {
        assert Left(front, n) + [] == Left(front, n) && Left(front, n + 1) + [] == Left(front, n + 1);
      } else {
        AgedLast(Left(front, n), LeftOne(a, n)[0]);
        assert LeftOne(a, n) == [LeftOne(a, n)[0]];
      }
    }
  }

  lemma {:induction false} LeftAll(affects: seq<Affect>)
    ensures Left(affects, 0) == affects
  {
    if affects != [] {
      LeftAll(affects[..|affects| - 1]);
    }
  }

  /** An affect of duration d is there for d ageings and gone at the next, at the first when d is
      negative; a permanent one stays. */
  lemma {:induction false} AgedTimesLeft(affects: seq<Affect>, n: nat)
    ensures AgedTimes(affects, n) == Left(affects, n)
  {
    hide Aged, Left;
    if n == 0 {
      LeftAll(affects);
    } else {
      AgedTimesLeft(affects, n - 1);
      AgedLeft(affects, n - 1);
    }
  }

  // ----- what counts ------------------------------------------------------

  lemma {:induction false} WornFlagsAre(worn: seq<Option<Worn>>, f: nat)
    ensures f in WornFlags(worn) <==> exists i | 0 <= i < |worn| && worn[i].Some? :: f in worn[i].value.permAffect
  {
    if worn != [] {
      var front, last := worn[..|worn| - 1], worn[|worn| - 1];
      WornFlagsAre(front, f);
      assert forall i | 0 <= i < |front| :: worn[i] == front[i];
    }
  }

  lemma {:induction false} SpellFlagsAre(affects: seq<Affect>, f: nat)
    ensures f in SpellFlags(affects) <==> exists a | a in affects :: f in a.bits
  {
    if affects != [] {
      var front, last := affects[..|affects| - 1], affects[|affects| - 1];
      SpellFlagsAre(front, f);
      assert affects == front + [last];
    }
  }

  /** A flag is up exactly when it is the character's own, or something worn or some spell raises it. */
  lemma FlagsAre(r: Rec, f: nat)
    ensures f in Recomputed(r).affectFlags <==>
            || f in r.baseAffectFlags
            || (r.worn.Some? && exists i | 0 <= i < |r.worn.value| && r.worn.value[i].Some? :: f in r.worn.value[i].value.permAffect)
            || exists a | a in r.affects :: f in a.bits
  {
    if r.worn.Some? { WornFlagsAre(r.worn.value, f); }
    SpellFlagsAre(r.affects, f);
    hide WornFlags, SpellFlags, ApplyAll, ModifiersOf, Clamped;
  }

  lemma {:induction false} OfWornAdds(worn: seq<Option<Worn>>, i: nat, w: Worn, location: int)
    requires i < |worn| && worn[i] == None
    ensures SumAt(OfWorn(worn[i := Some(w)]), location) == SumAt(OfWorn(worn), location) + SumAt(w.affects, location)
  {
    var front, k := worn[..|worn| - 1], |worn| - 1;
    var more := worn[i := Some(w)];
    if i == k {
      assert more[..k] == front && OfWorn(front) + [] == OfWorn(front);
      SumAtAppend(OfWorn(front), w.affects, location);
    } else {
      assert more[..k] == front[i := Some(w)] && more[k] == worn[k];
      OfWornAdds(front, i, w, location);
      var last := match worn[k] case None => [] case Some(v) => v.affects;
      SumAtAppend(OfWorn(front), last, location);
      SumAtAppend(OfWorn(front[i := Some(w)]), last, location);
    }
  }

  /** With nothing on, nothing is added; a thing put on adds its modifiers to every figure, and a spell
      its own. */
  lemma WhatCounts(r: Rec, location: int)
    ensures r.worn == None && r.affects == [] ==> SumAt(ModifiersOf(r), location) == 0
    ensures forall i: nat, w | r.worn.Some? && i < |r.worn.value| && r.worn.value[i] == None ::
              SumAt(ModifiersOf(r.(worn := Some(r.worn.value[i := Some(w)]))), location) ==
              SumAt(ModifiersOf(r), location) + SumAt(w.affects, location)
    ensures forall a: Affect ::
              SumAt(ModifiersOf(r.(affects := r.affects + [a])), location) ==
              SumAt(ModifiersOf(r), location) + if a.location == location then a.modifier else 0
  {
    hide SumAt, OfWorn;
    var worn := if r.worn.Some? then OfWorn(r.worn.value) else [];
    NothingAdds(location);
    SumAtAppend(worn, OfAffects(r.affects), location);
    forall i: nat, w | r.worn.Some? && i < |r.worn.value| && r.worn.value[i] == None
      ensures SumAt(ModifiersOf(r.(worn := Some(r.worn.value[i := Some(w)]))), location) ==
              SumAt(ModifiersOf(r), location) + SumAt(w.affects, location)
    {
      OfWornAdds(r.worn.value, i, w, location);
      SumAtAppend(OfWorn(r.worn.value[i := Some(w)]), OfAffects(r.affects), location);
    }
    forall a: Affect
      ensures SumAt(ModifiersOf(r.(affects := r.affects + [a])), location) ==
              SumAt(ModifiersOf(r), location) + if a.location == location then a.modifier else 0
    {
      OneAdds(a, location);
      assert (r.affects + [a])[..|r.affects|] == r.affects;
      SumAtAppend(worn, OfAffects(r.affects + [a]), location);
      SumAtAppend(OfAffects(r.affects), [ModifierOf(a)], location);
    }
  }

  lemma NothingAdds(location: int)
    ensures SumAt([], location) == 0
  {
  }

  lemma OneAdds(a: Affect, location: int)
    ensures SumAt([ModifierOf(a)], location) == if a.location == location then a.modifier else 0
  {
    assert [ModifierOf(a)][..0] == [];
  }

  /** Joining something like the i-th, the first of its kind: that one goes, the others stay in order,
      and last comes the new one with the times, or the modifiers, of both when they accumulate. */
  lemma JoinedIs(affects: seq<Affect>, a: Affect, i: nat, accumDuration: bool, accumModifier: bool)
    requires i < |affects| && affects[i].spell == a.spell && affects[i].location == a.location
    requires forall j | 0 <= j < i :: !(affects[j].spell == a.spell && affects[j].location == a.location)
    ensures var r, b := Joined(affects, a, accumDuration, accumModifier), affects[i];
      && |r| == |affects| && r[..|r| - 1] == affects[..i] + affects[i + 1..]
      && var last := r[|r| - 1];
         && last.spell == a.spell && last.location == a.location && last.bits == a.bits
         && last.duration == (if accumDuration then Wrap(a.duration + b.duration) else a.duration)
         && last.modifier == (if accumModifier then Wrap(a.modifier + b.modifier) else a.modifier)
  {
    hide Wrap;
    assert FirstLike(affects, a) == i;
  }
}
