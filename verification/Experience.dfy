/** Experience and levels: what a kill or a death does to them, and what no sequence of either
    can do. Arithmetic is that of 32-bit integers. */
module Experience {
  import opened Int32s
  import opened Affects

  datatype Class = MagicUser | Cleric | Thief | Warrior | Paladin | Undefined

  const LEVEL_IMMORTAL := 31
  const LEVEL_IMPLEMENTOR := 34
  const EXP_MAX: Int32 := 10000000
  const MAX_GAIN_PER_KILL: Int32 := 100000
  const MAX_LOSS_PER_DEATH: Int32 := 500000

  const MAGIC_USER: seq<Int32> := [
    0, 1, 2500, 5000, 10000, 20000, 40000, 60000,
    90000, 135000, 250000, 375000, 750000, 1125000, 1500000, 1875000,
    2250000, 2625000, 3000000, 3375000, 3750000, 4000000, 4300000, 4600000,
    4900000, 5200000, 5500000, 5950000, 6400000, 6850000, 7400000, 8000000]

  const CLERIC: seq<Int32> := [
    0, 1, 1500, 3000, 6000, 13000, 27500, 55000,
    110000, 225000, 450000, 675000, 900000, 1125000, 1350000, 1575000,
    1800000, 2100000, 2400000, 2700000, 3000000, 3250000, 3500000, 3800000,
    4100000, 4400000, 4800000, 5200000, 5600000, 6000000, 6400000, 7000000]

  const THIEF: seq<Int32> := [
    0, 1, 1250, 2500, 5000, 10000, 20000, 30000,
    70000, 110000, 160000, 220000, 440000, 660000, 880000, 1100000,
    1500000, 2000000, 2500000, 3000000, 3500000, 3650000, 3800000, 4100000,
    4400000, 4700000, 5100000, 5500000, 5900000, 6300000, 6650000, 7000000]

  const WARRIOR: seq<Int32> := [
    0, 1, 2000, 4000, 8000, 16000, 32000, 64000,
    125000, 250000, 500000, 750000, 1000000, 1250000, 1500000, 1850000,
    2200000, 2550000, 2900000, 3250000, 3600000, 3900000, 4200000, 4500000,
    4800000, 5150000, 5500000, 5950000, 6400000, 6850000, 7400000, 8000000]

  const PALADIN: seq<Int32> := [
    0, 1, 2250, 4500, 9000, 18000, 36000, 75000,
    150000, 300000, 600000, 900000, 1200000, 1500000, 1800000, 2100000,
    2400000, 2700000, 3000000, 3300000, 3600000, 4000000, 4300000, 4700000,
    5200000, 5500000, 6000000, 6700000, 7200000, 8000000, 9000000, 9500000]

  function TableOf(class_: Class): (t: seq<Int32>)
    requires class_ != Undefined
    ensures |t| == 32
  {
    match class_
    case MagicUser => MAGIC_USER
    case Cleric => CLERIC
    case Thief => THIEF
    case Warrior => WARRIOR
    case Paladin => PALADIN
  }

  /** LevelExperience: a class without a table asks for more than anybody can have. */
  function LevelExperience(class_: Class, level: int): Int32 {
    if level < 0 || level > LEVEL_IMPLEMENTOR then EXP_MAX
    else if level > LEVEL_IMMORTAL then EXP_MAX - (LEVEL_IMPLEMENTOR - level) * 1000
    else if class_ == Undefined then EXP_MAX
    else TableOf(class_)[level]
  }

  /** Where a character stands. */
  datatype Standing = Standing(level: Int32, exp: Int32)

  /** On their way: a level that is not yet the last, and not the experience for the next. */
  predicate Mortal(class_: Class, s: Standing) {
    1 <= s.level < LEVEL_IMMORTAL && 0 <= s.exp < LevelExperience(class_, s.level + 1)
  }

  function TenthOfBand(class_: Class, level: int): int {
    (LevelExperience(class_, level + 1) - LevelExperience(class_, level)) / 10
  }

  /** What a gain comes to after both caps. */
  function Capped(class_: Class, level: int, gain: int): int {
    Min(Min(MAX_GAIN_PER_KILL, gain), TenthOfBand(class_, level))
  }

  // ----- the tables -------------------------------------------------------

  /** Every level asks for more than the last, and the dearest for less than the immortals' do. */
  ghost predicate Rises(t: seq<Int32>)
    requires |t| == 32
  {
    t[0] == 0 && t[1] == 1 && t[31] < EXP_MAX - 2000 && forall l | 0 <= l < 31 :: t[l] < t[l + 1]
  }

  /** A tenth of a band never spans the next. */
  ghost predicate Spans(t: seq<Int32>)
    requires |t| == 32
  {
    forall l | 1 <= l < 30 :: (t[l + 1] as int - t[l] as int) / 10 <= t[l + 2] as int - t[l + 1] as int
  }

  lemma MagicUserRises()
    ensures Rises(MAGIC_USER)
  {
  }

  lemma MagicUserSpans()
    ensures Spans(MAGIC_USER)
  {
  }

  lemma ClericRises()
    ensures Rises(CLERIC)
  {
  }

  lemma ClericSpans()
    ensures Spans(CLERIC)
  {
  }

  lemma ThiefRises()
    ensures Rises(THIEF)
  {
  }

  lemma ThiefSpans()
    ensures Spans(THIEF)
  {
  }

  lemma WarriorRises()
    ensures Rises(WARRIOR)
  {
  }

  lemma WarriorSpans()
    ensures Spans(WARRIOR)
  {
  }

  lemma PaladinRises()
    ensures Rises(PALADIN)
  {
  }

  lemma PaladinSpans()
    ensures Spans(PALADIN)
  {
  }

  lemma TablesFit(class_: Class)
    requires class_ != Undefined
    ensures Rises(TableOf(class_)) && Spans(TableOf(class_))
  {
    MagicUserRises();
    MagicUserSpans();
    ClericRises();
    ClericSpans();
    ThiefRises();
    ThiefSpans();
    WarriorRises();
    WarriorSpans();
    PaladinRises();
    PaladinSpans();
    hide Rises, Spans, MAGIC_USER, CLERIC, THIEF, WARRIOR, PALADIN;
  }

  lemma InTable(class_: Class, level: int)
    requires 0 <= level <= LEVEL_IMMORTAL
    ensures LevelExperience(class_, level) == if class_ == Undefined then EXP_MAX else TableOf(class_)[level]
  {
    hide TableOf;
  }

  /** From just below one level, a capped gain does not reach the level after next. */
  lemma OneBandOn(class_: Class, level: int)
    requires 1 <= level < LEVEL_IMMORTAL - 1
    ensures 0 <= TenthOfBand(class_, level)
    ensures LevelExperience(class_, level + 1) - 1 + TenthOfBand(class_, level) < LevelExperience(class_, level + 2)
    ensures LevelExperience(class_, level + 1) <= EXP_MAX
  {
    InTable(class_, level);
    InTable(class_, level + 1);
    InTable(class_, level + 2);
    hide LevelExperience, TableOf, MAGIC_USER, CLERIC, THIEF, WARRIOR, PALADIN;
    if class_ != Undefined {
      TablesFit(class_);
      BandFits(TableOf(class_), level);
    }
  }

  lemma BandFits(t: seq<Int32>, l: int)
    requires |t| == 32 && Rises(t) && Spans(t) && 1 <= l < 30
    ensures 0 <= (t[l + 1] as int - t[l] as int) / 10 <= t[l + 2] as int - t[l + 1] as int
    ensures t[l + 1] <= EXP_MAX
  {
    assert t[l] < t[l + 1];
    Below(t, l + 1, 31);
  }

  lemma {:induction false} Below(t: seq<Int32>, i: int, j: int)
    requires |t| == 32 && Rises(t) && 0 <= i <= j <= 31
    ensures t[i] <= t[j]
    decreases j - i
  {
    if i < j {
      Below(t, i + 1, j);
      assert t[i] < t[i + 1];
    }
  }

  // ----- gaining and losing -----------------------------------------------

  /** As far up as the experience reaches. */
  function Climb(class_: Class, level: Int32, exp: Int32, top: int): (r: Int32)
    requires top <= LEVEL_IMPLEMENTOR
    decreases top - level
  {
    if level < top && exp >= LevelExperience(class_, level + 1) then Climb(class_, level + 1, exp, top) else level
  }

  /** The climb stops at the top, or at the first level whose successor is out of reach. */
  lemma {:induction false} ClimbIs(class_: Class, level: Int32, exp: Int32, top: int)
    requires top <= LEVEL_IMPLEMENTOR
    ensures var r := Climb(class_, level, exp, top);
      && level <= r && (r > level ==> r <= top)
      && (forall l | level < l <= r :: LevelExperience(class_, l) <= exp)
      && (r >= top || exp < LevelExperience(class_, r + 1))
    decreases top - level
  {
    hide LevelExperience;
    if level < top && exp >= LevelExperience(class_, level + 1) {
      ClimbIs(class_, level + 1, exp, top);
    }
  }

  /** How much experience makes a second level, and the first immortal one, in each class. */
  lemma RisesAt(exp: Int32)
    ensures Climb(MagicUser, 1, exp, LEVEL_IMPLEMENTOR) >= 2 <==> exp >= 2500
    ensures Climb(Cleric, 1, exp, LEVEL_IMPLEMENTOR) >= 2 <==> exp >= 1500
    ensures Climb(Thief, 1, exp, LEVEL_IMPLEMENTOR) >= 2 <==> exp >= 1250
    ensures Climb(Warrior, 1, exp, LEVEL_IMPLEMENTOR) >= 2 <==> exp >= 2000
    ensures Climb(Paladin, 1, exp, LEVEL_IMPLEMENTOR) >= 2 <==> exp >= 2250
    ensures Climb(Undefined, 1, exp, LEVEL_IMPLEMENTOR) >= 2 <==> exp >= 10000000
    ensures Climb(MagicUser, 30, exp, LEVEL_IMPLEMENTOR) >= 31 <==> exp >= 8000000
    ensures Climb(Cleric, 30, exp, LEVEL_IMPLEMENTOR) >= 31 <==> exp >= 7000000
    ensures Climb(Thief, 30, exp, LEVEL_IMPLEMENTOR) >= 31 <==> exp >= 7000000
    ensures Climb(Warrior, 30, exp, LEVEL_IMPLEMENTOR) >= 31 <==> exp >= 8000000
    ensures Climb(Paladin, 30, exp, LEVEL_IMPLEMENTOR) >= 31 <==> exp >= 9500000
  {
    hide Climb;
    RisesOne(MagicUser, 1, exp);
    RisesOne(Cleric, 1, exp);
    RisesOne(Thief, 1, exp);
    RisesOne(Warrior, 1, exp);
    RisesOne(Paladin, 1, exp);
    RisesOne(Undefined, 1, exp);
    RisesOne(MagicUser, 30, exp);
    RisesOne(Cleric, 30, exp);
    RisesOne(Thief, 30, exp);
    RisesOne(Warrior, 30, exp);
    RisesOne(Paladin, 30, exp);
  }

  /** How much one kill can give at most: a tenth of the band, or 100000. */
  lemma GainsAre(gain: Int32)
    requires gain >= 1000000
    ensures Capped(MagicUser, 1, gain) == 249 && Capped(Cleric, 1, gain) == 149 && Capped(Thief, 1, gain) == 124
    ensures Capped(Warrior, 1, gain) == 199 && Capped(Paladin, 1, gain) == 224
    ensures Capped(Paladin, 28, gain) == 80000 && Capped(Undefined, 1, gain) == 0
  {
  }

  /** Above that, every class alike. */
  lemma RisesOn(class_: Class, exp: Int32)
    ensures Climb(class_, 31, exp, LEVEL_IMPLEMENTOR) >= 32 <==> exp >= 9998000
    ensures Climb(class_, 32, exp, LEVEL_IMPLEMENTOR) >= 33 <==> exp >= 9999000
    ensures Climb(class_, 33, exp, LEVEL_IMPLEMENTOR) >= 34 <==> exp >= 10000000
  {
    hide Climb;
    RisesOne(class_, 31, exp);
    RisesOne(class_, 32, exp);
    RisesOne(class_, 33, exp);
  }

  lemma RisesOne(class_: Class, level: Int32, exp: Int32)
    requires level < LEVEL_IMPLEMENTOR
    ensures Climb(class_, level, exp, LEVEL_IMPLEMENTOR) >= level + 1 <==> exp >= LevelExperience(class_, level + 1)
  {
    ClimbIs(class_, level, exp, LEVEL_IMPLEMENTOR);
    hide LevelExperience;
  }

  function Changed(class_: Class, s: Standing, gain: Int32): Standing {
    if s.level < 1 || s.level >= LEVEL_IMMORTAL - 1 then s
    else if gain > 0 then
      var exp := Wrap(s.exp + Capped(class_, s.level, gain));
      Standing(Climb(class_, s.level, exp, LEVEL_IMMORTAL), exp)
    else if gain < 0 then s.(exp := Max(0, Wrap(s.exp + Max(-MAX_LOSS_PER_DEATH, gain))))
    else s
  }

  datatype ExpGain = ExpGain(applied: int, capped: bool, levels: int)

  class Character {
    const class_: Class
    const mobile: bool
    var level: Int32
    var exp: Int32

    /** Start: one level, one point. */
    constructor (class_: Class, mobile: bool)
      ensures Stands() == Standing(1, 1) && this.class_ == class_ && this.mobile == mobile
      ensures Mortal(class_, Stands())
    {
      this.class_, this.mobile := class_, mobile;
      level, exp := 1, 1;
      new;
      StartIsMortal(class_);
    }

    function Stands(): Standing
      reads this
    {
      Standing(level, exp)
    }

    method GainExperience(gain: Int32) returns (out: ExpGain)
      modifies this
      ensures Stands() == Changed(class_, old(Stands()), gain)
      ensures out.levels == level - old(level)
      ensures out.applied == if !(1 <= old(level) < LEVEL_IMMORTAL - 1) || gain == 0 then 0
                             else if gain < 0 then Max(-MAX_LOSS_PER_DEATH, gain)
                             else Min(Min(MAX_GAIN_PER_KILL, gain), TenthOfBand(class_, old(level)))
      ensures out.capped <==> gain > 0 && 1 <= old(level) < LEVEL_IMMORTAL - 1
                              && Min(MAX_GAIN_PER_KILL, gain) > TenthOfBand(class_, old(level))
    {
      hide LevelExperience;
      out := ExpGain(0, false, 0);
      if level < 1 || level >= LEVEL_IMMORTAL - 1 {
        return;
      }
      if gain > 0 {
        var amount := Min(MAX_GAIN_PER_KILL, gain);
        var limit := TenthOfBand(class_, level);
        if amount > limit {
          amount := limit;
          out := out.(capped := true);
        }
        exp := Wrap(exp + amount);
        out := out.(applied := amount);
        ghost var from, capped := level, out.capped;
        while level < LEVEL_IMMORTAL && exp >= LevelExperience(class_, level + 1)
          invariant Climb(class_, from, exp, LEVEL_IMMORTAL) == Climb(class_, level, exp, LEVEL_IMMORTAL)
          invariant out.levels == level - from && out.capped == capped && out.applied == amount && 1 <= level <= LEVEL_IMMORTAL
          invariant exp == Wrap(old(exp) + amount)
        {
          level := level + 1;
          out := out.(levels := out.levels + 1);
        }
      } else if gain < 0 {
        var amount := Max(-MAX_LOSS_PER_DEATH, gain);
        exp := Wrap(exp + amount);
        if exp < 0 {
          exp := 0;
        }
        out := out.(applied := amount);
      }
    }

    /** GainExperienceRegardless: no caps, and all the way up; a mobile has no levels to gain. */
    method GainExperienceRegardless(gain: Int32) returns (levels: int)
      modifies this
      ensures exp == Max(0, Wrap(old(exp) + gain)) && levels == level - old(level)
      ensures level == if mobile then old(level) else Climb(class_, old(level), exp, LEVEL_IMPLEMENTOR)
    {
      hide LevelExperience;
      exp := Wrap(exp + gain);
      if exp < 0 {
        exp := 0;
      }
      levels := 0;
      if mobile {
        return;
      }
      ghost var from := level;
      while level < LEVEL_IMPLEMENTOR && exp >= LevelExperience(class_, level + 1)
        invariant Climb(class_, from, exp, LEVEL_IMPLEMENTOR) == Climb(class_, level, exp, LEVEL_IMPLEMENTOR)
        invariant levels == level - from && exp == Max(0, Wrap(old(exp) + gain))
        decreases LEVEL_IMPLEMENTOR - level
      {
        level := level + 1;
        levels := levels + 1;
      }
    }
  }

  lemma StartIsMortal(class_: Class)
    ensures Mortal(class_, Standing(1, 1))
  {
    InTable(class_, 2);
    hide LevelExperience, TableOf;
    if class_ != Undefined {
      TablesFit(class_);
      assert TableOf(class_)[1] < TableOf(class_)[1 + 1];
    }
  }

  /** How much more is needed to rise. */
  function ExpToLevel(class_: Class, s: Standing): int {
    Max(0, LevelExperience(class_, s.level + 1) - s.exp)
  }

  /** Whatever a mortal gains or loses leaves them a mortal, and at most one level up: up exactly
      when what is left of the gain after both caps is what they still needed. */
  lemma ChangeKeepsMortal(class_: Class, s: Standing, gain: Int32)
    requires Mortal(class_, s)
    ensures var t := Changed(class_, s, gain);
      && Mortal(class_, t) && s.level <= t.level <= s.level + 1
      && (t.level == s.level + 1 <==>
          gain > 0 && s.level < LEVEL_IMMORTAL - 1 && Capped(class_, s.level, gain) >= ExpToLevel(class_, s))
  {
    hide LevelExperience, Capped, Climb;
    if s.level < LEVEL_IMMORTAL - 1 {
      if gain > 0 {
        OneBandOn(class_, s.level);
        GainIs(class_, s, gain);
      } else if gain < 0 {
        LossIs(class_, s, gain);
      }
    }
  }

  lemma LossIs(class_: Class, s: Standing, gain: Int32)
    requires Mortal(class_, s) && s.level < LEVEL_IMMORTAL - 1 && gain < 0
    ensures Changed(class_, s, gain).level == s.level && 0 <= Changed(class_, s, gain).exp <= s.exp
  {
    hide LevelExperience;
    WrapSame(s.exp + Max(-MAX_LOSS_PER_DEATH, gain));
  }

  lemma GainIs(class_: Class, s: Standing, gain: Int32)
    requires Mortal(class_, s) && s.level < LEVEL_IMMORTAL - 1 && gain > 0
    requires 0 <= TenthOfBand(class_, s.level) && LevelExperience(class_, s.level + 1) <= EXP_MAX
    requires LevelExperience(class_, s.level + 1) - 1 + TenthOfBand(class_, s.level) < LevelExperience(class_, s.level + 2)
    ensures var e := s.exp + Capped(class_, s.level, gain);
      && s.exp <= e < LevelExperience(class_, s.level + 2)
      && Changed(class_, s, gain) == Standing(if e >= LevelExperience(class_, s.level + 1) then s.level + 1 else s.level, e)
  {
    hide LevelExperience, TenthOfBand;
    var e := s.exp + Capped(class_, s.level, gain);
    assert s.exp <= e <= s.exp + TenthOfBand(class_, s.level);
    assert e <= s.exp + MAX_GAIN_PER_KILL;
    WrapSame(e);
    ClimbsOne(class_, s.level, e);
  }

  lemma ClimbsOne(class_: Class, level: Int32, exp: Int32)
    requires 1 <= level < LEVEL_IMMORTAL - 1 && exp < LevelExperience(class_, level + 2)
    ensures Climb(class_, level, exp, LEVEL_IMMORTAL) ==
            if exp >= LevelExperience(class_, level + 1) then level + 1 else level
  {
    hide LevelExperience;
    assert Climb(class_, level + 1, exp, LEVEL_IMMORTAL) == level + 1;
  }

  function AfterAll(class_: Class, s: Standing, gains: seq<Int32>): Standing {
    if gains == [] then s else Changed(class_, AfterAll(class_, s, gains[..|gains| - 1]), gains[|gains| - 1])
  }

  /** No sequence of kills and deaths takes a mortal of any class past level 30, below level 1, to
      negative experience or to experience they should have risen on, or up faster than one level
      at a time. */
  lemma {:induction false} AlwaysMortal(class_: Class, s: Standing, gains: seq<Int32>)
    requires Mortal(class_, s)
    ensures Mortal(class_, AfterAll(class_, s, gains))
    ensures s.level <= AfterAll(class_, s, gains).level <= s.level + |gains|
  {
    if gains != [] {
      AlwaysMortal(class_, s, gains[..|gains| - 1]);
      hide Mortal, Changed;
      ChangeKeepsMortal(class_, AfterAll(class_, s, gains[..|gains| - 1]), gains[|gains| - 1]);
    }
  }
}
