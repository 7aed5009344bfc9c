/**
  How players advance: experience and levels, the points that levels grant, and what
  stats and skills cost.
*/
module Progress {

  const MAX_LEVEL := 100
  const MAX_STAT_DISTRIBUTED := 250

  // ------------------------------------------------------------------- levels

  datatype Grade = Grade(level: nat, exp: nat, pu: nat, su: nat)

  /** The experience that each level asks for, by level. */
  predicate IsNeedTable(need: seq<nat>) { |need| == MAX_LEVEL }

  function PuOnLevelUp(level: nat): nat {
    if level >= 96 then 12
    else if level >= 91 then 11
    else if level >= 86 then 10
    else if level >= 81 then 9
    else if level >= 76 then 8
    else if level >= 72 then 7
    else 5
  }

  /** Five points for a level, two more from 72 on, and one more from each of four levels on. */
  lemma PointsByLevel(level: nat)
    ensures PuOnLevelUp(level) == 5
      + (if level >= 72 then 2 else 0) + (if level >= 76 then 1 else 0) + (if level >= 81 then 1 else 0)
      + (if level >= 86 then 1 else 0) + (if level >= 91 then 1 else 0) + (if level >= 96 then 1 else 0)
  {
  }

  function LeveledUp(g: Grade): Grade {
    g.(level := g.level + 1, pu := g.pu + PuOnLevelUp(g.level + 1), su := g.su + 1)
  }

  /** As many levels as the experience pays for. The last level takes what is left of it. */
  function Climbed(need: seq<nat>, g: Grade): (r: Grade)
    requires IsNeedTable(need) && g.level < MAX_LEVEL
    decreases MAX_LEVEL - g.level
  {
    if g.exp <= need[g.level] then
      g
    else
      var up := LeveledUp(g.(exp := g.exp - need[g.level]));
      if up.level >= MAX_LEVEL then up.(exp := 0) else Climbed(need, up)
  }

  function Awarded(need: seq<nat>, g: Grade, amount: int): Grade
    requires IsNeedTable(need)
  {
    if amount < 0 then
      g.(exp := if -amount > g.exp then 0 else g.exp + amount)
    else if amount == 0 || g.level >= MAX_LEVEL then
      g
    else
      Climbed(need, g.(exp := g.exp + amount))
  }

  /** All that the levels below one ask for together. */
  function Total(need: seq<nat>, level: nat): nat
    requires IsNeedTable(need) && level <= MAX_LEVEL
  {
    if level == 0 then 0 else Total(need, level - 1) + need[level - 1]
  }

  lemma {:induction false} TotalGrows(need: seq<nat>, a: nat, b: nat)
    requires IsNeedTable(need) && a <= b <= MAX_LEVEL
    ensures Total(need, a) <= Total(need, b)
    decreases b
  {
    if a < b {
      TotalGrows(need, a, b - 1);
    }
  }

  /** The points that levels grant on the way from the first. */
  function Granted(level: nat): nat {
    if level == 0 then 0 else Granted(level - 1) + PuOnLevelUp(level)
  }

  /** Climbing neither makes nor loses experience, except at the last level, and grants what its levels grant. */
  lemma {:induction false} ClimbConserves(need: seq<nat>, g: Grade)
    requires IsNeedTable(need) && g.level < MAX_LEVEL
    ensures var r := Climbed(need, g);
      && g.level <= r.level <= MAX_LEVEL
      && (r.level < MAX_LEVEL ==> Total(need, r.level) + r.exp == Total(need, g.level) + g.exp && r.exp <= need[r.level])
      && (r.level == MAX_LEVEL ==> r.exp == 0 && Total(need, MAX_LEVEL) < Total(need, g.level) + g.exp)
      && r.pu == g.pu + Granted(r.level) - Granted(g.level)
      && r.su == g.su + r.level - g.level
      && (r.level > g.level && r.level < MAX_LEVEL ==> r.exp > 0)
    decreases MAX_LEVEL - g.level
  {
    if g.exp > need[g.level] {
      var up := LeveledUp(g.(exp := g.exp - need[g.level]));
      if up.level < MAX_LEVEL {
        ClimbConserves(need, up);
      }
    }
  }

  /** Passing a level takes exactly more experience than all levels up to it ask for. */
  lemma LevelPassedIff(need: seq<nat>, g: Grade, amount: nat, level: nat)
    requires IsNeedTable(need) && g.level <= level < MAX_LEVEL && amount > 0
    ensures Awarded(need, g, amount).level > level <==> Total(need, g.level) + g.exp + amount > Total(need, level + 1)
  {
    var start := g.(exp := g.exp + amount);
    ClimbConserves(need, start);
    var r := Climbed(need, start);
    if r.level > level {
      TotalGrows(need, level + 1, r.level);
    } else {
      TotalGrows(need, r.level + 1, level + 1);
    }
  }

  function ClimbedOn(need: seq<nat>, g: Grade, amount: nat): Grade
    requires IsNeedTable(need)
  {
    if g.level < MAX_LEVEL then Climbed(need, g.(exp := g.exp + amount)) else g
  }

  lemma {:induction false} ClimbingFurther(need: seq<nat>, g: Grade, amount: nat)
    requires IsNeedTable(need) && g.level < MAX_LEVEL
    ensures Climbed(need, g.(exp := g.exp + amount)) == ClimbedOn(need, Climbed(need, g), amount)
    decreases MAX_LEVEL - g.level
  {
    if g.exp > need[g.level] {
      var up := LeveledUp(g.(exp := g.exp - need[g.level]));
      if up.level < MAX_LEVEL {
        ClimbingFurther(need, up, amount);
      }
    }
  }

  /** Two awards are one award of their sum: the same level, experience and points. */
  lemma AwardsAdd(need: seq<nat>, g: Grade, a: nat, b: nat)
    requires IsNeedTable(need) && a > 0 && b > 0
    ensures Awarded(need, Awarded(need, g, a), b) == Awarded(need, g, a + b)
  {
    if g.level < MAX_LEVEL {
      var start := g.(exp := g.exp + a);
      ClimbConserves(need, start);
      ClimbingFurther(need, start, b);
      assert start.(exp := start.exp + b) == g.(exp := g.exp + (a + b));
    }
  }

  // -------------------------------------------------------------------- stats

  datatype PlayerClass = Knight | Mage | Archer | Thief | Shaman

  datatype Stat = Strength | Health | Inteligence | Wisdom | Dexterity

  /** The price of raising a stat by one, from a value below the cap. */
  function NeedPu(value: nat): nat {
    if value < 50 then 1
    else if value < 70 then 2
    else if value < 90 then 3
    else if value < 110 then 4
    else if value < 130 then 5
    else if value < 150 then 6
    else if value < 200 then 7
    else 8
  }

  /** The price for a class's own stat. */
  function NeedPuEx(value: nat): nat {
    if value < 60 then 1
    else if value < 90 then 2
    else if value < 120 then 3
    else if value < 150 then 4
    else if value < 180 then 5
    else if value < 210 then 6
    else if value < 240 then 7
    else 8
  }

  predicate OwnStat(job: PlayerClass, stat: Stat) {
    match job
    case Knight => stat == Strength
    case Mage => stat == Inteligence
    case Shaman => stat == Inteligence
    case Archer => stat == Dexterity
    case Thief => stat == Dexterity
  }

  function Price(ex: bool, value: nat): nat { if ex then NeedPuEx(value) else NeedPu(value) }

  /** The price of raising a stat step by step. */
  function Cost(ex: bool, cur: nat, add: nat): nat
    decreases add
  {
    if add == 0 then 0 else Price(ex, cur) + Cost(ex, cur + 1, add - 1)
  }

  /** It makes no difference in how many goes a stat is raised. */
  lemma {:induction false} CostsAdd(ex: bool, cur: nat, a: nat, b: nat)
    ensures Cost(ex, cur, a + b) == Cost(ex, cur, a) + Cost(ex, cur + a, b)
    decreases a
  {
    if a > 0 {
      CostsAdd(ex, cur + 1, a - 1, b);
    }
  }

  /** Raising a stat by one costs one point, and one more from each of seven values on. */
  lemma PricesByValue(value: nat)
    ensures Cost(false, value, 1) == 1
      + (if value >= 50 then 1 else 0) + (if value >= 70 then 1 else 0) + (if value >= 90 then 1 else 0)
      + (if value >= 110 then 1 else 0) + (if value >= 130 then 1 else 0) + (if value >= 150 then 1 else 0)
      + (if value >= 200 then 1 else 0)
    ensures Cost(true, value, 1) == 1
      + (if value >= 60 then 1 else 0) + (if value >= 90 then 1 else 0) + (if value >= 120 then 1 else 0)
      + (if value >= 150 then 1 else 0) + (if value >= 180 then 1 else 0) + (if value >= 210 then 1 else 0)
      + (if value >= 240 then 1 else 0)
  {
    assert Cost(false, value + 1, 0) == 0 && Cost(true, value + 1, 0) == 0;
  }

  lemma {:induction false} FlatCost(ex: bool, cur: nat, add: nat, price: nat)
    requires forall value :: cur <= value < cur + add ==> Price(ex, value) == price
    ensures Cost(ex, cur, add) == add * price
    decreases add
  {
    if add > 0 {
      FlatCost(ex, cur + 1, add - 1, price);
    }
  }

  lemma CostUpTo(ex: bool, from: nat, to: nat, price: nat)
    requires from <= to
    requires forall value :: from <= value < to ==> Price(ex, value) == price
    ensures Cost(ex, 0, to) == Cost(ex, 0, from) + (to - from) * price
  {
    CostsAdd(ex, 0, from, to - from);
    FlatCost(ex, from, to - from, price);
  }

  /** A stat costs 1200 points from zero to the cap, as the table notes, and a class's own stat 950. */
  lemma FullStatCosts()
    ensures Cost(false, 0, MAX_STAT_DISTRIBUTED) == 1200
    ensures Cost(true, 0, MAX_STAT_DISTRIBUTED) == 950
  {
    hide Cost;
    CostUpTo(false, 0, 50, 1);
    CostUpTo(false, 50, 70, 2);
    CostUpTo(false, 70, 90, 3);
    CostUpTo(false, 90, 110, 4);
    CostUpTo(false, 110, 130, 5);
    CostUpTo(false, 130, 150, 6);
    CostUpTo(false, 150, 200, 7);
    CostUpTo(false, 200, 250, 8);
    CostUpTo(true, 0, 60, 1);
    CostUpTo(true, 60, 90, 2);
    CostUpTo(true, 90, 120, 3);
    CostUpTo(true, 120, 150, 4);
    CostUpTo(true, 150, 180, 5);
    CostUpTo(true, 180, 210, 6);
    CostUpTo(true, 210, 240, 7);
    CostUpTo(true, 240, 250, 8);
    FlatCost(false, 0, 0, 1);
    FlatCost(true, 0, 0, 1);
  }

  lemma {:induction false} CostIsBounded(ex: bool, cur: nat, add: nat)
    ensures add <= Cost(ex, cur, add) <= 8 * add
    decreases add
  {
    if add > 0 {
      CostIsBounded(ex, cur + 1, add - 1);
    }
  }

  datatype Stats = Stats(strength: nat, health: nat, inteligence: nat, wisdom: nat, dexterity: nat) {
    function Of(stat: Stat): nat {
      match stat
      case Strength => strength
      case Health => health
      case Inteligence => inteligence
      case Wisdom => wisdom
      case Dexterity => dexterity
    }
  }

  function Sum(a: Stats, b: Stats): Stats {
    Stats(a.strength + b.strength, a.health + b.health, a.inteligence + b.inteligence, a.wisdom + b.wisdom,
          a.dexterity + b.dexterity)
  }

  function Step(job: PlayerClass, base: Stats, add: Stats, stat: Stat): nat {
    Cost(OwnStat(job, stat), base.Of(stat), add.Of(stat))
  }

  function Required(job: PlayerClass, base: Stats, add: Stats): nat {
    Step(job, base, add, Strength) + Step(job, base, add, Inteligence) + Step(job, base, add, Dexterity)
    + Step(job, base, add, Health) + Step(job, base, add, Wisdom)
  }

  const NOTHING := Stats(0, 0, 0, 0, 0)

  /** What the stats of a player would have cost from zero. */
  function Spent(job: PlayerClass, base: Stats): nat {
    Required(job, NOTHING, base)
  }

  predicate BelowCap(base: Stats, add: Stats) {
    forall stat: Stat :: base.Of(stat) + add.Of(stat) <= MAX_STAT_DISTRIBUTED
  }

  lemma SpendingAdds(job: PlayerClass, base: Stats, add: Stats)
    ensures Spent(job, Sum(base, add)) == Spent(job, base) + Required(job, base, add)
  {
    forall stat: Stat
      ensures Step(job, NOTHING, Sum(base, add), stat) == Step(job, NOTHING, base, stat) + Step(job, base, add, stat)
    {
      CostsAdd(OwnStat(job, stat), 0, base.Of(stat), add.Of(stat));
    }
  }

  // ------------------------------------------------------------------- skills

  const MAX_SKILL_INDEX := 84

  /** A row of the skill table of a class. */
  datatype InitSkill = InitSkill(levelLimit: int, jobs: set<nat>, requiredSkill: nat, requiredGrade: nat, maxLevel: nat)

  datatype Build = Build(grade: Grade, job: PlayerClass, jobs: set<nat>, base: Stats, skills: map<nat, nat>)

  /** Levels of skills are kept in eight bits. */
  predicate IsSkillTable(table: map<nat, InitSkill>) {
    forall i <- table :: i <= MAX_SKILL_INDEX && table[i].maxLevel < 256
  }

  predicate CanLearnSkill(b: Build, table: map<nat, InitSkill>, index: nat) {
    && index in table
    && var init := table[index];
    && init.levelLimit <= b.grade.level
    && init.jobs <= b.jobs
    && b.grade.su > 0
    && (init.requiredSkill != 0 ==> init.requiredSkill in b.skills && b.skills[init.requiredSkill] >= init.requiredGrade)
    && (index in b.skills ==> b.skills[index] < init.maxLevel)
  }

  function SkillRaised(b: Build, index: nat, level: nat): Build
    requires b.grade.su > 0
  {
    b.(skills := b.skills[index := level], grade := b.grade.(su := b.grade.su - 1))
  }

  function LevelSum(skills: map<nat, nat>, n: nat): nat {
    if n == 0 then 0 else LevelSum(skills, n - 1) + if n - 1 in skills then skills[n - 1] else 0
  }

  lemma {:induction false} LevelSumAfter(skills: map<nat, nat>, index: nat, level: nat, n: nat)
    ensures LevelSum(skills[index := level], n) + (if index < n && index in skills then skills[index] else 0)
         == LevelSum(skills, n) + (if index < n then level else 0)
  {
    if n > 0 {
      LevelSumAfter(skills, index, level, n - 1);
    }
  }

  // --------------------------------------------------------------------- runs

  datatype Event = Award(amount: int) | Distribute(add: Stats) | Learn(index: nat) | Upgrade(index: nat)

  function Next(need: seq<nat>, table: map<nat, InitSkill>, b: Build, e: Event): Build
    requires IsNeedTable(need)
  {
    match e
    case Award(amount) => b.(grade := Awarded(need, b.grade, amount))
    case Distribute(add) =>
      var required := Required(b.job, b.base, add);
      if BelowCap(b.base, add) && required <= b.grade.pu then
        b.(base := Sum(b.base, add), grade := b.grade.(pu := b.grade.pu - required))
      else
        b
    case Learn(index) =>
      if CanLearnSkill(b, table, index) && index !in b.skills then SkillRaised(b, index, 1) else b
    case Upgrade(index) =>
      if CanLearnSkill(b, table, index) && index in b.skills then SkillRaised(b, index, b.skills[index] + 1) else b
  }

  function After(need: seq<nat>, table: map<nat, InitSkill>, b: Build, es: seq<Event>): Build
    requires IsNeedTable(need)
    decreases |es|
  {
    if es == [] then b else After(need, table, Next(need, table, b, es[0]), es[1..])
  }

  /** One more event. */
  lemma {:induction false} RunGoesOn(need: seq<nat>, table: map<nat, InitSkill>, b: Build, es: seq<Event>, e: Event)
    requires IsNeedTable(need)
    ensures After(need, table, b, []) == b
    ensures After(need, table, b, es + [e]) == Next(need, table, After(need, table, b, es), e)
    decreases |es|
  {
    hide Next;
    if es == [] {
      assert es + [e] == [e] && [e][1..] == [];
      assert After(need, table, Next(need, table, b, e), []) == Next(need, table, b, e);
    } else {
      RunGoesOn(need, table, Next(need, table, b, es[0]), es[1..], e);
      assert (es + [e])[1..] == es[1..] + [e];
    }
  }

  /** The points one has, plus those one spent, minus those that levels granted. */
  function PuBalance(b: Build): int {
    b.grade.pu + Spent(b.job, b.base) - Granted(b.grade.level)
  }

  function SuBalance(b: Build): int {
    b.grade.su + LevelSum(b.skills, MAX_SKILL_INDEX + 1) - b.grade.level
  }

  lemma NextKeepsBalance(need: seq<nat>, table: map<nat, InitSkill>, b: Build, e: Event)
    requires IsNeedTable(need) && IsSkillTable(table)
    ensures var after := Next(need, table, b, e);
      && PuBalance(after) == PuBalance(b)
      && SuBalance(after) == SuBalance(b)
      && (BelowCap(b.base, NOTHING) ==> BelowCap(after.base, NOTHING))
      && (b.grade.level <= MAX_LEVEL ==> after.grade.level <= MAX_LEVEL)
  {
    hide Required, Climbed, Granted;
    match e
    case Award(amount) =>
      if amount > 0 && b.grade.level < MAX_LEVEL {
        ClimbConserves(need, b.grade.(exp := b.grade.exp + amount));
      }
    case Distribute(add) => SpendingAdds(b.job, b.base, add);
    case Learn(index) => LevelSumAfter(b.skills, index, 1, MAX_SKILL_INDEX + 1);
    case Upgrade(index) =>
      if index in b.skills {
        LevelSumAfter(b.skills, index, b.skills[index] + 1, MAX_SKILL_INDEX + 1);
      }
  }

  /** Over any run, points are neither made nor lost but by levels, and no stat passes the cap. */
  lemma {:induction false} PointsAreConserved(need: seq<nat>, table: map<nat, InitSkill>, b: Build, es: seq<Event>)
    requires IsNeedTable(need) && IsSkillTable(table)
    ensures var after := After(need, table, b, es);
      && PuBalance(after) == PuBalance(b)
      && SuBalance(after) == SuBalance(b)
      && (BelowCap(b.base, NOTHING) ==> BelowCap(after.base, NOTHING))
      && (b.grade.level <= MAX_LEVEL ==> after.grade.level <= MAX_LEVEL)
    decreases |es|
  {
    if es != [] {
      NextKeepsBalance(need, table, b, es[0]);
      PointsAreConserved(need, table, Next(need, table, b, es[0]), es[1..]);
    }
  }

  // ------------------------------------------------------------------ objects

  method FindNeedPu(cur: nat, add: nat) returns (needPu: nat)
    requires cur + add <= MAX_STAT_DISTRIBUTED
    ensures needPu == Cost(false, cur, add)
  {
    needPu := 0;
    var c, left := cur, add;
    while left > 0
      invariant c + left == cur + add
      invariant needPu + Cost(false, c, left) == Cost(false, cur, add)
    {
      needPu := needPu + NeedPu(c);
      c, left := c + 1, left - 1;
    }
  }

  method FindNeedPuEx(cur: nat, add: nat) returns (needPu: nat)
    requires cur + add <= MAX_STAT_DISTRIBUTED
    ensures needPu == Cost(true, cur, add)
  {
    needPu := 0;
    var c, left := cur, add;
    while left > 0
      invariant c + left == cur + add
      invariant needPu + Cost(true, c, left) == Cost(true, cur, add)
    {
      needPu := needPu + NeedPuEx(c);
      c, left := c + 1, left - 1;
    }
  }

  class Player {
    const need: seq<nat>
    const table: map<nat, InitSkill>
    const job: PlayerClass
    const jobs: set<nat>
    var level: nat
    var exp: nat
    var puPoint: nat
    var suPoint: nat
    var strength: nat
    var health: nat
    var inteligence: nat
    var wisdom: nat
    var dexterity: nat
    var skills: map<nat, nat>

    ghost predicate Valid()
      reads this
    {
      IsNeedTable(need) && IsSkillTable(table)
    }

    function GradeNow(): Grade
      reads this
    {
      Grade(level, exp, puPoint, suPoint)
    }

    function Base(): Stats
      reads this
    {
      Stats(strength, health, inteligence, wisdom, dexterity)
    }

    /** All that changes about a player here. */
    function Now(): Build
      reads this
    {
      Build(GradeNow(), job, jobs, Base(), skills)
    }

    method LevelUp()
      modifies this
      ensures GradeNow() == LeveledUp(old(GradeNow())) && Base() == old(Base()) && skills == old(skills)
    {
      suPoint := suPoint + 1;
      level := level + 1;
      puPoint := puPoint + PuOnLevelUp(level);
    }

    method UpdateExp(amount: int)
      requires Valid()
      modifies this
      ensures Now() == Next(need, table, old(Now()), Award(amount))
      ensures amount < 0 ==> exp == (if old(exp) + amount < 0 then 0 else old(exp) + amount) && level == old(level)
      ensures amount == 0 || (amount > 0 && old(level) >= 100) ==> GradeNow() == old(GradeNow())
      ensures amount > 0 && old(level) < 100 ==>
        && old(level) <= level <= 100 && suPoint == old(suPoint) + level - old(level)
        && puPoint == old(puPoint) + Granted(level) - Granted(old(level))
        && if level < 100 then exp <= need[level] && Total(need, level) + exp == Total(need, old(level)) + old(exp) + amount
           else exp == 0
    {
      hide Total, Granted, PuOnLevelUp, IsSkillTable;
      if amount == 0 {
        return;
      }
      if amount < 0 {
        exp := if -amount > exp then 0 else exp + amount;
        return;
      }
      if level >= MAX_LEVEL {
        return;
      }
      exp := exp + amount;
      ghost var start := GradeNow();
      ClimbConserves(need, start);
      var requiredExp := need[level];
      while exp > requiredExp
        invariant level < MAX_LEVEL && requiredExp == need[level]
        invariant Climbed(need, GradeNow()) == Climbed(need, start)
        invariant Base() == old(Base()) && skills == old(skills)
        decreases MAX_LEVEL - level
      {
        exp := exp - requiredExp;
        LevelUp();
        if level >= MAX_LEVEL {
          exp := 0;
          break;
        }
        requiredExp := need[level];
      }
    }

    /** The price of a distribution. It fits into sixteen bits. */
    method GetReqPu(add: Stats) returns (req: nat)
      requires BelowCap(Base(), add)
      ensures req == Required(job, Base(), add) && req < 0x1_0000
      ensures req == Cost(job == Knight, strength, add.strength)
                     + Cost(job == Mage || job == Shaman, inteligence, add.inteligence)
                     + Cost(job == Archer || job == Thief, dexterity, add.dexterity)
                     + Cost(false, health, add.health) + Cost(false, wisdom, add.wisdom)
    {
      CapIsFive(Base(), add);
      var r;
      if job == Knight {
        req := FindNeedPuEx(strength, add.strength);
      } else {
        req := FindNeedPu(strength, add.strength);
      }
      if job == Mage || job == Shaman {
        r := FindNeedPuEx(inteligence, add.inteligence);
      } else {
        r := FindNeedPu(inteligence, add.inteligence);
      }
      req := req + r;
      if job == Archer || job == Thief {
        r := FindNeedPuEx(dexterity, add.dexterity);
      } else {
        r := FindNeedPu(dexterity, add.dexterity);
      }
      req := req + r;
      r := FindNeedPu(health, add.health);
      req := req + r;
      r := FindNeedPu(wisdom, add.wisdom);
      req := req + r;
      RequirementIsBounded(job, Base(), add);
    }

    method OnUpdateProperty(add: Stats)
      requires Valid()
      modifies this
      ensures Now() == Next(need, table, old(Now()), Distribute(add))
      ensures var required := Required(job, old(Base()), add);
        if old(strength) + add.strength <= 250 && old(health) + add.health <= 250
           && old(inteligence) + add.inteligence <= 250 && old(wisdom) + add.wisdom <= 250
           && old(dexterity) + add.dexterity <= 250 && required <= old(puPoint)
        then
          && strength == old(strength) + add.strength && health == old(health) + add.health
          && inteligence == old(inteligence) + add.inteligence && wisdom == old(wisdom) + add.wisdom
          && dexterity == old(dexterity) + add.dexterity && puPoint == old(puPoint) - required
        else
          Now() == old(Now())
    {
      hide Required, BelowCap;
      CapIsFive(Base(), add);
      if add.strength + strength > MAX_STAT_DISTRIBUTED { return; }
      if add.health + health > MAX_STAT_DISTRIBUTED { return; }
      if add.inteligence + inteligence > MAX_STAT_DISTRIBUTED { return; }
      if add.wisdom + wisdom > MAX_STAT_DISTRIBUTED { return; }
      if add.dexterity + dexterity > MAX_STAT_DISTRIBUTED { return; }
      var required := GetReqPu(add);
      if puPoint < required { return; }
      strength := strength + add.strength;
      health := health + add.health;
      inteligence := inteligence + add.inteligence;
      wisdom := wisdom + add.wisdom;
      dexterity := dexterity + add.dexterity;
      puPoint := puPoint - required;
    }

    method MayLearn(index: nat) returns (may: bool)
      ensures may <==> CanLearnSkill(Now(), table, index)
      ensures may <==>
        && index in table && table[index].levelLimit <= level && table[index].jobs <= jobs && suPoint >= 1
        && (table[index].requiredSkill == 0
            || (table[index].requiredSkill in skills && skills[table[index].requiredSkill] >= table[index].requiredGrade))
        && (index in skills ==> skills[index] < table[index].maxLevel)
    {
      if index !in table { return false; }
      var init := table[index];
      if init.levelLimit > level { return false; }
      if !(init.jobs <= jobs) { return false; }
      if suPoint <= 0 { return false; }
      if init.requiredSkill != 0 {
        if init.requiredSkill !in skills { return false; }
        if skills[init.requiredSkill] < init.requiredGrade { return false; }
      }
      return !(index in skills && skills[index] >= init.maxLevel);
    }

    method OnSkillUp(index: nat)
      requires Valid()
      modifies this
      ensures Now() == Next(need, table, old(Now()), Upgrade(index))
      ensures if old(CanLearnSkill(Now(), table, index)) && index in old(skills) then
          skills == old(skills)[index := old(skills)[index] + 1] && suPoint == old(suPoint) - 1
        else
          Now() == old(Now())
    {
      var may := MayLearn(index);
      if !may || index !in skills {
        return;
      }
      skills := skills[index := (skills[index] + 1) % 256];
      suPoint := suPoint - 1;
    }

    method OnLearnSkill(index: nat)
      requires Valid()
      modifies this
      ensures Now() == Next(need, table, old(Now()), Learn(index))
      ensures if old(CanLearnSkill(Now(), table, index)) && index !in old(skills) then
          skills == old(skills)[index := 1] && suPoint == old(suPoint) - 1
        else
          Now() == old(Now())
    {
      var may := MayLearn(index);
      if !may || index in skills {
        return;
      }
      skills := skills[index := 1];
      suPoint := suPoint - 1;
    }
  }

  lemma RequirementIsBounded(job: PlayerClass, base: Stats, add: Stats)
    requires BelowCap(base, add)
    ensures Required(job, base, add) <= 5 * 8 * MAX_STAT_DISTRIBUTED
  {
    forall stat: Stat ensures Step(job, base, add, stat) <= 8 * MAX_STAT_DISTRIBUTED {
      CostIsBounded(OwnStat(job, stat), base.Of(stat), add.Of(stat));
    }
  }

  lemma CapIsFive(base: Stats, add: Stats)
    ensures BelowCap(base, add) <==>
            && base.strength + add.strength <= MAX_STAT_DISTRIBUTED
            && base.health + add.health <= MAX_STAT_DISTRIBUTED
            && base.inteligence + add.inteligence <= MAX_STAT_DISTRIBUTED
            && base.wisdom + add.wisdom <= MAX_STAT_DISTRIBUTED
            && base.dexterity + add.dexterity <= MAX_STAT_DISTRIBUTED
  {
    assert base.Of(Strength) == base.strength && add.Of(Strength) == add.strength;
    assert base.Of(Health) == base.health && add.Of(Health) == add.health;
    assert base.Of(Inteligence) == base.inteligence && add.Of(Inteligence) == add.inteligence;
    assert base.Of(Wisdom) == base.wisdom && add.Of(Wisdom) == add.wisdom;
    assert base.Of(Dexterity) == base.dexterity && add.Of(Dexterity) == add.dexterity;
  }
}
