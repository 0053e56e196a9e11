/** Guild levels: experience is turned into levels and skill points. */
module GuildLevels {
  import opened Wrappers

  const MAX_GUILDLEVEL := 50
  const MAX_GUILD_EXP := 0x7FFF_FFFF
  const MAX_GUILD := 76               // 16 + 10 * 6
  const EXTENSION := 4                // GD_EXTENSION - GD_SKILLBASE
  const UINT64_MAX := 0xFFFF_FFFF_FFFF_FFFF

  /** The experience table: one entry for each level from 1. */
  predicate TableOk(table: seq<nat>) { |table| == MAX_GUILDLEVEL }

  /** `guild_nextexp`. */
  function NextExp(table: seq<nat>, level: int): nat
    requires TableOk(table)
  {
    if level == 0 then 1
    else if level < 0 || level > MAX_GUILDLEVEL then 0
    else table[level - 1]
  }

  /** The experience that takes a guild from one level to another. */
  function Thresholds(table: seq<nat>, low: int, high: int): nat
    requires TableOk(table)
    decreases high - low
  {
    if low >= high then 0 else NextExp(table, low) + Thresholds(table, low + 1, high)
  }

  datatype Standing = Standing(level: int, exp: nat, points: int)

  /** The loop of `guild_calcinfo`. */
  function LevelUp(table: seq<nat>, s: Standing): (t: Standing)
    requires TableOk(table) && s.level >= 1
    ensures t.level >= s.level
    decreases s.exp
  {
    var next := NextExp(table, s.level);
    if s.exp >= next && next > 0 then
      LevelUp(table, Standing(s.level + 1, s.exp - next, s.points + 1))
    else s
  }

  /** No further level can be reached. */
  predicate Settled(table: seq<nat>, s: Standing)
    requires TableOk(table)
  {
    s.exp < NextExp(table, s.level) || NextExp(table, s.level) == 0
  }

  /** Experience is conserved, every level gives a point, no threshold on the way is 0, and the
      guild stops where it must; the level after the last can be reached, but no other. */
  lemma {:induction false} LevelUpConserves(table: seq<nat>, s: Standing)
    requires TableOk(table) && s.level >= 1
    ensures var t := LevelUp(table, s);
            && t.level >= s.level && Settled(table, t)
            && s.exp == t.exp + Thresholds(table, s.level, t.level)
            && t.points - s.points == t.level - s.level
            && (t.level == s.level || t.level <= MAX_GUILDLEVEL + 1)
            && forall l | s.level <= l < t.level :: NextExp(table, l) > 0
    decreases s.exp
  {
    var next := NextExp(table, s.level);
    if s.exp >= next && next > 0 {
      LevelUpConserves(table, Standing(s.level + 1, s.exp - next, s.points + 1));
    }
  }

  lemma {:induction false} ThresholdsSplit(table: seq<nat>, a: int, b: int, c: int)
    requires TableOk(table) && a <= b <= c
    ensures Thresholds(table, a, c) == Thresholds(table, a, b) + Thresholds(table, b, c)
    decreases b - a
  {
    if a < b {
      ThresholdsSplit(table, a + 1, b, c);
    }
  }

  /** Only one standing conserves the experience and stops where it must. */
  lemma LevelUpIsTheOnly(table: seq<nat>, s: Standing, level: int, exp: nat)
    requires TableOk(table) && s.level >= 1 && level >= s.level
    requires s.exp == exp + Thresholds(table, s.level, level)
    requires forall l | s.level <= l < level :: NextExp(table, l) > 0
    requires Settled(table, Standing(level, exp, 0))
    ensures LevelUp(table, s) == Standing(level, exp, s.points + level - s.level)
  {
    LevelUpConserves(table, s);
    var t := LevelUp(table, s);
    FirstThreshold(table, t.level, level);
    FirstThreshold(table, level, t.level);
    if t.level <= level {
      ThresholdsSplit(table, s.level, t.level, level);
    } else {
      ThresholdsSplit(table, s.level, level, t.level);
    }
  }

  lemma FirstThreshold(table: seq<nat>, a: int, b: int)
    requires TableOk(table)
    ensures a < b ==> Thresholds(table, a, b) >= NextExp(table, a)
  {
  }

  function Gain(table: seq<nat>, s: Standing, amount: nat): (t: Standing)
    requires TableOk(table) && s.level >= 1
    ensures t.level >= s.level
  {
    LevelUp(table, s.(exp := s.exp + amount))
  }

  /** Levelling up in the middle of collecting experience makes no difference. */
  lemma {:induction false} LevelUpMidway(table: seq<nat>, s: Standing, amount: nat)
    requires TableOk(table) && s.level >= 1
    ensures Gain(table, LevelUp(table, s), amount) == Gain(table, s, amount)
    decreases s.exp
  {
    var next := NextExp(table, s.level);
    if s.exp >= next && next > 0 {
      LevelUpMidway(table, Standing(s.level + 1, s.exp - next, s.points + 1), amount);
    }
  }

  function GainAll(table: seq<nat>, s: Standing, amounts: seq<nat>): (t: Standing)
    requires TableOk(table) && s.level >= 1
    ensures t.level >= s.level
    decreases |amounts|
  {
    if amounts == [] then LevelUp(table, s)
    else Gain(table, GainAll(table, s, amounts[..|amounts| - 1]), amounts[|amounts| - 1])
  }

  function Total(amounts: seq<nat>): nat {
    if amounts == [] then 0 else Total(amounts[..|amounts| - 1]) + amounts[|amounts| - 1]
  }

  /** However an amount of experience is split, the guild ends up with the same level, the same
      rest and the same skill points. */
  lemma {:induction false} SplitsDoNotMatter(table: seq<nat>, s: Standing, amounts: seq<nat>)
    requires TableOk(table) && s.level >= 1
    ensures GainAll(table, s, amounts) == Gain(table, s, Total(amounts))
  {
    if amounts != [] {
      var before, last := amounts[..|amounts| - 1], amounts[|amounts| - 1];
      SplitsDoNotMatter(table, s, before);
      LevelUpMidway(table, s.(exp := s.exp + Total(before)), last);
      assert s.(exp := s.exp + Total(before)).(exp := s.exp + Total(before) + last)
             == s.(exp := s.exp + Total(amounts));
    } else {
      assert s.(exp := s.exp + 0) == s;
    }
  }

  // ----- points -----

  /** `guild_skill`. */
  datatype Skill = Skill(id: int, lv: nat)

  function Sum(skills: seq<Skill>): nat {
    if skills == [] then 0 else Sum(skills[..|skills| - 1]) + skills[|skills| - 1].lv
  }

  lemma {:induction false} SumUpdate(skills: seq<Skill>, i: nat, skill: Skill)
    requires i < |skills|
    ensures Sum(skills[i := skill]) == Sum(skills) - skills[i].lv + skill.lv
  {
    var last := |skills| - 1;
    if i < last {
      assert skills[i := skill][..last] == skills[..last][i := skill];
      SumUpdate(skills[..last], i, skill);
    } else {
      assert skills[i := skill][..last] == skills[..last];
    }
  }

  // ----- members -----

  /** `guild_member`; an account of 0 marks an empty place, levels are signed. */
  datatype Member = Member(account: nat, lv: int, online: bool)

  /** Members with a level that makes sense. */
  function Levelled(ms: seq<Member>): nat {
    if ms == [] then 0
    else
      var m := ms[|ms| - 1];
      Levelled(ms[..|ms| - 1]) + if m.account > 0 && m.lv >= 0 then 1 else 0
  }

  function LevelSum(ms: seq<Member>): nat {
    if ms == [] then 0
    else
      var m := ms[|ms| - 1];
      LevelSum(ms[..|ms| - 1]) + if m.account > 0 && m.lv >= 0 then m.lv else 0
  }

  function OnlineCount(ms: seq<Member>): nat {
    if ms == [] then 0
    else
      var m := ms[|ms| - 1];
      OnlineCount(ms[..|ms| - 1]) + if m.account > 0 && m.online then 1 else 0
  }

  /** What one place contributes to the counts. */
  lemma {:induction false} PlaceCounts(ms: seq<Member>, i: nat, m: Member)
    requires i < |ms|
    ensures var was := ms[i]; var now := ms[i := m];
            && Levelled(now) == Levelled(ms) - (if was.account > 0 && was.lv >= 0 then 1 else 0)
                                + (if m.account > 0 && m.lv >= 0 then 1 else 0)
            && LevelSum(now) == LevelSum(ms) - (if was.account > 0 && was.lv >= 0 then was.lv else 0)
                                + (if m.account > 0 && m.lv >= 0 then m.lv else 0)
            && OnlineCount(now) == OnlineCount(ms) - (if was.account > 0 && was.online then 1 else 0)
                                   + (if m.account > 0 && m.online then 1 else 0)
  {
    var last := |ms| - 1;
    if i < last {
      assert ms[i := m][..last] == ms[..last][i := m];
      PlaceCounts(ms[..last], i, m);
    } else {
      assert ms[i := m][..last] == ms[..last];
    }
  }

  /** The places that the extension skill gives. */
  function Places(extension: nat): nat {
    if 16 + extension * 6 > MAX_GUILD then MAX_GUILD else 16 + extension * 6
  }

  lemma {:induction false} NoPoints(skills: seq<Skill>)
    requires forall i | 0 <= i < |skills| :: skills[i].lv == 0
    ensures Sum(skills) == 0
  {
    if skills != [] {
      NoPoints(skills[..|skills| - 1]);
    }
  }

  /** Without levelled members there is no level to add. */
  lemma {:induction false} NothingToAdd(ms: seq<Member>)
    ensures Levelled(ms) == 0 ==> LevelSum(ms) == 0
  {
    if ms != [] {
      NothingToAdd(ms[..|ms| - 1]);
    }
  }

  lemma {:induction false} OnlyMaster(ms: seq<Member>, master: Member)
    requires ms != [] && ms[0] == master && master.account > 0 && master.lv >= 0 && master.online
    requires forall i | 0 < i < |ms| :: ms[i].account == 0
    ensures Levelled(ms) == 1 && LevelSum(ms) == master.lv && OnlineCount(ms) == 1
  {
    if |ms| > 1 {
      OnlyMaster(ms[..|ms| - 1], master);
    } else {
      assert ms[..0] == [];
    }
  }

  // ----- in place -----

  class Guild {
    const table: seq<nat>
    var level: int
    var exp: nat
    var nextExp: nat
    var skillPoints: int
    const skills: array<Skill>
    const members: array<Member>
    var maxMember: nat
    var connectMember: nat
    var averageLv: nat

    ghost predicate Valid()
      reads this, skills
    {
      && TableOk(table) && exp <= UINT64_MAX && skillPoints >= 0
      && skills.Length > EXTENSION && members.Length == MAX_GUILD
    }

    /** The places and what is counted over the members in them are those of a recomputation. */
    ghost predicate Counted()
      reads this, skills, members
      requires skills.Length > EXTENSION && members.Length == MAX_GUILD
    {
      && maxMember == Places(skills[EXTENSION].lv)
      && connectMember == OnlineCount(members[..maxMember])
      && averageLv == if Levelled(members[..maxMember]) == 0 then 0
                      else LevelSum(members[..maxMember]) / Levelled(members[..maxMember])
    }

    ghost function State(): Standing
      reads this
    {
      Standing(level, exp, skillPoints)
    }

    /** Points spent and unspent cover all levels above the first. */
    ghost predicate PointsCover()
      reads this, skills
    {
      skillPoints + Sum(skills[..]) >= level - 1
    }

    /** `mapif_parse_CreateGuild`: no level and no experience, which counts as level 1. */
    constructor (table: seq<nat>, skillPlaces: nat, master: Member)
      requires TableOk(table) && skillPlaces > EXTENSION
      requires master.account > 0 && master.lv >= 0 && master.online
      ensures Valid() && PointsCover() && Counted() && State() == Standing(0, 0, 0)
      ensures fresh(skills) && fresh(members)
      ensures this.table == table && skills.Length == skillPlaces && members[0] == master
      ensures forall i | 0 <= i < skillPlaces :: skills[i].id > 0
    {
      this.table := table;
      level, exp, nextExp, skillPoints := 0, 0, 0, 0;
      skills := new Skill[skillPlaces](i => Skill(10000 + i, 0));
      members := new Member[MAX_GUILD](_ => Member(0, 0, false));
      maxMember, connectMember, averageLv := 16, 1, master.lv;
      new;
      members[0] := master;
      NoPoints(skills[..]);
      OnlyMaster(members[..16], master);
    }

    /** The loop of `guild_calcinfo` over levels. */
    method RaiseLevels()
      requires Valid()
      modifies `level, `exp, `nextExp, `skillPoints
      ensures Valid() && level >= 1
      ensures var start := if old(level) <= 0 then 1 else old(level);
              State() == LevelUp(table, Standing(start, old(exp), old(skillPoints)))
      ensures nextExp == NextExp(table, level)
      ensures old(PointsCover()) ==> PointsCover()
    {
      if level <= 0 {
        level := 1;
      }
      ghost var start := State();
      var next := NextExp(table, level);
      while exp >= next && next > 0
        invariant Valid() && level >= 1 && next == NextExp(table, level)
        invariant LevelUp(table, State()) == LevelUp(table, start)
        invariant skillPoints - level == start.points - start.level
        decreases exp
      {
        exp := exp - next;
        level := level + 1;
        skillPoints := skillPoints + 1;
        next := NextExp(table, level);
      }
      nextExp := next;
    }

    /** The part of `guild_calcinfo` that goes through the members. */
    method CountMembers()
      requires Valid()
      modifies `maxMember, `connectMember, `averageLv
      ensures Valid() && Counted()
    {
      maxMember := 16 + skills[EXTENSION].lv * 6;
      if maxMember > MAX_GUILD {
        maxMember := MAX_GUILD;
      }
      averageLv, connectMember := 0, 0;
      var c := 0;
      for i := 0 to maxMember
        invariant maxMember == Places(skills[EXTENSION].lv) && Valid()
        invariant c == Levelled(members[..i]) && averageLv == LevelSum(members[..i])
        invariant connectMember == OnlineCount(members[..i])
      {
        assert members[..i + 1][..i] == members[..i];
        if members[i].account > 0 {
          if members[i].lv >= 0 {
            averageLv := averageLv + members[i].lv;
            c := c + 1;
          }
          if members[i].online {
            connectMember := connectMember + 1;
          }
        }
      }
      NothingToAdd(members[..maxMember]);
      if c != 0 {
        averageLv := averageLv / c;
      }
    }

    /** `guild_calcinfo`: tells whether something has changed that all map-servers have to know. */
    method CalcInfo() returns (changed: bool)
      requires Valid()
      modifies `level, `exp, `nextExp, `skillPoints, `maxMember, `connectMember, `averageLv
      ensures Valid() && Counted() && level >= 1
      ensures var start := if old(level) <= 0 then 1 else old(level);
              State() == LevelUp(table, Standing(start, old(exp), old(skillPoints)))
      ensures nextExp == NextExp(table, level)
      ensures old(PointsCover()) ==> PointsCover()
      ensures changed <==>
                maxMember != old(maxMember) || level != old(level) || skillPoints != old(skillPoints)
    {
      var levelBefore, pointsBefore, placesBefore := level, skillPoints, maxMember;
      RaiseLevels();
      CountMembers();
      changed := maxMember != placesBefore || level != levelBefore || skillPoints != pointsBefore;
    }

    /** `mapif_parse_GuildMemberInfoChange` with GMI_EXP, after the rate is applied: an addition
        that overflows gives the largest guild experience instead. */
    method GainExp(amount: nat)
      requires Valid() && amount <= UINT64_MAX
      modifies `level, `exp, `nextExp, `skillPoints, `maxMember, `connectMember, `averageLv
      ensures Valid() && Counted() && level >= 1
      ensures var start := Standing(if old(level) <= 0 then 1 else old(level), old(exp), old(skillPoints));
              State() == if old(exp) + amount <= UINT64_MAX then Gain(table, start, amount)
                         else LevelUp(table, start.(exp := MAX_GUILD_EXP))
      ensures old(PointsCover()) ==> PointsCover()
    {
      exp := if exp + amount > UINT64_MAX then MAX_GUILD_EXP else exp + amount;
      var _ := CalcInfo();
    }

    /** `mapif_parse_GuildSkillUp`. */
    method SkillUp(idx: int, max: int) returns (ok: bool)
      requires Valid()
      modifies `level, `exp, `nextExp, `skillPoints, `maxMember, `connectMember, `averageLv, skills
      ensures Valid()
      ensures ok <==>
                && 0 <= idx < skills.Length && old(skillPoints) > 0
                && old(skills[..])[idx].id > 0 && old(skills[..])[idx].lv < max
      ensures ok ==> skills[..] == old(skills[..])[idx := Skill(old(skills[..])[idx].id, old(skills[..])[idx].lv + 1)]
      ensures ok ==>
                var start := if old(level) <= 0 then 1 else old(level);
                Counted() && State() == LevelUp(table, Standing(start, old(exp), old(skillPoints) - 1))
      ensures !ok ==> State() == old(State()) && skills[..] == old(skills[..])
      ensures old(PointsCover()) ==> PointsCover()
    {
      if idx < 0 || idx >= skills.Length || skillPoints <= 0 || skills[idx].id <= 0 || skills[idx].lv >= max {
        return false;
      }
      ghost var was := skills[..];
      skills[idx] := skills[idx].(lv := skills[idx].lv + 1);
      assert skills[..] == was[idx := Skill(was[idx].id, was[idx].lv + 1)];
      SumUpdate(was, idx, Skill(was[idx].id, was[idx].lv + 1));
      skillPoints := skillPoints - 1;
      var _ := CalcInfo();
      return true;
    }

    /** `mapif_parse_GuildBasicInfoChange` with GBI_GUILDLV: levels given come with points,
        levels taken do not take any. */
    method ChangeLevel(delta: int)
      requires Valid()
      modifies `level, `skillPoints
      ensures Valid()
      ensures State() == if delta > 0 && old(level) + delta <= MAX_GUILDLEVEL then
                           Standing(old(level) + delta, old(exp), old(skillPoints) + delta)
                         else if delta < 0 && old(level) + delta >= 1 then
                           Standing(old(level) + delta, old(exp), old(skillPoints))
                         else old(State())
      ensures old(PointsCover()) ==> PointsCover()
    {
      if delta > 0 && level + delta <= MAX_GUILDLEVEL {
        level := level + delta;
        skillPoints := skillPoints + delta;
      } else if delta < 0 && level + delta >= 1 {
        level := level + delta;
      }
    }
  }

  /** A guild leaves a level exactly if it has the experience that the table gives for it, and
      leaves none that is not in the table. */
  lemma LevelIsLeft(table: seq<nat>, s: Standing)
    requires TableOk(table) && s.level >= 1
    ensures LevelUp(table, s).level > s.level <==>
            s.level <= |table| && 0 < table[s.level - 1] <= s.exp
  {
  }

  /** Six places for each level of the skill, up to the places that there are. */
  lemma PlacesGrow(extension: nat)
    ensures Places(0) == 16 && Places(10) == MAX_GUILD
    ensures Places(extension + 1) - Places(extension) == if extension < 10 then 6 else 0
  {
  }

  /** A full table lets a guild get one level beyond the largest. */
  lemma LevelBeyondMax(table: seq<nat>)
    requires TableOk(table) && table[MAX_GUILDLEVEL - 1] > 0
    ensures LevelUp(table, Standing(MAX_GUILDLEVEL, table[MAX_GUILDLEVEL - 1], 0)) ==
            Standing(MAX_GUILDLEVEL + 1, 0, 1)
  {
    assert NextExp(table, MAX_GUILDLEVEL + 1) == 0;
  }

  /** Which guilds are at most at the largest level: those that start there and whose table's
      last entry, if they reach that level at all, is 0 or too much. */
  lemma WithinMaxIff(table: seq<nat>, s: Standing)
    requires TableOk(table) && 1 <= s.level <= MAX_GUILDLEVEL
    ensures LevelUp(table, s).level <= MAX_GUILDLEVEL <==>
            (exists l | s.level <= l <= MAX_GUILDLEVEL :: NextExp(table, l) == 0)
            || s.exp < Thresholds(table, s.level, MAX_GUILDLEVEL + 1)
  {
    LevelUpConserves(table, s);
    var t := LevelUp(table, s);
    if t.level <= MAX_GUILDLEVEL {
      ThresholdsSplit(table, s.level, t.level, MAX_GUILDLEVEL + 1);
      assert Thresholds(table, t.level, MAX_GUILDLEVEL + 1) >= NextExp(table, t.level);
    }
  }
}
