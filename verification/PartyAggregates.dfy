/** Parties: the number of members and of online members and the range of their levels are kept
    up to date step by step, and even share is withdrawn when the range gets too wide. */
module PartyAggregates {
  import opened Wrappers

  const MAX_PARTY := 12
  const UINT_MAX := 0xFFFF_FFFF

  /** `party_member`; an account of 0 marks an empty place. */
  datatype Member = Member(account: int, charId: int, place: int, lv: nat, leader: bool, online: bool)

  const NOBODY := Member(0, 0, 0, 0, false, false)

  // ----- recomputation from scratch -----

  function OnlineCount(ms: seq<Member>): nat {
    if ms == [] then 0
    else OnlineCount(ms[..|ms| - 1]) + if ms[|ms| - 1].online then 1 else 0
  }

  function MemberCount(ms: seq<Member>): nat {
    if ms == [] then 0
    else MemberCount(ms[..|ms| - 1]) + if ms[|ms| - 1].account != 0 then 1 else 0
  }

  /** `v` is the least level online, or the largest unsigned number if nobody is online. */
  predicate IsMinLevel(ms: seq<Member>, v: int) {
    && (forall i | 0 <= i < |ms| && ms[i].online :: v <= ms[i].lv)
    && ((v == UINT_MAX && forall i | 0 <= i < |ms| :: !ms[i].online)
        || exists i | 0 <= i < |ms| :: ms[i].online && ms[i].lv == v)
  }

  /** `v` is the greatest level online, or 0. */
  predicate IsMaxLevel(ms: seq<Member>, v: int) {
    && (forall i | 0 <= i < |ms| && ms[i].online :: ms[i].lv <= v)
    && ((v == 0 && forall i | 0 <= i < |ms| :: !ms[i].online)
        || exists i | 0 <= i < |ms| :: ms[i].online && ms[i].lv == v)
  }

  /** Members have an account and a positive level, a 16-bit number; empty places have neither. */
  predicate MembersOk(ms: seq<Member>) {
    && |ms| == MAX_PARTY
    && forall i | 0 <= i < |ms| ::
         if ms[i].account != 0 then 0 < ms[i].lv < 0x1_0000 else ms[i].lv == 0 && !ms[i].online
  }

  // ----- how counts change with one member -----

  function B(b: bool): int { if b then 1 else 0 }

  lemma {:induction false} OnlineCountUpdate(ms: seq<Member>, i: nat, m: Member)
    requires i < |ms|
    ensures OnlineCount(ms[i := m]) == OnlineCount(ms) - B(ms[i].online) + B(m.online)
  {
    var last := |ms| - 1;
    if i < last {
      assert ms[i := m][..last] == ms[..last][i := m];
      OnlineCountUpdate(ms[..last], i, m);
    } else {
      assert ms[i := m][..last] == ms[..last];
    }
  }

  lemma {:induction false} MemberCountUpdate(ms: seq<Member>, i: nat, m: Member)
    requires i < |ms|
    ensures MemberCount(ms[i := m]) == MemberCount(ms) - B(ms[i].account != 0) + B(m.account != 0)
  {
    var last := |ms| - 1;
    if i < last {
      assert ms[i := m][..last] == ms[..last][i := m];
      MemberCountUpdate(ms[..last], i, m);
    } else {
      assert ms[i := m][..last] == ms[..last];
    }
  }

  lemma {:induction false} CountsOfSome(ms: seq<Member>, i: nat)
    requires i < |ms|
    ensures ms[i].online ==> OnlineCount(ms) >= 1
    ensures ms[i].account != 0 ==> MemberCount(ms) >= 1
  {
    OnlineCountUpdate(ms, i, NOBODY);
    MemberCountUpdate(ms, i, NOBODY);
  }

  lemma {:induction false} MemberCountBound(ms: seq<Member>)
    ensures MemberCount(ms) <= |ms|
    ensures MemberCount(ms) == |ms| <==> forall i | 0 <= i < |ms| :: ms[i].account != 0
  {
    if ms != [] {
      var before := ms[..|ms| - 1];
      MemberCountBound(before);
      assert forall i | 0 <= i < |before| :: before[i] == ms[i];
    }
  }

  /** With two people online, two of them differ. */
  lemma {:induction false} OneOnline(ms: seq<Member>, i: nat, j: nat)
    requires i < |ms| && j < |ms| && i != j && ms[i].online && ms[j].online
    ensures OnlineCount(ms) >= 2
  {
    OnlineCountUpdate(ms, i, NOBODY);
    CountsOfSome(ms[i := NOBODY], j);
  }

  lemma {:induction false} NobodyOnline(ms: seq<Member>)
    requires forall i | 0 <= i < |ms| :: !ms[i].online
    ensures OnlineCount(ms) == 0
  {
    if ms != [] {
      NobodyOnline(ms[..|ms| - 1]);
    }
  }

  // ----- even share -----

  /** `party_check_family_share`: apart from the child everybody is online, on its map and at
      level 70. */
  predicate FamilyShare(ms: seq<Member>, family: int) {
    family != 0 &&
    forall i | 0 <= i < |ms| && ms[i].lv != 0 && ms[i].charId != family ::
      ms[i].online && ms[i].place == MapOf(ms, family) && ms[i].lv >= 70
  }

  /** The map of the first member with that id, or 0. */
  function MapOf(ms: seq<Member>, charId: int): int {
    if ms == [] then 0 else if ms[0].charId == charId then ms[0].place else MapOf(ms[1..], charId)
  }

  /** `party_check_exp_share` on the aggregates that are passed. */
  predicate ShareAllowed(ms: seq<Member>, count: int, minLv: int, maxLv: int, family: int, level: int) {
    count < 2 || (maxLv - minLv) % (UINT_MAX + 1) <= level || FamilyShare(ms, family)
  }

  /** Where the aggregates are right, even share is allowed if no two members online are further
      apart than the limit, and for families. */
  lemma ShareRule(ms: seq<Member>, count: int, minLv: int, maxLv: int, family: int, level: nat)
    requires MembersOk(ms) && count == OnlineCount(ms) && IsMinLevel(ms, minLv) && IsMaxLevel(ms, maxLv)
    ensures ShareAllowed(ms, count, minLv, maxLv, family, level) <==>
            || (forall i, j | 0 <= i < |ms| && 0 <= j < |ms| && ms[i].online && ms[j].online ::
                  ms[i].lv - ms[j].lv <= level)
            || FamilyShare(ms, family)
  {
    forall i: nat, j: nat | i < |ms| && j < |ms| && ms[i].online && ms[j].online && i != j ensures count >= 2 {
      OneOnline(ms, i, j);
    }
    if forall i | 0 <= i < |ms| :: !ms[i].online {
      NobodyOnline(ms);
    } else {
      var i :| 0 <= i < |ms| && ms[i].online && ms[i].lv == maxLv;
      var j :| 0 <= j < |ms| && ms[j].online && ms[j].lv == minLv;
      assert ms[i].lv - ms[j].lv == (maxLv - minLv) % (UINT_MAX + 1);
    }
  }

  /** Two parents and their child: both parents are with the child and at level 70 at least. */
  lemma FamilyOfThree(a: Member, b: Member, c: Member)
    requires a.lv > 0 && b.lv > 0 && a.charId != c.charId && b.charId != c.charId && c.charId != 0
    ensures FamilyShare([a, b, c] + seq(MAX_PARTY - 3, _ => NOBODY), c.charId) <==>
            && a.online && a.place == c.place && a.lv >= 70
            && b.online && b.place == c.place && b.lv >= 70
  {
    var ms := [a, b, c] + seq(MAX_PARTY - 3, _ => NOBODY);
    assert ms[0] == a && ms[1] == b && ms[2] == c;
    assert ms[1..][0] == b && ms[1..][1..][0] == c && MapOf(ms, c.charId) == MapOf(ms[1..], c.charId);
    assert MapOf(ms[1..], c.charId) == MapOf(ms[1..][1..], c.charId) == c.place;
  }

  class Party {
    const members: array<Member>
    var count: int
    var size: int
    var minLv: int
    var maxLv: int
    var family: int
    var exp: bool

    /** `mapif_parse_CreateParty`: a party of its leader. */
    constructor (leader: Member, level: nat)
      requires leader.account != 0 && 0 < leader.lv < 0x1_0000
      ensures Valid(level) && !exp && fresh(members)
      ensures Members()[0] == leader.(leader := true, online := true)
      ensures forall i | 0 < i < MAX_PARTY :: Members()[i] == NOBODY
    {
      members := new Member[MAX_PARTY](_ => NOBODY);
      exp := false;
      new;
      members[0] := leader.(leader := true, online := true);
      CalcState(level, 0);
    }

    ghost function Members(): seq<Member>
      reads this, members
    {
      members[..]
    }

    /** The aggregates are what recomputation from scratch gives. */
    ghost predicate Accurate()
      reads this, members
    {
      && MembersOk(Members())
      && count == OnlineCount(Members()) && size == MemberCount(Members())
      && IsMinLevel(Members(), minLv) && IsMaxLevel(Members(), maxLv)
      && (family != 0 ==> size == 2 || size == 3)
    }

    /** Even share is on only where it is allowed. */
    ghost predicate FairShare(level: int)
      reads this, members
    {
      exp ==> ShareAllowed(Members(), count, minLv, maxLv, family, level)
    }

    ghost predicate Valid(level: int)
      reads this, members
    {
      Accurate() && FairShare(level)
    }

    twostate lemma StaysValid(level: nat)
      requires old(Valid(level)) && unchanged(this) && unchanged(members)
      ensures Valid(level)
    {
    }

    /** The levels of the members online. */
    method LevelRange() returns (lo: int, hi: int)
      requires MembersOk(Members())
      ensures IsMinLevel(Members(), lo) && IsMaxLevel(Members(), hi)
    {
      lo, hi := UINT_MAX, 0;
      for i := 0 to members.Length
        invariant IsMinLevel(members[..i], lo) && IsMaxLevel(members[..i], hi)
        invariant lo == UINT_MAX || lo < 0x1_0000
      {
        ghost var before := members[..i];
        var m := members[i];
        assert members[..i + 1] == before + [m];
        ghost var oldLo, oldHi := lo, hi;
        if m.online {
          if m.lv < lo {
            lo := m.lv;
          }
          if m.lv > hi {
            hi := m.lv;
          }
        }
        RangeSnoc(before, m, oldLo, oldHi);
      }
      assert members[..members.Length] == members[..];
    }

    /** `party_check_exp_share`. */
    method CheckExpShare(level: int) returns (ok: bool)
      requires MembersOk(Members())
      ensures ok <==> ShareAllowed(Members(), count, minLv, maxLv, family, level)
    {
      if count < 2 || (maxLv - minLv) % (UINT_MAX + 1) <= level {
        return true;
      }
      ok := CheckFamilyShare();
    }

    /** `party_check_family_share`. */
    method CheckFamilyShare() returns (ok: bool)
      ensures ok <==> FamilyShare(Members(), family)
    {
      if family == 0 {
        return false;
      }
      var place := 0;
      var k := 0;
      while k < members.Length && members[k].charId != family
        invariant 0 <= k <= members.Length
        invariant MapOf(members[k..], family) == MapOf(members[..], family)
      {
        assert members[k..][1..] == members[k + 1..];
        k := k + 1;
      }
      if k < members.Length {
        place := members[k].place;
      }
      for i := 0 to members.Length
        invariant forall j | 0 <= j < i && members[j].lv != 0 && members[j].charId != family ::
                    members[j].online && members[j].place == place && members[j].lv >= 70
      {
        var m := members[i];
        if m.lv != 0 && m.charId != family && (!m.online || m.place != place || m.lv < 70) {
          assert members[..][i] == m;
          return false;
        }
      }
      return true;
    }

    /** `int_party_check_lv`: the level range anew, and even share off if it is too wide. */
    method CheckLevels(level: int)
      requires MembersOk(Members()) && count == OnlineCount(Members()) && size == MemberCount(Members())
      requires family != 0 ==> size == 2 || size == 3
      modifies `minLv, `maxLv, `exp
      ensures Valid(level) && (exp <==> old(exp) && ShareAllowed(Members(), count, minLv, maxLv, family, level))
    {
      minLv, maxLv := LevelRange();
      if exp {
        exp := CheckExpShare(level);
      }
    }

    /** `int_party_calc_state`: everything anew; `kin` is what the family query says. */
    method CalcState(level: int, kin: int)
      requires MembersOk(Members())
      modifies `count, `size, `minLv, `maxLv, `family, `exp
      ensures Valid(level) && (exp <==> old(exp) && ShareAllowed(Members(), count, minLv, maxLv, family, level))
      ensures family == if size == 2 || size == 3 then kin else 0
    {
      count, size, family := 0, 0, 0;
      for i := 0 to members.Length
        invariant count == OnlineCount(members[..i]) && size == MemberCount(members[..i])
        invariant family == 0 && exp == old(exp)
      {
        assert members[..i + 1][..i] == members[..i];
        if members[i].lv != 0 {
          size := size + 1;
          if members[i].online {
            count := count + 1;
          }
        }
      }
      assert members[..members.Length] == members[..];
      if size == 2 || size == 3 {
        family := kin;
      }
      minLv, maxLv := LevelRange();
      if exp {
        exp := CheckExpShare(level);
      }
    }

    /** ARR_FIND: the first place without an account. */
    method FirstEmpty() returns (i: nat)
      ensures i <= members.Length && (i < members.Length ==> members[i].account == 0)
      ensures forall j | 0 <= j < i :: members[j].account != 0
    {
      i := 0;
      while i < members.Length && members[i].account != 0
        invariant 0 <= i <= members.Length && forall j | 0 <= j < i :: members[j].account != 0
      {
        i := i + 1;
      }
    }

    /** The place of a member, or MAX_PARTY. */
    method Find(account: int, charId: int) returns (i: nat)
      ensures i <= members.Length
      ensures i < members.Length ==> members[i].account == account && members[i].charId == charId
      ensures forall j | 0 <= j < i :: members[j].account != account || members[j].charId != charId
    {
      i := 0;
      while i < members.Length && (members[i].account != account || members[i].charId != charId)
        invariant 0 <= i <= members.Length
        invariant forall j | 0 <= j < i :: members[j].account != account || members[j].charId != charId
      {
        i := i + 1;
      }
    }

    /** Stores a member. */
    method Put(i: nat, m: Member)
      requires i < members.Length
      modifies members
      ensures Members() == old(Members())[i := m]
    {
      members[i] := m;
    }

    /** Puts a member in an empty place. */
    method Insert(i: nat, m: Member, level: nat, kin: int)
      requires Valid(level) && i < MAX_PARTY && members[i].account == 0
      requires m.account != 0 && 0 < m.lv < 0x1_0000
      modifies this, members
      ensures Valid(level) && Members() == old(Members())[i := m]
    {
      ghost var was := Members();
      SingleRange(was, minLv, maxLv);
      Put(i, m);
      OnlineCountUpdate(was, i, m);
      MemberCountUpdate(was, i, m);
      if m.online {
        count := count + 1;
      }
      size := size + 1;
      if size == 2 || size == 3 {
        CalcState(level, kin);
      } else if m.lv < minLv || m.lv > maxLv || family != 0 {
        family := 0;
        CheckLevels(level);
      } else {
        RangeKept(was, i, m, minLv, maxLv);
      }
    }

    /** `mapif_parse_PartyAddMember`. */
    method AddMember(m: Member, level: nat, kin: int) returns (added: bool, ghost i: nat)
      requires Valid(level) && m.account != 0 && 0 < m.lv < 0x1_0000
      modifies this, members
      ensures Valid(level)
      ensures added <==> exists j | 0 <= j < MAX_PARTY :: old(members[j].account) == 0
      ensures !added ==> Members() == old(Members()) && exp == old(exp)
      ensures added ==>
                i < MAX_PARTY && old(members[i].account) == 0
                && (forall j | 0 <= j < i :: old(members[j].account) != 0)
                && Members() == old(Members())[i := m.(leader := false)]
    {
      MemberCountBound(Members());
      ghost var was := Members();
      var k := FirstEmpty();
      i := k;
      if size == MAX_PARTY {
        assert forall j | 0 <= j < MAX_PARTY :: was[j].account != 0;
        return false, i;
      }
      assert exists j | 0 <= j < MAX_PARTY :: was[j].account == 0;
      assert was[k].account == 0;
      Insert(k, m.(leader := false), level, kin);
      return true, i;
    }

    /** `mapif_parse_PartyLeave` of somebody who does not lead. */
    method Remove(i: nat, level: nat)
      requires Valid(level) && i < MAX_PARTY && members[i].account != 0
      modifies this, members
      ensures Valid(level) && Members() == old(Members())[i := NOBODY]
    {
      ghost var was := Members();
      var lv := members[i].lv;
      if members[i].online {
        count := count - 1;
      }
      Put(i, NOBODY);
      OnlineCountUpdate(was, i, NOBODY);
      MemberCountUpdate(was, i, NOBODY);
      size := size - 1;
      if lv == minLv || lv == maxLv || family != 0 {
        family := 0;
        CheckLevels(level);
      } else {
        RangeKeptWithout(was, i, minLv, maxLv);
      }
    }

    /** `mapif_parse_PartyLeave`.  When the leader leaves, everybody leaves. */
    method Leave(account: int, charId: int, level: nat) returns (found: bool, broken: bool, ghost i: nat)
      requires Valid(level) && account != 0
      modifies this, members
      ensures found <==> exists j | 0 <= j < MAX_PARTY ::
                old(members[j].account) == account && old(members[j].charId) == charId
      ensures !found ==> Valid(level) && Members() == old(Members()) && !broken
      ensures found ==>
                i < MAX_PARTY && old(members[i].account) == account && old(members[i].charId) == charId
      ensures found && old(members[i].leader) ==> broken && forall j | 0 <= j < MAX_PARTY :: members[j].account == 0
      ensures found && !old(members[i].leader) ==> Valid(level) && Members() == old(Members())[i := NOBODY]
      ensures found && !old(members[i].leader) ==> (broken <==> MemberCount(Members()) == 0)
    {
      var k := Find(account, charId);
      i := k;
      if k == members.Length {
        return false, false, i;
      }
      if members[k].leader {
        for j := 0 to members.Length
          invariant forall l | 0 <= l < j :: members[l].account == 0
        {
          members[j] := members[j].(account := 0);
        }
        return true, true, i;
      }
      Remove(k, level);
      broken := CheckEmpty();
      return true, broken, i;
    }

    /** `party_check_empty`. */
    method CheckEmpty() returns (empty: bool)
      ensures empty <==> MemberCount(Members()) == 0
    {
      var k := 0;
      while k < members.Length && members[k].account == 0
        invariant 0 <= k <= members.Length && MemberCount(members[..k]) == 0
      {
        assert members[..k + 1][..k] == members[..k];
        k := k + 1;
      }
      if k < members.Length {
        assert Members()[k] == members[k];
        CountsOfSome(Members(), k);
        return false;
      }
      assert members[..k] == Members();
      return true;
    }

    /** `mapif_parse_PartyChangeOption`; the field has one bit. */
    method ChangeOption(share: nat, level: nat, kin: int)
      requires Valid(level)
      modifies `count, `size, `minLv, `maxLv, `family, `exp
      ensures Valid(level)
      ensures exp <==> share % 2 == 1 && ShareAllowed(Members(), count, minLv, maxLv, family, level)
    {
      if size == 2 || size == 3 {
        CalcState(level, kin);
      }
      exp := share % 2 == 1;
      if share != 0 {
        var ok := CheckExpShare(level);
        if !ok {
          exp := false;
        }
      }
    }

    /** Under a new limit for the level range. */
    method Recheck(ghost before: nat, level: nat, kin: int)
      requires Valid(before)
      modifies `count, `size, `minLv, `maxLv, `family, `exp
      ensures Valid(level)
    {
      if count > 1 {
        CalcState(level, kin);
      }
    }

    /** `mapif_parse_PartyLeaderChange`. */
    method ChangeLeader(account: int, charId: int, level: nat)
      requires Valid(level)
      modifies members
      ensures Valid(level)
      ensures forall i | 0 <= i < MAX_PARTY ::
                members[i] == old(members[i]).(leader :=
                  old(members[i]).account == account && old(members[i]).charId == charId)
    {
      ghost var was := Members();
      for i := 0 to members.Length
        invariant forall j | 0 <= j < i ::
                    members[j] == was[j].(leader := was[j].account == account && was[j].charId == charId)
        invariant forall j | i <= j < members.Length :: members[j] == was[j]
      {
        var m := members[i];
        if m.leader {
          m := m.(leader := false);
        }
        if m.account == account && m.charId == charId {
          m := m.(leader := true);
        }
        members[i] := m;
      }
      SameButLeaders(was, Members(), family);
      RangeSame(was, Members(), minLv, maxLv);
    }

    /** What `mapif_parse_PartyChangeMap` takes account of when it leaves the level range alone:
        it is still right unless somebody who stays online inside the range moves out of it. */
    ghost predicate RangeFollows(m: Member, lv: nat)
      reads this
    {
      !m.online || m.lv == minLv || m.lv == maxLv || minLv <= lv <= maxLv
    }

    /** The counts are right, whatever the level range. */
    ghost predicate Counted()
      reads this, members
    {
      && MembersOk(Members()) && count == OnlineCount(Members()) && size == MemberCount(Members())
      && (family != 0 ==> size == 2 || size == 3)
    }

    /** A member logs in or out; the new level is taken only if the range may change. */
    method SetOnline(i: nat, online: bool, lv: nat, level: nat)
      requires Valid(level) && i < MAX_PARTY && members[i].account != 0
      requires members[i].online != online && 0 < lv < 0x1_0000
      modifies this, members
      ensures Valid(level)
      ensures || Members() == old(Members())[i := old(members[i]).(online := online, lv := lv)]
              || (Members() == old(Members())[i := old(members[i]).(online := online)]
                  && family == 0 && minLv <= lv <= maxLv)
    {
      ghost var was := Members();
      var m := members[i];
      var flipped := m.(online := online);
      OnlineCountUpdate(was, i, flipped);
      MemberCountUpdate(was, i, flipped);
      count := count + (if online then 1 else -1);
      if family != 0 || m.lv <= minLv || m.lv >= maxLv
         || (m.lv != lv && (lv <= minLv || lv >= maxLv))
      {
        Put(i, flipped.(lv := lv));
        OnlineCountUpdate(was, i, flipped.(lv := lv));
        MemberCountUpdate(was, i, flipped.(lv := lv));
        CheckLevels(level);
      } else {
        SingleRange(was, minLv, maxLv);
        FlipInside(was, i, online, minLv, maxLv);
        Put(i, flipped);
      }
    }

    /** A member's level changes without logging in or out. */
    method SetLevel(i: nat, lv: nat, level: nat)
      requires Valid(level) && i < MAX_PARTY && members[i].account != 0 && 0 < lv < 0x1_0000
      modifies this, members
      ensures Members() == old(Members())[i := old(members[i]).(lv := lv)] && Counted()
      ensures Accurate() <==> old(RangeFollows(members[i], lv))
      ensures old(RangeFollows(members[i], lv)) && (old(members[i].lv) <= lv || old(family) == 0) ==> Valid(level)
    {
      ghost var was := Members();
      var m := members[i];
      if m.lv != lv {
        OnlineCountUpdate(was, i, m.(lv := lv));
        MemberCountUpdate(was, i, m.(lv := lv));
        if m.lv == minLv || m.lv == maxLv {
          Put(i, m.(lv := lv));
          CheckLevels(level);
        } else {
          Put(i, m.(lv := lv));
          LevelInside(was, i, lv, minLv, maxLv);
          if m.lv <= lv && FamilyShare(was, family) {
            FamilyRises(was, i, lv, family);
          }
        }
      } else {
        assert Members()[i := m] == Members();
        assert Members()[i] == m;
      }
    }

    /** The first two parts of `mapif_parse_PartyChangeMap`: logging in or out, and levels. */
    method ChangeState(i: nat, online: bool, lv: nat, level: nat)
      requires Valid(level) && i < MAX_PARTY && members[i].account != 0 && 0 < lv < 0x1_0000
      modifies this, members
      ensures Members() == old(Members())[i := old(members[i]).(online := online, lv := lv)] && Counted()
      ensures Accurate() <==> old(members[i].online) != online || old(RangeFollows(members[i], lv))
      ensures Accurate() && (old(members[i].online) != online || old(members[i].lv) <= lv) ==> Valid(level)
    {
      ghost var was := Members();
      if members[i].online != online {
        SetOnline(i, online, lv, level);
        ghost var flipped := Members();
        assert RangeFollows(flipped[i], lv) by {
          LevelInRange(flipped, i, minLv, maxLv);
        }
        SetLevel(i, lv, level);
        assert Members() == was[i := was[i].(online := online, lv := lv)];
      } else {
        SetLevel(i, lv, level);
        assert Members() == was[i := was[i].(online := online, lv := lv)];
      }
    }

    /** `mapif_parse_PartyChangeMap`: a member logs in or out, levels, or changes map.  The
        aggregates stay right exactly if the member logs in or out, changes map, is offline,
        was at an end of the level range, or stays inside it; one level up always does. */
    method ChangeMap(account: int, charId: int, place: int, online: bool, lv: nat, level: nat)
      returns (i: nat)
      requires Valid(level) && account != 0 && 0 < lv < 0x1_0000
      modifies this, members
      ensures i <= MAX_PARTY
      ensures i == MAX_PARTY ==>
                Members() == old(Members()) && Valid(level)
                && forall j | 0 <= j < MAX_PARTY ::
                     old(members[j].account) != account || old(members[j].charId) != charId
      ensures i < MAX_PARTY ==>
                old(members[i].account) == account && old(members[i].charId) == charId
                && Members() == old(Members())[i := old(members[i]).(place := place, online := online, lv := lv)]
      ensures i < MAX_PARTY ==>
                (Accurate() <==> old(members[i].online) != online || old(members[i].place) != place
                                 || old(RangeFollows(members[i], lv)))
      ensures i < MAX_PARTY && Accurate() && old(members[i].lv) <= lv ==> Valid(level)
      ensures i < MAX_PARTY && old(members[i].lv) <= lv <= old(members[i].lv) + 1 ==> Valid(level)
    {
      i := Find(account, charId);
      if i < members.Length {
        ghost var was := Members();
        LevelInRange(was, i, minLv, maxLv);
        assert was[i] == members[i];
        ChangeState(i, online, lv, level);
        if members[i].place != place {
          Move(i, place, level);
        }
        assert Members() == was[i := was[i].(place := place, online := online, lv := lv)];
      }
    }

    /** A member changes map, which may end a family's even share. */
    method Move(i: nat, place: int, level: nat)
      requires Counted() && i < MAX_PARTY
      modifies this, members
      ensures Valid(level) && Members() == old(Members())[i := old(members[i]).(place := place)]
    {
      ghost var was := Members();
      OnlineCountUpdate(was, i, was[i].(place := place));
      MemberCountUpdate(was, i, was[i].(place := place));
      Put(i, members[i].(place := place));
      CheckLevels(level);
    }
  }

  // ----- what keeps the level range -----

  /** A member inside the range, or offline, takes the place of somebody offline. */
  lemma RangeKept(ms: seq<Member>, i: nat, m: Member, lo: int, hi: int)
    requires i < |ms| && !ms[i].online && IsMinLevel(ms, lo) && IsMaxLevel(ms, hi)
    requires m.online ==> lo <= m.lv <= hi && m.lv < UINT_MAX
    ensures IsMinLevel(ms[i := m], lo) && IsMaxLevel(ms[i := m], hi)
  {
    var all := ms[i := m];
    if j :| 0 <= j < |ms| && ms[j].online && ms[j].lv == lo {
      assert all[j].online && all[j].lv == lo;
    }
    if j :| 0 <= j < |ms| && ms[j].online && ms[j].lv == hi {
      assert all[j].online && all[j].lv == hi;
    }
  }

  /** Somebody offline or strictly inside the range goes. */
  lemma RangeKeptWithout(ms: seq<Member>, i: nat, lo: int, hi: int)
    requires i < |ms| && IsMinLevel(ms, lo) && IsMaxLevel(ms, hi)
    requires ms[i].online ==> ms[i].lv != lo && ms[i].lv != hi
    ensures IsMinLevel(ms[i := NOBODY], lo) && IsMaxLevel(ms[i := NOBODY], hi)
  {
    var all := ms[i := NOBODY];
    if j :| 0 <= j < |ms| && ms[j].online && ms[j].lv == lo {
      assert all[j].online && all[j].lv == lo;
    }
    if j :| 0 <= j < |ms| && ms[j].online && ms[j].lv == hi {
      assert all[j].online && all[j].lv == hi;
    }
  }

  /** With one person online the range is a single level. */
  lemma SingleRange(ms: seq<Member>, lo: int, hi: int)
    requires IsMinLevel(ms, lo) && IsMaxLevel(ms, hi)
    ensures OnlineCount(ms) == 1 ==> lo == hi
  {
    if OnlineCount(ms) == 1 {
      if forall i | 0 <= i < |ms| :: !ms[i].online {
        NobodyOnline(ms);
      } else {
        var i :| 0 <= i < |ms| && ms[i].online && ms[i].lv == lo;
        var j :| 0 <= j < |ms| && ms[j].online && ms[j].lv == hi;
        if i != j {
          OneOnline(ms, i, j);
        }
      }
    }
  }

  lemma RangeSnoc(ms: seq<Member>, m: Member, lo: int, hi: int)
    requires IsMinLevel(ms, lo) && IsMaxLevel(ms, hi) && m.lv < UINT_MAX
    requires lo <= UINT_MAX && hi >= 0 && (m.online ==> m.lv > 0)
    ensures IsMinLevel(ms + [m], if m.online && m.lv < lo then m.lv else lo)
    ensures IsMaxLevel(ms + [m], if m.online && m.lv > hi then m.lv else hi)
  {
    var all := ms + [m];
    assert all[|ms|] == m;
    assert forall i | 0 <= i < |ms| :: all[i] == ms[i];
    if i :| 0 <= i < |ms| && ms[i].online && ms[i].lv == lo {
      assert all[i].online && all[i].lv == lo;
    }
    if i :| 0 <= i < |ms| && ms[i].online && ms[i].lv == hi {
      assert all[i].online && all[i].lv == hi;
    }
  }

  /** A member strictly inside the range logs in or out. */
  lemma FlipInside(ms: seq<Member>, i: nat, online: bool, lo: int, hi: int)
    requires i < |ms| && IsMinLevel(ms, lo) && IsMaxLevel(ms, hi) && lo < ms[i].lv < hi
    ensures IsMinLevel(ms[i := ms[i].(online := online)], lo)
    ensures IsMaxLevel(ms[i := ms[i].(online := online)], hi)
  {
    var all := ms[i := ms[i].(online := online)];
    if j :| 0 <= j < |ms| && ms[j].online && ms[j].lv == lo {
      assert all[j].online && all[j].lv == lo;
    }
    if j :| 0 <= j < |ms| && ms[j].online && ms[j].lv == hi {
      assert all[j].online && all[j].lv == hi;
    }
  }

  /** A level not at either end of the range changes. */
  lemma LevelInside(ms: seq<Member>, i: nat, lv: nat, lo: int, hi: int)
    requires i < |ms| && IsMinLevel(ms, lo) && IsMaxLevel(ms, hi) && ms[i].lv != lo && ms[i].lv != hi
    ensures var all := ms[i := ms[i].(lv := lv)];
            IsMinLevel(all, lo) && IsMaxLevel(all, hi) <==> (ms[i].online ==> lo <= lv <= hi)
  {
    var all := ms[i := ms[i].(lv := lv)];
    assert all[i].online == ms[i].online && all[i].lv == lv;
    if j :| 0 <= j < |ms| && ms[j].online && ms[j].lv == lo {
      assert all[j].online && all[j].lv == lo;
    }
    if j :| 0 <= j < |ms| && ms[j].online && ms[j].lv == hi {
      assert all[j].online && all[j].lv == hi;
    }
  }

  lemma LevelInRange(ms: seq<Member>, i: nat, lo: int, hi: int)
    requires i < |ms| && IsMinLevel(ms, lo) && IsMaxLevel(ms, hi)
    ensures ms[i].online ==> lo <= ms[i].lv <= hi
  {
  }

  /** Only leadership differs. */
  predicate SameMembers(a: seq<Member>, b: seq<Member>) {
    |a| == |b| && forall i | 0 <= i < |a| :: b[i] == a[i].(leader := b[i].leader)
  }

  lemma {:induction false} SameButLeaders(a: seq<Member>, b: seq<Member>, family: int)
    requires SameMembers(a, b)
    ensures OnlineCount(a) == OnlineCount(b) && MemberCount(a) == MemberCount(b)
    ensures FamilyShare(a, family) <==> FamilyShare(b, family)
  {
    SameCounts(a, b);
    SameMap(a, b, family);
  }

  lemma {:induction false} SameCounts(a: seq<Member>, b: seq<Member>)
    requires SameMembers(a, b)
    ensures OnlineCount(a) == OnlineCount(b) && MemberCount(a) == MemberCount(b)
  {
    if a != [] {
      SameCounts(a[..|a| - 1], b[..|b| - 1]);
    }
  }

  lemma {:induction false} SameMap(a: seq<Member>, b: seq<Member>, charId: int)
    requires SameMembers(a, b)
    ensures MapOf(a, charId) == MapOf(b, charId)
  {
    if a != [] {
      SameMap(a[1..], b[1..], charId);
    }
  }

  lemma RangeSame(a: seq<Member>, b: seq<Member>, lo: int, hi: int)
    requires SameMembers(a, b) && IsMinLevel(a, lo) && IsMaxLevel(a, hi)
    ensures IsMinLevel(b, lo) && IsMaxLevel(b, hi)
  {
    if j :| 0 <= j < |a| && a[j].online && a[j].lv == lo {
      assert b[j].online && b[j].lv == lo;
    }
    if j :| 0 <= j < |a| && a[j].online && a[j].lv == hi {
      assert b[j].online && b[j].lv == hi;
    }
  }

  lemma {:induction false} LevelKeepsMap(ms: seq<Member>, i: nat, lv: nat, charId: int)
    requires i < |ms|
    ensures MapOf(ms[i := ms[i].(lv := lv)], charId) == MapOf(ms, charId)
  {
    if i > 0 {
      assert ms[i := ms[i].(lv := lv)][1..] == ms[1..][i - 1 := ms[i].(lv := lv)];
      LevelKeepsMap(ms[1..], i - 1, lv, charId);
    }
  }

  /** Rising levels keep a family's even share. */
  lemma FamilyRises(ms: seq<Member>, i: nat, lv: nat, family: int)
    requires i < |ms| && ms[i].lv <= lv && ms[i].lv > 0 && FamilyShare(ms, family)
    ensures FamilyShare(ms[i := ms[i].(lv := lv)], family)
  {
    LevelKeepsMap(ms, i, lv, family);
  }

  /** `mapif_parse_PartyShareLevel`: a new limit for the width of the level range; parties with
      at most one member online may share whatever it is.  `kin` are the answers of the family
      query, one for each party. */
  method ChangeShareLevel(parties: seq<Party>, ghost before: nat, level: nat, kin: seq<int>)
    requires |kin| == |parties| && forall p | p in parties :: p.Valid(before)
    requires forall i, j | 0 <= i < j < |parties| :: parties[i] != parties[j]
    modifies parties
    ensures forall p | p in parties :: p.Valid(level) && p.Members() == old(p.Members())
  {
    for i := 0 to |parties|
      invariant forall j | 0 <= j < i :: parties[j].Valid(level)
      invariant forall j | i <= j < |parties| :: parties[j].Valid(before)
    {
      label Before:
      parties[i].Recheck(before, level, kin[i]);
      forall j | 0 <= j < |parties| && j != i
        ensures if j < i then parties[j].Valid(level) else parties[j].Valid(before)
      {
        assert parties[j] != parties[i];
        parties[j].StaysValid@Before(if j < i then level else before);
      }
    }
  }

  // ----- a level range that is left behind -----

  /** The levels of three online members are the range of a party of just these. */
  lemma ThreeLevels(ms: seq<Member>, lo: int, hi: int)
    requires |ms| == MAX_PARTY && IsMinLevel(ms, lo) && IsMaxLevel(ms, hi)
    requires ms[0].online && ms[1].online && ms[2].online && forall i | 3 <= i < |ms| :: !ms[i].online
    requires ms[0].lv < ms[1].lv < ms[2].lv
    ensures lo == ms[0].lv && hi == ms[2].lv
  {
  }

  /** A party as the handlers for creating it and for two more members make it. */
  method PartyOfThree(first: Member, second: Member, third: Member, level: nat, kin: int) returns (p: Party)
    requires first.account != 0 && 0 < first.lv < 0x1_0000
    requires second.account != 0 && 0 < second.lv < 0x1_0000 && third.account != 0 && 0 < third.lv < 0x1_0000
    ensures fresh(p) && fresh(p.members) && p.Valid(level)
    ensures p.Members()[0] == first.(leader := true, online := true)
    ensures p.Members()[1] == second.(leader := false) && p.Members()[2] == third.(leader := false)
    ensures forall i | 3 <= i < MAX_PARTY :: p.Members()[i] == NOBODY
  {
    p := new Party(first, level);
    assert p.Members()[1] == NOBODY && p.Members()[2] == NOBODY;
    var added, k := p.AddMember(second, level, kin);
    assert k == 1 && p.Members()[2] == NOBODY;
    added, k := p.AddMember(third, level, kin);
    assert k == 2;
  }

  /** Whoever is between the ends of the range and jumps past one of them is missed: in a party
      at levels `a`, `b` and `c`, with the second member now at `d`, the range is no longer that
      of the members. */
  method LevelJumpIsMissed(a: nat, b: nat, c: nat, d: nat, level: nat, kin: int) returns (p: Party)
    requires 0 < a < b < c < d < 0x1_0000
    ensures fresh(p) && fresh(p.members) && !p.Accurate() && MembersOk(p.Members())
    ensures p.Members()[0].lv == a && p.Members()[1].lv == d && p.Members()[2].lv == c
    ensures p.Members()[0].online && p.Members()[1].online && p.Members()[2].online
  {
    p := PartyOfThree(Member(1, 1, 0, a, true, true), Member(2, 2, 0, b, false, true),
                      Member(3, 3, 0, c, false, true), level, kin);
    ThreeLevels(p.Members(), p.minLv, p.maxLv);
    var i := p.ChangeMap(2, 2, 0, true, d, level);
    assert i == 1;
  }
}
