/** The fame ranking: a fixed list of the most famous players, kept up to date in place. */
module FameRanking {
  import opened Wrappers

  /** `fame_list`; an id of 0 marks an unused place, whose fame is 0. */
  datatype Rank = Rank(id: int, fame: int)

  // ----- positions and moves -----

  /** ARR_FIND for the player. */
  function PlayerPos(list: seq<Rank>, id: int): (i: nat)
    ensures i <= |list| && (i < |list| ==> list[i].id == id)
    ensures forall j | 0 <= j < i :: list[j].id != id
  {
    if list == [] || list[0].id == id then 0 else 1 + PlayerPos(list[1..], id)
  }

  /** ARR_FIND for the place that the fame deserves. */
  function FamePos(list: seq<Rank>, fame: int): (i: nat)
    ensures i <= |list| && (i < |list| ==> list[i].fame <= fame)
    ensures forall j | 0 <= j < i :: list[j].fame > fame
  {
    if list == [] || list[0].fame <= fame then 0 else 1 + FamePos(list[1..], fame)
  }

  /** ARR_MOVE: the entry goes to another place and those in between shift by one. */
  function Moved(list: seq<Rank>, from: nat, to: nat): seq<Rank>
    requires from < |list| && to < |list|
  {
    if from < to then list[..from] + list[from + 1..to + 1] + [list[from]] + list[to + 1..]
    else list[..to] + [list[from]] + list[to..from] + list[from + 1..]
  }

  /** `chmapif_parse_updfamelist`. */
  function Updated(list: seq<Rank>, id: int, fame: int): seq<Rank> {
    var player, place := PlayerPos(list, id), FamePos(list, fame);
    if player == |list| && place == |list| then list
    else if player == |list| then Moved(list, |list| - 1, place)[place := Rank(id, fame)]
    else if place == |list| then
      Moved(list, player, |list| - 1)[|list| - 1 := Rank(list[player].id, fame)]
    else Moved(list, player, place)[place := Rank(list[player].id, fame)]
  }

  // ----- the ranking and all players -----

  predicate Sorted(list: seq<Rank>) {
    forall i, j | 0 <= i < j < |list| :: list[i].fame >= list[j].fame
  }

  predicate UniqueIds(list: seq<Rank>) {
    forall i, j | 0 <= i < j < |list| :: list[i].id == list[j].id ==> list[i].id == 0
  }

  /** The list ranks the players whose latest fames are given: it is sorted, each entry shows
      its player's latest fame, and nobody outside has more fame than anybody inside. */
  predicate Ranks(list: seq<Rank>, latest: map<int, int>) {
    && Sorted(list) && UniqueIds(list)
    && (forall i | 0 <= i < |list| ::
          if list[i].id == 0 then list[i].fame == 0
          else list[i].id in latest && list[i].fame == latest[list[i].id])
    && (forall id | id in latest :: id != 0 && latest[id] > 0)
    && (forall id, i | id in latest && 0 <= i < |list| ::
          PlayerPos(list, id) == |list| ==> latest[id] <= list[i].fame)
  }

  /** The list with a new entry at `place` instead of the one at `gone`, behind it. */
  function Promoted(list: seq<Rank>, place: nat, gone: nat, r: Rank): seq<Rank>
    requires place <= gone < |list|
  {
    list[..place] + [r] + list[place..gone] + list[gone + 1..]
  }

  lemma PromotedAt(list: seq<Rank>, place: nat, gone: nat, r: Rank, k: nat)
    requires place <= gone < |list| && k < |list|
    ensures |Promoted(list, place, gone, r)| == |list|
    ensures Promoted(list, place, gone, r)[k] ==
            if k == place then r else if place < k <= gone then list[k - 1] else list[k]
  {
  }

  /** An update that does not lower the player's fame promotes the player. */
  lemma UpdateIsPromotion(list: seq<Rank>, id: int, fame: int)
    requires var p := PlayerPos(list, id); p < |list| ==> list[p].fame <= fame
    requires FamePos(list, fame) < |list|
    ensures var p, f := PlayerPos(list, id), FamePos(list, fame);
            var gone := if p < |list| then p else |list| - 1;
            f <= gone && Updated(list, id, fame) == Promoted(list, f, gone, Rank(id, fame))
  {
    var p, f := PlayerPos(list, id), FamePos(list, fame);
    var gone := if p < |list| then p else |list| - 1;
    var u, q := Updated(list, id, fame), Promoted(list, f, gone, Rank(id, fame));
    assert |u| == |q|;
    forall k | 0 <= k < |u| ensures u[k] == q[k] {
      PromotedAt(list, f, gone, Rank(id, fame), k);
    }
  }

  lemma PromotedSorted(list: seq<Rank>, place: nat, gone: nat, r: Rank)
    requires place <= gone < |list| && Sorted(list)
    requires list[place].fame <= r.fame && forall j | 0 <= j < place :: list[j].fame > r.fame
    ensures Sorted(Promoted(list, place, gone, r))
  {
    var q := Promoted(list, place, gone, r);
    forall i, j | 0 <= i < j < |q| ensures q[i].fame >= q[j].fame {
      PromotedAt(list, place, gone, r, i);
      PromotedAt(list, place, gone, r, j);
    }
  }

  lemma PromotedUnique(list: seq<Rank>, place: nat, gone: nat, r: Rank)
    requires place <= gone < |list| && UniqueIds(list)
    requires forall j | 0 <= j < |list| && j != gone :: list[j].id != r.id
    ensures UniqueIds(Promoted(list, place, gone, r))
  {
    var q := Promoted(list, place, gone, r);
    forall i, j | 0 <= i < j < |q| && q[i].id == q[j].id ensures q[i].id == 0 {
      PromotedAt(list, place, gone, r, i);
      PromotedAt(list, place, gone, r, j);
    }
  }

  /** Somebody outside the new list was outside before, or is the one who had to go. */
  lemma OutsidePromoted(list: seq<Rank>, place: nat, gone: nat, r: Rank, id: int)
    requires place <= gone < |list| && PlayerPos(Promoted(list, place, gone, r), id) == |list|
    ensures id != r.id
    ensures PlayerPos(list, id) == |list| || PlayerPos(list, id) == gone
  {
    PromotedAt(list, place, gone, r, place);
    var p := PlayerPos(list, id);
    if p < |list| && p != gone {
      PromotedAt(list, place, gone, r, if place <= p < gone then p + 1 else p);
    }
  }

  lemma OthersElsewhere(list: seq<Rank>, id: int, gone: nat)
    requires id != 0 && UniqueIds(list) && gone < |list|
    requires var p := PlayerPos(list, id); gone == if p < |list| then p else |list| - 1
    ensures forall j | 0 <= j < |list| && j != gone :: list[j].id != id
  {
    forall j | 0 <= j < |list| && j != gone ensures list[j].id != id {
      var p := PlayerPos(list, id);
      if p < |list| {
        assert p == gone;
        assert j < p || list[p].id == list[j].id ==> list[p].id == 0 || j < p;
      }
    }
  }

  lemma PromotedEntries(list: seq<Rank>, latest: map<int, int>, place: nat, gone: nat, r: Rank)
    requires Ranks(list, latest) && place <= gone < |list| && r.id != 0
    requires forall j | 0 <= j < |list| && j != gone :: list[j].id != r.id
    ensures forall i | 0 <= i < |Promoted(list, place, gone, r)| ::
              var e := Promoted(list, place, gone, r)[i];
              if e.id == 0 then e.fame == 0
              else e.id in latest[r.id := r.fame] && e.fame == latest[r.id := r.fame][e.id]
  {
    forall i | 0 <= i < |list|
      ensures var e := Promoted(list, place, gone, r)[i];
              if e.id == 0 then e.fame == 0
              else e.id in latest[r.id := r.fame] && e.fame == latest[r.id := r.fame][e.id]
    {
      PromotedAt(list, place, gone, r, i);
    }
  }

  /** A promotion ranks the players with the new fame. */
  lemma PromotedRanks(list: seq<Rank>, latest: map<int, int>, place: nat, gone: nat, r: Rank)
    requires Ranks(list, latest) && place <= gone < |list| && r.id != 0 && r.fame > 0
    requires forall j | 0 <= j < |list| && j != gone :: list[j].id != r.id
    requires list[gone].id == r.id || gone == |list| - 1
    requires list[place].fame <= r.fame && forall j | 0 <= j < place :: list[j].fame > r.fame
    ensures Ranks(Promoted(list, place, gone, r), latest[r.id := r.fame])
  {
    var q := Promoted(list, place, gone, r);
    PromotedSorted(list, place, gone, r);
    PromotedUnique(list, place, gone, r);
    PromotedEntries(list, latest, place, gone, r);
    forall b, i | b in latest[r.id := r.fame] && 0 <= i < |q| && PlayerPos(q, b) == |q|
      ensures latest[r.id := r.fame][b] <= q[i].fame
    {
      OutsideIsLess(list, latest, place, gone, r, b, i);
    }
  }

  /** An update that does not lower a positive fame keeps the ranking right. */
  lemma UpdateKeepsRanking(list: seq<Rank>, latest: map<int, int>, id: int, fame: int)
    requires Ranks(list, latest) && id != 0 && fame > 0 && (id in latest ==> latest[id] <= fame)
    ensures Ranks(Updated(list, id, fame), latest[id := fame])
    ensures |Updated(list, id, fame)| == |list|
  {
    var p, f := PlayerPos(list, id), FamePos(list, fame);
    if f < |list| {
      var gone := if p < |list| then p else |list| - 1;
      UpdateIsPromotion(list, id, fame);
      OthersElsewhere(list, id, gone);
      PromotedRanks(list, latest, f, gone, Rank(id, fame));
    } else {
      AllAbove(list, latest, id, fame);
    }
  }

  /** Too little fame to get on the list. */
  lemma AllAbove(list: seq<Rank>, latest: map<int, int>, id: int, fame: int)
    requires Ranks(list, latest) && id != 0 && fame > 0 && (id in latest ==> latest[id] <= fame)
    requires FamePos(list, fame) == |list|
    ensures PlayerPos(list, id) == |list| && Ranks(list, latest[id := fame])
  {
    assert forall j | 0 <= j < |list| :: list[j].fame > fame;
  }

  lemma OutsideIsLess(list: seq<Rank>, latest: map<int, int>, place: nat, gone: nat, r: Rank, b: int, i: nat)
    requires Ranks(list, latest) && place <= gone < |list| && list[place].fame <= r.fame
    requires i < |list| && (b in latest || b == r.id) && (list[gone].id == r.id || gone == |list| - 1)
    requires PlayerPos(Promoted(list, place, gone, r), b) == |list|
    ensures b in latest && b != r.id && latest[b] <= Promoted(list, place, gone, r)[i].fame
  {
    OutsidePromoted(list, place, gone, r, b);
    PromotedAt(list, place, gone, r, i);
    if PlayerPos(list, b) == gone {
      assert list[gone].fame == latest[b];
    } else {
      assert latest[b] <= list[place].fame;
    }
  }

  // ----- any number of updates -----

  datatype Update = Update(id: int, fame: int)

  function UpdateAll(list: seq<Rank>, updates: seq<Update>): seq<Rank> {
    if updates == [] then list
    else
      var last := updates[|updates| - 1];
      Updated(UpdateAll(list, updates[..|updates| - 1]), last.id, last.fame)
  }

  function LatestAfter(latest: map<int, int>, updates: seq<Update>): map<int, int> {
    if updates == [] then latest
    else
      var last := updates[|updates| - 1];
      LatestAfter(latest, updates[..|updates| - 1])[last.id := last.fame]
  }

  /** Every update gives a player a positive fame that is not below the one before. */
  predicate NeverLower(latest: map<int, int>, updates: seq<Update>) {
    updates == [] ||
    (var before, last := updates[..|updates| - 1], updates[|updates| - 1];
     && NeverLower(latest, before) && last.id != 0 && last.fame > 0
     && (last.id in LatestAfter(latest, before) ==> LatestAfter(latest, before)[last.id] <= last.fame))
  }

  /** After any updates that never lower a fame the list ranks the latest fames. */
  lemma {:induction false} RankingStaysRight(list: seq<Rank>, latest: map<int, int>, updates: seq<Update>)
    requires Ranks(list, latest) && NeverLower(latest, updates)
    ensures Ranks(UpdateAll(list, updates), LatestAfter(latest, updates))
    ensures |UpdateAll(list, updates)| == |list|
  {
    if updates != [] {
      var before, last := updates[..|updates| - 1], updates[|updates| - 1];
      RankingStaysRight(list, latest, before);
      UpdateKeepsRanking(UpdateAll(list, before), LatestAfter(latest, before), last.id, last.fame);
    }
  }

  /** A ranking without free places is full of the most famous: at most as many players as it
      has places are more famous than its last. */
  lemma RankedAreMostFamous(list: seq<Rank>, latest: map<int, int>, id: int)
    requires Ranks(list, latest) && list != [] && id in latest && latest[id] > list[|list| - 1].fame
    ensures PlayerPos(list, id) < |list| && list[PlayerPos(list, id)].fame == latest[id]
  {
    var last := |list| - 1;
    assert list[last].fame < latest[id];
  }

  /** What any update, also one that lowers a fame, does to the order: it stays sorted unless
      the player moves down behind somebody with less fame. */
  lemma UpdateSortedIff(list: seq<Rank>, id: int, fame: int)
    requires Sorted(list)
    ensures var p, f := PlayerPos(list, id), FamePos(list, fame);
            Sorted(Updated(list, id, fame)) <==>
              !(p < f < |list| && list[f].fame < fame)
  {
    var p, f := PlayerPos(list, id), FamePos(list, fame);
    if p < f < |list| {
      MovedDownSortedIff(list, p, f, fame);
    } else if p < |list| && f == |list| {
      MovedLastSorted(list, p, fame);
    } else if f < |list| {
      UpdateIsPromotion(list, id, fame);
      PromotedSorted(list, f, if p < |list| then p else |list| - 1, Rank(id, fame));
    }
  }

  /** The player lands on the place that the fame deserves, and who was there moves in front. */
  lemma MovedDownSortedIff(list: seq<Rank>, p: nat, f: nat, fame: int)
    requires Sorted(list) && p < f < |list| && list[f].fame <= fame
    ensures Sorted(Moved(list, p, f)[f := Rank(list[p].id, fame)]) <==> list[f].fame == fame
  {
    var u := Moved(list, p, f)[f := Rank(list[p].id, fame)];
    if list[f].fame == fame {
      MovedDownSorted(list, p, f, fame);
    } else {
      MovedDownAt(list, p, f, fame, f - 1);
      MovedDownAt(list, p, f, fame, f);
      assert u[f - 1].fame < u[f].fame;
    }
  }

  lemma MovedDownSorted(list: seq<Rank>, p: nat, f: nat, fame: int)
    requires Sorted(list) && p < f < |list| && list[f].fame == fame
    ensures Sorted(Moved(list, p, f)[f := Rank(list[p].id, fame)])
  {
    var u := Moved(list, p, f)[f := Rank(list[p].id, fame)];
    forall i, j | 0 <= i < j < |u| ensures u[i].fame >= u[j].fame {
      MovedDownAt(list, p, f, fame, i);
      MovedDownAt(list, p, f, fame, j);
    }
  }

  lemma MovedLastSorted(list: seq<Rank>, p: nat, fame: int)
    requires Sorted(list) && p < |list| && FamePos(list, fame) == |list|
    ensures Sorted(Moved(list, p, |list| - 1)[|list| - 1 := Rank(list[p].id, fame)])
  {
    var u := Moved(list, p, |list| - 1)[|list| - 1 := Rank(list[p].id, fame)];
    forall i, j | 0 <= i < j < |u| ensures u[i].fame >= u[j].fame {
      MovedDownAt(list, p, |list| - 1, fame, i);
      MovedDownAt(list, p, |list| - 1, fame, j);
    }
  }

  lemma MovedDownAt(list: seq<Rank>, from: nat, to: nat, fame: int, k: nat)
    requires from <= to < |list| && k < |list|
    ensures |Moved(list, from, to)| == |list|
    ensures Moved(list, from, to)[to := Rank(list[from].id, fame)][k] ==
            if k == to then Rank(list[from].id, fame) else if from <= k < to then list[k + 1] else list[k]
  {
  }

  // ----- in place -----

  /** Place `j` once the entries behind `from` up to `to` have moved one place forward. */
  function Forward(list: seq<Rank>, from: nat, to: nat, j: nat): Rank
    requires from <= to < |list| && j < |list|
  {
    if from <= j < to then list[j + 1] else list[j]
  }

  /** Place `j` once the entries from `to` up to `from` have moved one place back. */
  function Back(list: seq<Rank>, to: nat, from: nat, j: nat): Rank
    requires to <= from < |list| && j < |list|
  {
    if to < j <= from then list[j - 1] else list[j]
  }

  function MovedEntryAt(list: seq<Rank>, from: nat, to: nat, k: nat): Rank
    requires from < |list| && to < |list| && k < |list|
  {
    if k == to then list[from]
    else if from < to then Forward(list, from, to, k)
    else Back(list, to, from, k)
  }

  class FameList {
    const list: array<Rank>

    ghost function Ranking(): seq<Rank>
      reads list
    {
      list[..]
    }

    /** A list with no entries yet. */
    constructor (size: nat)
      ensures fresh(list) && list.Length == size && Ranks(Ranking(), map[])
    {
      list := new Rank[size](_ => Rank(0, 0));
    }

    method FindPlayer(id: int) returns (i: nat)
      ensures i == PlayerPos(Ranking(), id)
    {
      i := 0;
      while i < list.Length && list[i].id != id
        invariant 0 <= i <= list.Length && forall j | 0 <= j < i :: list[j].id != id
      {
        i := i + 1;
      }
      PlayerPosIs(Ranking(), id, i);
    }

    method FindPlace(fame: int) returns (i: nat)
      ensures i == FamePos(Ranking(), fame)
    {
      i := 0;
      while i < list.Length && list[i].fame > fame
        invariant 0 <= i <= list.Length && forall j | 0 <= j < i :: list[j].fame > fame
      {
        i := i + 1;
      }
      FamePosIs(Ranking(), fame, i);
    }

    /** The entries behind `from` up to `to` move one place forward. */
    method ShiftForward(from: nat, to: nat)
      requires from <= to < list.Length
      modifies list
      ensures forall j | 0 <= j < list.Length ::
        list[j] == Forward(old(Ranking()), from, to, j)
    {
      ghost var was := Ranking();
      for k := from to to
        invariant forall j | 0 <= j < list.Length :: list[j] == Forward(was, from, k, j)
      {
        list[k] := list[k + 1];
      }
    }

    /** The entries from `to` up to `from` move one place back. */
    method ShiftBack(from: nat, to: nat)
      requires to <= from < list.Length
      modifies list
      ensures forall j | 0 <= j < list.Length ::
        list[j] == Back(old(Ranking()), to, from, j)
    {
      ghost var was := Ranking();
      for k := from downto to
        invariant forall j | 0 <= j < list.Length :: list[j] == Back(was, k, from, j)
      {
        list[k + 1] := list[k];
      }
    }

    /** ARR_MOVE. */
    method Move(from: nat, to: nat)
      requires from < list.Length && to < list.Length
      modifies list
      ensures Ranking() == Moved(old(Ranking()), from, to)
    {
      ghost var was := Ranking();
      var backup := list[from];
      if from < to {
        ShiftForward(from, to);
        list[to] := backup;
      } else if from > to {
        ShiftBack(from, to);
        list[to] := backup;
      }
      MovedIs(was, from, to, Ranking());
    }

    /** `chmapif_parse_updfamelist`. */
    method Update(id: int, fame: int)
      modifies list
      ensures Ranking() == Updated(old(Ranking()), id, fame)
    {
      ghost var was := Ranking();
      var size := list.Length;
      var player := FindPlayer(id);
      var place := FindPlace(fame);
      if player == size && place == size {
      } else if place == player {
        list[player] := list[player].(fame := fame);
        StaysInPlace(was, player);
      } else if player == size {
        Enter(place, id, fame);
      } else {
        if place == size {
          place := place - 1;
        }
        MoveAndSet(player, place, fame);
      }
    }

    /** The last entry gives way to a new one at the given place. */
    method Enter(place: nat, id: int, fame: int)
      requires place < list.Length
      modifies list
      ensures Ranking() == Moved(old(Ranking()), list.Length - 1, place)[place := Rank(id, fame)]
    {
      MovedEntry(Ranking(), list.Length - 1, place);
      Move(list.Length - 1, place);
      list[place] := Rank(id, fame);
    }

    /** Moves an entry and gives it another fame. */
    method MoveAndSet(from: nat, to: nat, fame: int)
      requires from < list.Length && to < list.Length
      modifies list
      ensures Ranking() == Moved(old(Ranking()), from, to)[to := Rank(old(list[from].id), fame)]
    {
      ghost var was := Ranking();
      Move(from, to);
      MovedEntry(was, from, to);
      list[to] := list[to].(fame := fame);
    }
  }

  lemma StaysInPlace(list: seq<Rank>, place: nat)
    requires place < |list|
    ensures Moved(list, place, place) == list
  {
  }

  lemma MovedEntry(list: seq<Rank>, from: nat, to: nat)
    requires from < |list| && to < |list|
    ensures |Moved(list, from, to)| == |list| && Moved(list, from, to)[to] == list[from]
  {
    MovedAt(list, from, to, to);
  }

  /** Where the entries go, place by place. */
  lemma MovedAt(list: seq<Rank>, from: nat, to: nat, k: nat)
    requires from < |list| && to < |list| && k < |list|
    ensures |Moved(list, from, to)| == |list|
    ensures Moved(list, from, to)[k] == MovedEntryAt(list, from, to, k)
  {
  }

  lemma MovedIs(was: seq<Rank>, from: nat, to: nat, now: seq<Rank>)
    requires from < |was| && to < |was| && |now| == |was|
    requires forall k | 0 <= k < |was| :: now[k] == MovedEntryAt(was, from, to, k)
    ensures now == Moved(was, from, to)
  {
    var m := Moved(was, from, to);
    forall k | 0 <= k < |was| ensures now[k] == m[k] {
      MovedAt(was, from, to, k);
    }
    assert |m| == |was|;
  }

  lemma {:induction false} PlayerPosIs(list: seq<Rank>, id: int, i: nat)
    requires i <= |list| && (i < |list| ==> list[i].id == id)
    requires forall j | 0 <= j < i :: list[j].id != id
    ensures PlayerPos(list, id) == i
  {
  }

  lemma {:induction false} FamePosIs(list: seq<Rank>, fame: int, i: nat)
    requires i <= |list| && (i < |list| ==> list[i].fame <= fame)
    requires forall j | 0 <= j < i :: list[j].fame > fame
    ensures FamePos(list, fame) == i
  {
  }
}
