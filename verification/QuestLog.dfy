/** Saving a character's quest log: rows are updated, inserted and deleted only where it differs
    from what is stored, and the list of stored quests is used up on the way. */
module QuestLog {
  import opened Wrappers

  const MAX_QUEST_OBJECTIVES := 3

  /** What a row holds besides the quest's id. */
  datatype Progress = Progress(time: int, count: seq<int>, state: int)

  datatype Quest = Quest(id: int, progress: Progress)

  /** The statements that change the table. */
  datatype Statement = Insert(quest: Quest) | Update(id: int, count: seq<int>, state: int) | Delete(id: int)

  predicate QuestsOk(quests: seq<Quest>) {
    && (forall i | 0 <= i < |quests| :: |quests[i].progress.count| == MAX_QUEST_OBJECTIVES)
    && (forall i, j | 0 <= i < j < |quests| :: quests[i].id != quests[j].id)
  }

  predicate RowsOk(rows: map<int, Progress>) {
    forall id | id in rows :: |rows[id].count| == MAX_QUEST_OBJECTIVES
  }

  predicate Submitted(quests: seq<Quest>, id: int) {
    exists i | 0 <= i < |quests| :: quests[i].id == id
  }

  /** The quest's row after the save: the stored time stays. */
  function SavedRow(before: map<int, Progress>, q: Quest): Progress {
    if q.id in before then q.progress.(time := before[q.id].time) else q.progress
  }

  /** The rows are those of the submitted quests, and no others. */
  predicate SavedAs(rows: map<int, Progress>, before: map<int, Progress>, quests: seq<Quest>) {
    && (forall i | 0 <= i < |quests| :: quests[i].id in rows && rows[quests[i].id] == SavedRow(before, quests[i]))
    && (forall id | id in rows :: Submitted(quests, id))
  }

  /** What is stored already needs no statement. */
  predicate UpToDate(before: map<int, Progress>, q: Quest) {
    q.id in before && before[q.id].count == q.progress.count && before[q.id].state == q.progress.state
  }

  /** A statement is issued for what it changes, and nothing else. */
  predicate StatementOk(before: map<int, Progress>, quests: seq<Quest>, s: Statement) {
    match s
    case Insert(q) => q in quests && q.id !in before
    case Update(id, count, state) =>
      exists i | 0 <= i < |quests| ::
        quests[i].id == id && id in before && !UpToDate(before, quests[i])
        && count == quests[i].progress.count && state == quests[i].progress.state
    case Delete(id) => id in before && !Submitted(quests, id)
  }

  predicate SubmittedBefore(quests: seq<Quest>, i: nat, id: int)
    requires i <= |quests|
  {
    exists k | 0 <= k < i :: quests[k].id == id
  }

  /** The list holds the stored quests that are not among the first `i` submitted, each once. */
  ghost predicate Left(list: seq<Quest>, before: map<int, Progress>, quests: seq<Quest>, i: nat)
    requires i <= |quests|
  {
    && (forall k | 0 <= k < |list| ::
          list[k].id in before && list[k].progress == before[list[k].id] && !SubmittedBefore(quests, i, list[k].id))
    && (forall j, k | 0 <= j < k < |list| :: list[j].id != list[k].id)
    && (forall id | id in before && !SubmittedBefore(quests, i, id) :: exists k | 0 <= k < |list| :: list[k].id == id)
  }

  /** The first `i` submitted quests are saved, all other rows are as they were. */
  ghost predicate Partly(rows: map<int, Progress>, before: map<int, Progress>, quests: seq<Quest>, i: nat)
    requires i <= |quests|
  {
    && (forall k | 0 <= k < i :: quests[k].id in rows && rows[quests[k].id] == SavedRow(before, quests[k]))
    && (forall id | id in before && !SubmittedBefore(quests, i, id) :: id in rows && rows[id] == before[id])
    && (forall id | id in rows :: id in before || SubmittedBefore(quests, i, id))
  }

  class QuestTable {
    var rows: map<int, Progress>       // the character's rows of the quest table
    ghost var log: seq<Statement>

    method InsertRow(q: Quest)
      modifies this
      ensures rows == old(rows)[q.id := q.progress] && log == old(log) + [Insert(q)]
    {
      rows := rows[q.id := q.progress];
      log := log + [Insert(q)];
    }

    /** `mapif_quest_update` leaves the time alone. */
    method UpdateRow(q: Quest)
      requires q.id in rows
      modifies this
      ensures rows == old(rows)[q.id := q.progress.(time := old(rows)[q.id].time)]
      ensures log == old(log) + [Update(q.id, q.progress.count, q.progress.state)]
    {
      rows := rows[q.id := rows[q.id].(count := q.progress.count, state := q.progress.state)];
      log := log + [Update(q.id, q.progress.count, q.progress.state)];
    }

    method DeleteRow(id: int)
      modifies this
      ensures rows == old(rows) - {id} && log == old(log) + [Delete(id)]
    {
      rows := rows - {id};
      log := log + [Delete(id)];
    }
  }

  /** ARR_FIND among the stored quests that are left. */
  method FindStored(list: array<Quest>, n: nat, id: int) returns (j: nat)
    requires n <= list.Length
    ensures j <= n && (j < n ==> list[j].id == id)
    ensures forall k | 0 <= k < j :: list[k].id != id
  {
    j := 0;
    while j < n && list[j].id != id
      invariant 0 <= j <= n && forall k | 0 <= k < j :: list[k].id != id
    {
      j := j + 1;
    }
  }

  /** Whether the counts or the state differ. */
  method Differs(a: Progress, b: Progress) returns (differs: bool)
    requires |a.count| == MAX_QUEST_OBJECTIVES && |b.count| == MAX_QUEST_OBJECTIVES
    ensures differs <==> a.count != b.count || a.state != b.state
  {
    var k := 0;
    while k < MAX_QUEST_OBJECTIVES && a.count[k] == b.count[k]
      invariant 0 <= k <= MAX_QUEST_OBJECTIVES && a.count[..k] == b.count[..k]
    {
      k := k + 1;
    }
    assert k == MAX_QUEST_OBJECTIVES ==> a.count == b.count by {
      assert a.count[..MAX_QUEST_OBJECTIVES] == a.count && b.count[..MAX_QUEST_OBJECTIVES] == b.count;
    }
    differs := k != MAX_QUEST_OBJECTIVES || a.state != b.state;
  }

  /** The memmove that takes one entry out of the list. */
  method Compact(list: array<Quest>, j: nat, n: nat)
    requires j < n <= list.Length
    modifies list
    ensures list[..n - 1] == old(list[..j]) + old(list[j + 1..n])
  {
    ghost var was := list[..];
    for k := j to n - 1
      invariant list[..k] == was[..j] + was[j + 1..k + 1] && list[k..] == was[k..]
    {
      assert list[k + 1] == list[k..][1] == was[k + 1];
      list[k] := list[k + 1];
      assert list[..k + 1] == list[..k] + [was[k + 1]];
      assert list[k + 1..] == was[k..][1..];
    }
    assert list[..j] + list[j..n - 1] == list[..n - 1];
  }

  lemma NotBefore(quests: seq<Quest>, i: nat)
    requires QuestsOk(quests) && i < |quests|
    ensures !SubmittedBefore(quests, i, quests[i].id)
    ensures forall id :: SubmittedBefore(quests, i + 1, id) <==> SubmittedBefore(quests, i, id) || id == quests[i].id
  {
    forall id ensures SubmittedBefore(quests, i + 1, id) <==> SubmittedBefore(quests, i, id) || id == quests[i].id {
      if SubmittedBefore(quests, i, id) {
        var k :| 0 <= k < i && quests[k].id == id;
        assert 0 <= k < i + 1;
      }
    }
  }

  lemma TakenOut(list: seq<Quest>, j: nat, k: nat)
    requires j < |list| && k < |list| - 1
    ensures (list[..j] + list[j + 1..])[k] == list[if k < j then k else k + 1]
  {
  }

  /** Taking out the entry of a submitted quest. */
  lemma LeftWithout(list: seq<Quest>, before: map<int, Progress>, quests: seq<Quest>, i: nat, j: nat)
    requires QuestsOk(quests) && i < |quests| && Left(list, before, quests, i)
    requires j < |list| && list[j].id == quests[i].id
    ensures Left(list[..j] + list[j + 1..], before, quests, i + 1)
  {
    NotBefore(quests, i);
    var rest := list[..j] + list[j + 1..];
    forall k | 0 <= k < |rest|
      ensures rest[k].id in before && rest[k].progress == before[rest[k].id]
              && !SubmittedBefore(quests, i + 1, rest[k].id)
    {
      TakenOut(list, j, k);
    }
    forall k, m | 0 <= k < m < |rest| ensures rest[k].id != rest[m].id {
      TakenOut(list, j, k);
      TakenOut(list, j, m);
    }
    forall id | id in before && !SubmittedBefore(quests, i + 1, id)
      ensures exists k | 0 <= k < |rest| :: rest[k].id == id
    {
      var k :| 0 <= k < |list| && list[k].id == id;
      TakenOut(list, j, if k < j then k else k - 1);
    }
  }

  lemma LeftUnchanged(list: seq<Quest>, before: map<int, Progress>, quests: seq<Quest>, i: nat)
    requires QuestsOk(quests) && i < |quests| && Left(list, before, quests, i)
    requires forall k | 0 <= k < |list| :: list[k].id != quests[i].id
    ensures quests[i].id !in before && Left(list, before, quests, i + 1)
  {
    NotBefore(quests, i);
  }

  /** The quest has a row: it is updated if it differs, and the quest leaves the old list. */
  method UpdateStored(table: QuestTable, list: array<Quest>, n: nat, ghost before: map<int, Progress>,
                      quests: seq<Quest>, i: nat, j: nat)
    requires QuestsOk(quests) && RowsOk(before) && i < |quests| && j < n <= list.Length
    requires Left(list[..n], before, quests, i) && Partly(table.rows, before, quests, i)
    requires forall s | s in table.log :: StatementOk(before, quests, s)
    requires list[j].id == quests[i].id
    modifies table, list
    ensures Left(list[..n - 1], before, quests, i + 1) && Partly(table.rows, before, quests, i + 1)
    ensures forall s | s in table.log :: StatementOk(before, quests, s)
  {
    var q := quests[i];
    NotBefore(quests, i);
    assert list[..n][j] == list[j];
    var differs := Differs(q.progress, list[j].progress);
    if differs {
      table.UpdateRow(q);
      assert StatementOk(before, quests, Update(q.id, q.progress.count, q.progress.state));
    }
    LeftWithout(list[..n], before, quests, i, j);
    assert list[..n][..j] == list[..j] && list[..n][j + 1..] == list[j + 1..n];
    Compact(list, j, n);
  }

  /** The quest has no row: it gets one. */
  method InsertNew(table: QuestTable, ghost list: seq<Quest>, ghost before: map<int, Progress>,
                   quests: seq<Quest>, i: nat)
    requires QuestsOk(quests) && RowsOk(before) && i < |quests|
    requires Left(list, before, quests, i) && Partly(table.rows, before, quests, i)
    requires forall s | s in table.log :: StatementOk(before, quests, s)
    requires forall k | 0 <= k < |list| :: list[k].id != quests[i].id
    modifies table
    ensures Left(list, before, quests, i + 1) && Partly(table.rows, before, quests, i + 1)
    ensures forall s | s in table.log :: StatementOk(before, quests, s)
  {
    NotBefore(quests, i);
    LeftUnchanged(list, before, quests, i);
    table.InsertRow(quests[i]);
    assert StatementOk(before, quests, Insert(quests[i]));
  }

  /** One submitted quest: its row is updated if it differs, or inserted. */
  method SaveQuest(table: QuestTable, list: array<Quest>, n: nat, ghost before: map<int, Progress>,
                   quests: seq<Quest>, i: nat) returns (n': nat)
    requires QuestsOk(quests) && RowsOk(before) && i < |quests| && n <= list.Length
    requires Left(list[..n], before, quests, i) && Partly(table.rows, before, quests, i)
    requires forall s | s in table.log :: StatementOk(before, quests, s)
    modifies table, list
    ensures n' <= n && Left(list[..n'], before, quests, i + 1) && Partly(table.rows, before, quests, i + 1)
    ensures forall s | s in table.log :: StatementOk(before, quests, s)
  {
    var j := FindStored(list, n, quests[i].id);
    if j < n {
      UpdateStored(table, list, n, before, quests, i, j);
      n' := n - 1;
    } else {
      InsertNew(table, list[..n], before, quests, i);
      n' := n;
    }
  }

  /** `mapif_parse_quest_save` without SQL errors, for quests with different ids: `stored` are
      the character's rows in the order the SELECT gives.  Afterwards the rows are exactly those
      submitted, with the stored time where there was a row, and only what differs was written. */
  method SaveQuests(table: QuestTable, stored: array<Quest>, quests: seq<Quest>)
    requires QuestsOk(quests) && RowsOk(table.rows) && Left(stored[..], table.rows, quests, 0)
    requires table.log == []
    modifies table, stored
    ensures SavedAs(table.rows, old(table.rows), quests)
    ensures forall i | 0 <= i < |quests| :: quests[i].id in table.rows
              && table.rows[quests[i].id].count == quests[i].progress.count
              && table.rows[quests[i].id].state == quests[i].progress.state
              && table.rows[quests[i].id].time == (if quests[i].id in old(table.rows)
                                                   then old(table.rows)[quests[i].id].time else quests[i].progress.time)
    ensures forall s | s in table.log :: StatementOk(old(table.rows), quests, s)
  {
    ghost var before := table.rows;
    var n: nat := stored.Length;
    assert stored[..n] == stored[..];
    for i := 0 to |quests|
      invariant n <= stored.Length && Left(stored[..n], before, quests, i) && Partly(table.rows, before, quests, i)
      invariant forall s | s in table.log :: StatementOk(before, quests, s)
    {
      n := SaveQuest(table, stored, n, before, quests, i);
    }
    EraseRest(table, stored, n, before, quests);
  }

  /** What is stored but not left in the list was submitted. */
  lemma NotLeft(list: seq<Quest>, before: map<int, Progress>, quests: seq<Quest>, id: int)
    requires Left(list, before, quests, |quests|) && (id in before || SubmittedBefore(quests, |quests|, id))
    requires forall k | 0 <= k < |list| :: list[k].id != id
    ensures Submitted(quests, id)
  {
  }

  /** Stored quests that were not submitted are erased. */
  method EraseRest(table: QuestTable, stored: array<Quest>, n: nat, ghost before: map<int, Progress>,
                   quests: seq<Quest>)
    requires n <= stored.Length && Left(stored[..n], before, quests, |quests|)
    requires Partly(table.rows, before, quests, |quests|)
    requires forall s | s in table.log :: StatementOk(before, quests, s)
    modifies table
    ensures SavedAs(table.rows, before, quests)
    ensures forall s | s in table.log :: StatementOk(before, quests, s)
  {
    ghost var was := table.rows;
    ghost var list := stored[..n];
    for i := 0 to n
      invariant forall id | id in table.rows :: id in was && table.rows[id] == was[id]
      invariant forall id | id in was :: id in table.rows || !SubmittedBefore(quests, |quests|, id)
      invariant forall k | 0 <= k < i :: list[k].id !in table.rows
      invariant forall s | s in table.log :: StatementOk(before, quests, s)
    {
      assert stored[i] == list[i];
      table.DeleteRow(stored[i].id);
      assert StatementOk(before, quests, Delete(list[i].id));
    }
    forall id | id in table.rows ensures Submitted(quests, id) {
      NotLeft(list, before, quests, id);
    }
    forall i | 0 <= i < |quests| ensures quests[i].id in table.rows {
      assert SubmittedBefore(quests, |quests|, quests[i].id);
    }
  }

  /** With different ids the outcome is unique: the table holds a single row for each. */
  lemma SavedIsUnique(a: map<int, Progress>, b: map<int, Progress>, before: map<int, Progress>, quests: seq<Quest>)
    requires SavedAs(a, before, quests) && SavedAs(b, before, quests)
    ensures a == b
  {
    forall id | id in a ensures id in b && a[id] == b[id] {
      var i :| 0 <= i < |quests| && quests[i].id == id;
      assert quests[i].id in b;
    }
    forall id | id in b ensures id in a {
      var i :| 0 <= i < |quests| && quests[i].id == id;
      assert quests[i].id in a;
    }
  }
}
