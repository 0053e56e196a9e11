/** Saving items: the rows of the owner's table are brought in line with the items in memory by
    updating, deleting and inserting only what differs. */
module ItemStorage {
  import opened Wrappers

  const MAX_SLOTS := 4
  const MAX_ITEM_RDM_OPT := 5

  datatype RandomOption = RandomOption(id: int, value: int, param: int)

  /** `item`; a nameid of 0 marks an empty place. */
  datatype Item = Item(
    nameid: int, amount: int, equip: int, identify: int, refine: int, attribute: int, expireTime: int,
    bound: int, uniqueId: int, enchantgrade: int, cards: seq<int>, options: seq<RandomOption>,
    favorite: int, equipSwitch: int)

  predicate ItemOk(item: Item) {
    |item.cards| == MAX_SLOTS && |item.options| == MAX_ITEM_RDM_OPT
  }

  /** A row of an item table. */
  datatype Row = Row(owner: int, item: Item)

  /** The part of an item that the table has columns for; only the inventory keeps the last two. */
  function Stored(item: Item, inventory: bool): Item {
    if inventory then item else item.(favorite := 0, equipSwitch := 0)
  }

  /** What the UPDATE makes of a row; it leaves the column for the nameid alone. */
  function Overwritten(row: Item, item: Item, inventory: bool): Item {
    var r := row.(amount := item.amount, equip := item.equip, identify := item.identify, refine := item.refine,
                  attribute := item.attribute, expireTime := item.expireTime, bound := item.bound,
                  uniqueId := item.uniqueId, enchantgrade := item.enchantgrade, cards := item.cards,
                  options := item.options);
    if inventory then r.(favorite := item.favorite, equipSwitch := item.equipSwitch) else r
  }

  /** "They are the same item." */
  predicate SameItem(a: Item, b: Item)
    requires ItemOk(a) && ItemOk(b)
  {
    && a.nameid == b.nameid && a.uniqueId == b.uniqueId
    && a.cards[0] == b.cards[0] && a.cards[2] == b.cards[2] && a.cards[3] == b.cards[3]
  }

  /** The UPDATE of a row of the same item stores the whole item. */
  lemma OverwrittenIsStored(row: Item, item: Item, inventory: bool)
    requires ItemOk(row) && ItemOk(item) && SameItem(item, row) && Stored(row, inventory) == row
    ensures Overwritten(row, item, inventory) == Stored(item, inventory)
  {
  }

  predicate TableOk(rows: map<int, Row>, inventory: bool) {
    forall id | id in rows :: ItemOk(rows[id].item) && Stored(rows[id].item, inventory) == rows[id].item
  }

  /** The order lists the owner's rows, each once. */
  ghost predicate Lists(order: seq<int>, rows: map<int, Row>, owner: int) {
    && (forall i, j | 0 <= i < j < |order| :: order[i] != order[j])
    && (forall id :: id in order <==> id in rows && rows[id].owner == owner)
  }

  /** Where each item is stored: in a row of its own, with all that the table has columns for;
      `NO_ROW` is for empty places. */
  const NO_ROW := -1

  ghost predicate StoredIn(items: seq<Item>, rowOf: seq<int>, rows: map<int, Row>, owner: int, inventory: bool) {
    && |rowOf| == |items|
    && (forall i | 0 <= i < |items| :: rowOf[i] == NO_ROW <==> items[i].nameid == 0)
    && (forall i | 0 <= i < |items| && rowOf[i] != NO_ROW ::
          rowOf[i] in rows && rows[rowOf[i]] == Row(owner, Stored(items[i], inventory)))
    && (forall i, j | 0 <= i < j < |items| && rowOf[i] != NO_ROW :: rowOf[i] != rowOf[j])
    && (forall id | id in rows && rows[id].owner == owner :: id in rowOf)
  }

  /** What the loop over the rows has achieved for those listed before `k`. */
  ghost predicate Synced(rows: map<int, Row>, items: seq<Item>, flag: seq<bool>, rowOf: seq<int>,
                         order: seq<int>, k: nat, before: map<int, Row>, owner: int, inventory: bool)
    requires k <= |order|
  {
    && |flag| == |rowOf| == |items|
    && (forall i | 0 <= i < |items| :: flag[i] <==> rowOf[i] != NO_ROW)
    && (forall i | 0 <= i < |items| && flag[i] ::
          && items[i].nameid != 0 && rowOf[i] in order[..k] && rowOf[i] in before && rowOf[i] in rows
          && rows[rowOf[i]] == Row(owner, Stored(items[i], inventory))
          && ItemOk(items[i]) && ItemOk(before[rowOf[i]].item) && SameItem(items[i], before[rowOf[i]].item))
    && (forall i, j | 0 <= i < j < |items| && flag[i] :: rowOf[i] != rowOf[j])
    && (forall id | id in rows :: id in before)
    && (forall id | id in before && id !in order[..k] :: id in rows && rows[id] == before[id])
    && (forall id | id in rows && id in order[..k] :: id in rowOf)
  }

  lemma NextRow(order: seq<int>, k: nat, before: map<int, Row>, owner: int)
    requires k < |order| && Lists(order, before, owner)
    ensures order[k] in before && order[k] !in order[..k] && order[..k + 1] == order[..k] + [order[k]]
  {
    assert order[k] in order;
  }

  /** The next row becomes that of item `i`. */
  lemma RowMatched(rows: map<int, Row>, items: seq<Item>, flag: seq<bool>, rowOf: seq<int>, order: seq<int>,
                   k: nat, before: map<int, Row>, owner: int, inventory: bool, i: nat)
    requires k < |order| && Lists(order, before, owner)
    requires Synced(rows, items, flag, rowOf, order, k, before, owner, inventory)
    requires i < |items| && !flag[i] && items[i].nameid != 0 && NO_ROW !in rows && order[k] >= 0
    requires ItemOk(items[i]) && ItemOk(before[order[k]].item) && SameItem(items[i], before[order[k]].item)
    ensures Synced(rows[order[k] := Row(owner, Stored(items[i], inventory))], items, flag[i := true],
                   rowOf[i := order[k]], order, k + 1, before, owner, inventory)
  {
    NextRow(order, k, before, owner);
    var id := order[k];
    var rows', rowOf' := rows[id := Row(owner, Stored(items[i], inventory))], rowOf[i := id];
    forall n | n in rows' && n in order[..k + 1] ensures n in rowOf' {
      if n == id {
        assert rowOf'[i] == n;
      } else {
        var j :| 0 <= j < |rowOf| && rowOf[j] == n;
        assert rowOf'[j] == n;
      }
    }
  }

  /** No item matches the next row. */
  lemma RowUnmatched(rows: map<int, Row>, items: seq<Item>, flag: seq<bool>, rowOf: seq<int>, order: seq<int>,
                     k: nat, before: map<int, Row>, owner: int, inventory: bool)
    requires k < |order| && Lists(order, before, owner)
    requires Synced(rows, items, flag, rowOf, order, k, before, owner, inventory)
    ensures Synced(rows - {order[k]}, items, flag, rowOf, order, k + 1, before, owner, inventory)
  {
    NextRow(order, k, before, owner);
  }

  class ItemTable {
    var rows: map<int, Row>
    var nextId: nat            // AUTO_INCREMENT

    ghost predicate Valid(inventory: bool)
      reads this
    {
      TableOk(rows, inventory) && forall id | id in rows :: 0 <= id < nextId
    }

    /** The place of the first item that is not empty, not matched and the same as the row's. */
    method FindMatch(items: seq<Item>, flag: array<bool>, item: Item) returns (i: nat)
      requires flag.Length == |items| && ItemOk(item) && forall k | 0 <= k < |items| :: ItemOk(items[k])
      ensures i <= |items|
      ensures i < |items| ==> items[i].nameid != 0 && !flag[i] && SameItem(items[i], item)
      ensures forall k | 0 <= k < i :: items[k].nameid == 0 || flag[k] || !SameItem(items[k], item)
    {
      i := 0;
      while i < |items| && (items[i].nameid == 0 || flag[i] || !SameItem(items[i], item))
        invariant 0 <= i <= |items|
        invariant forall k | 0 <= k < i :: items[k].nameid == 0 || flag[k] || !SameItem(items[k], item)
      {
        i := i + 1;
      }
    }

    /** The comparison that saves an UPDATE. */
    method Unchanged(a: Item, b: Item, inventory: bool) returns (same: bool)
      requires ItemOk(a) && ItemOk(b) && SameItem(a, b) && Stored(b, inventory) == b
      ensures same <==> Stored(a, inventory) == b
    {
      var j := 0;
      while j < MAX_SLOTS && a.cards[j] == b.cards[j]
        invariant 0 <= j <= MAX_SLOTS && forall i | 0 <= i < j :: a.cards[i] == b.cards[i]
      {
        j := j + 1;
      }
      var k := 0;
      while k < MAX_ITEM_RDM_OPT && a.options[k] == b.options[k]
        invariant 0 <= k <= MAX_ITEM_RDM_OPT && forall i | 0 <= i < k :: a.options[i] == b.options[i]
      {
        k := k + 1;
      }
      assert j == MAX_SLOTS <==> a.cards == b.cards;
      assert k == MAX_ITEM_RDM_OPT <==> a.options == b.options;
      same := j == MAX_SLOTS && k == MAX_ITEM_RDM_OPT && a.amount == b.amount && a.equip == b.equip
              && a.identify == b.identify && a.refine == b.refine && a.attribute == b.attribute
              && a.expireTime == b.expireTime && a.bound == b.bound && a.enchantgrade == b.enchantgrade
              && (!inventory || (a.favorite == b.favorite && a.equipSwitch == b.equipSwitch));
    }

    /** One row of the SELECT, which returns them in any order. */
    method SyncRow(items: seq<Item>, flag: array<bool>, ghost rowOf: seq<int>, order: seq<int>, k: nat,
                   ghost before: map<int, Row>, owner: int, inventory: bool)
      returns (ghost rowOf': seq<int>)
      requires Valid(inventory) && TableOk(before, inventory) && k < |order| && Lists(order, before, owner)
      requires forall i | 0 <= i < |items| :: ItemOk(items[i])
      requires Synced(rows, items, flag[..], rowOf, order, k, before, owner, inventory)
      modifies `rows, flag
      ensures Valid(inventory)
      ensures Synced(rows, items, flag[..], rowOf', order, k + 1, before, owner, inventory)
    {
      var id := order[k];
      NextRow(order, k, before, owner);
      var item := rows[id].item;
      var i := FindMatch(items, flag, item);
      if i < |items| {
        RowMatched(rows, items, flag[..], rowOf, order, k, before, owner, inventory, i);
        ghost var flagged := flag[..][i := true];
        var same := Unchanged(items[i], item, inventory);
        if same {
          assert rows == rows[id := Row(owner, Stored(items[i], inventory))];
        } else {
          OverwrittenIsStored(item, items[i], inventory);
          rows := rows[id := Row(rows[id].owner, Overwritten(item, items[i], inventory))];
        }
        flag[i] := true;
        assert flag[..] == flagged;
        rowOf' := rowOf[i := id];
      } else {
        RowUnmatched(rows, items, flag[..], rowOf, order, k, before, owner, inventory);
        rows := rows - {id};
        rowOf' := rowOf;
      }
    }

    /** Every item recorded as stored is, in a row of its own. */
    ghost predicate Placed(items: seq<Item>, rowOf: seq<int>, owner: int, inventory: bool)
      reads this
    {
      && |rowOf| == |items|
      && (forall i | 0 <= i < |items| && rowOf[i] != NO_ROW ::
            items[i].nameid != 0 && rowOf[i] in rows && rows[rowOf[i]] == Row(owner, Stored(items[i], inventory)))
      && (forall i, j | 0 <= i < j < |items| && rowOf[i] != NO_ROW :: rowOf[i] != rowOf[j])
      && (forall id | id in rows && rows[id].owner == owner :: id in rowOf)
    }

    /** The INSERT of the items that no row matched. */
    method InsertRest(items: seq<Item>, flag: array<bool>, ghost rowOf: seq<int>, owner: int, inventory: bool)
      returns (ghost rowOf': seq<int>)
      requires Valid(inventory) && flag.Length == |items| && Placed(items, rowOf, owner, inventory)
      requires forall i | 0 <= i < |items| :: ItemOk(items[i]) && (flag[i] <==> rowOf[i] != NO_ROW)
      modifies `rows, `nextId
      ensures Valid(inventory) && StoredIn(items, rowOf', rows, owner, inventory)
      ensures forall i | 0 <= i < |items| && flag[i] :: rowOf'[i] == rowOf[i]
      ensures forall i | 0 <= i < |items| && !flag[i] :: rowOf'[i] == NO_ROW || rowOf'[i] >= old(nextId)
      ensures forall id | id in old(rows) :: id in rows && rows[id] == old(rows)[id]
      ensures forall id | id in rows && id !in old(rows) :: rows[id].owner == owner
    {
      rowOf' := rowOf;
      for i := 0 to |items|
        invariant Valid(inventory) && Placed(items, rowOf', owner, inventory) && nextId >= old(nextId)
        invariant forall j | 0 <= j < i :: rowOf'[j] == NO_ROW <==> items[j].nameid == 0
        invariant forall j | i <= j < |items| :: rowOf'[j] == rowOf[j]
        invariant forall j | 0 <= j < |items| ::
                  if flag[j] then rowOf'[j] == rowOf[j] else rowOf'[j] == NO_ROW || rowOf'[j] >= old(nextId)
        invariant forall id | id in old(rows) :: id in rows && rows[id] == old(rows)[id]
        invariant forall id | id in rows && id !in old(rows) :: rows[id].owner == owner
      {
        if items[i].nameid != 0 && !flag[i] {
          InsertOne(items, rowOf', i, owner, inventory);
          rowOf' := rowOf'[i := nextId - 1];
        }
      }
    }

    method InsertOne(items: seq<Item>, ghost rowOf: seq<int>, i: nat, owner: int, inventory: bool)
      requires Valid(inventory) && Placed(items, rowOf, owner, inventory)
      requires i < |items| && ItemOk(items[i]) && items[i].nameid != 0 && rowOf[i] == NO_ROW
      modifies `rows, `nextId
      ensures Valid(inventory) && nextId == old(nextId) + 1 && old(nextId) !in old(rows)
      ensures rows == old(rows)[old(nextId) := Row(owner, Stored(items[i], inventory))]
      ensures Placed(items, rowOf[i := old(nextId)], owner, inventory)
    {
      rows := rows[nextId := Row(owner, Stored(items[i], inventory))];
      nextId := nextId + 1;
      ghost var rowOf' := rowOf[i := old(nextId)];
      forall id | id in rows && rows[id].owner == owner ensures id in rowOf' {
        if id == old(nextId) {
          assert rowOf'[i] == id;
        } else {
          var j :| 0 <= j < |rowOf| && rowOf[j] == id;
          assert rowOf'[j] == id;
        }
      }
    }

    /** `char_memitemdata_to_sql` without SQL errors: whatever the table held and in whatever
        order the rows came, afterwards the owner's rows hold exactly the items that are not
        empty; rows that stay keep the identity of their item; other owners keep their rows. */
    method Save(items: seq<Item>, owner: int, inventory: bool, order: seq<int>) returns (ghost rowOf: seq<int>)
      requires Valid(inventory) && Lists(order, rows, owner)
      requires forall i | 0 <= i < |items| :: ItemOk(items[i])
      modifies this
      ensures Valid(inventory) && StoredIn(items, rowOf, rows, owner, inventory)
      ensures |rowOf| == |items| && forall i | 0 <= i < |items| && items[i].nameid != 0 ::
                && rowOf[i] in rows && rows[rowOf[i]].owner == owner
                && rows[rowOf[i]].item == if inventory then items[i] else items[i].(favorite := 0, equipSwitch := 0)
      ensures forall i | 0 <= i < |items| && rowOf[i] in old(rows) ::
                var was := old(rows)[rowOf[i]].item;
                && old(rows)[rowOf[i]].owner == owner && |was.cards| == |items[i].cards| == MAX_SLOTS
                && was.nameid == items[i].nameid && was.uniqueId == items[i].uniqueId
                && was.cards[0] == items[i].cards[0] && was.cards[2..] == items[i].cards[2..]
      ensures forall id | id in old(rows) && old(rows)[id].owner != owner :: id in rows && rows[id] == old(rows)[id]
      ensures forall id | id in rows && rows[id].owner != owner :: id in old(rows)
    {
      var flag := new bool[|items|](_ => false);
      ghost var before := rows;
      rowOf := seq(|items|, i => NO_ROW);
      for k := 0 to |order|
        invariant Valid(inventory) && nextId == old(nextId)
        invariant Synced(rows, items, flag[..], rowOf, order, k, before, owner, inventory)
      {
        rowOf := SyncRow(items, flag, rowOf, order, k, before, owner, inventory);
      }
      assert order[..|order|] == order;
      SyncedAll(items, flag[..], rowOf, order, before, owner, inventory);
      ghost var synced := rowOf;
      rowOf := InsertRest(items, flag, rowOf, owner, inventory);
      forall i | 0 <= i < |items| && rowOf[i] in before
        ensures before[rowOf[i]].owner == owner && ItemOk(before[rowOf[i]].item)
        ensures SameItem(items[i], before[rowOf[i]].item)
      {
        assert 0 <= rowOf[i] < old(nextId);
        assert flag[i] && rowOf[i] == synced[i] && flag[..][i];
      }
    }

    lemma SyncedAll(items: seq<Item>, flag: seq<bool>, rowOf: seq<int>, order: seq<int>,
                    before: map<int, Row>, owner: int, inventory: bool)
      requires Lists(order, before, owner) && order[..|order|] == order
      requires Synced(rows, items, flag, rowOf, order, |order|, before, owner, inventory)
      ensures Placed(items, rowOf, owner, inventory)
    {
    }

    /** `char_memitemdata_from_sql`: the rows in the order the SELECT gives, as far as there is
        room. */
    method Load(owner: int, order: seq<int>, max: nat) returns (loaded: seq<Item>)
      requires forall k | 0 <= k < |order| :: order[k] in rows
      ensures loaded == ItemsAt(rows, order)[..if |order| < max then |order| else max]
    {
      loaded := [];
      var i := 0;
      while i < max && i < |order|
        invariant 0 <= i <= |order| && i <= max && loaded == ItemsAt(rows, order)[..i]
      {
        loaded := loaded + [rows[order[i]].item];
        i := i + 1;
      }
    }
  }

  // ----- what a load after a save returns -----

  function ItemsAt(rows: map<int, Row>, ids: seq<int>): (items: seq<Item>)
    requires forall k | 0 <= k < |ids| :: ids[k] in rows
    ensures |items| == |ids| && forall k | 0 <= k < |ids| :: items[k] == rows[ids[k]].item
  {
    seq(|ids|, k requires 0 <= k < |ids| => rows[ids[k]].item)
  }

  /** The items that are not empty, as far as the table has columns for them. */
  function NonEmpty(items: seq<Item>, inventory: bool): seq<Item> {
    if items == [] then []
    else
      var last := items[|items| - 1];
      NonEmpty(items[..|items| - 1], inventory) + (if last.nameid == 0 then [] else [Stored(last, inventory)])
  }

  /** The rows of the items that are not empty, in the order of the items. */
  function RowsUsed(rowOf: seq<int>): seq<int> {
    if rowOf == [] then []
    else
      var last := rowOf[|rowOf| - 1];
      RowsUsed(rowOf[..|rowOf| - 1]) + (if last == NO_ROW then [] else [last])
  }

  lemma {:induction false} RowsUsedMembers(rowOf: seq<int>, id: int)
    ensures id in RowsUsed(rowOf) <==> id in rowOf && id != NO_ROW
  {
    if rowOf != [] {
      RowsUsedMembers(rowOf[..|rowOf| - 1], id);
      assert rowOf == rowOf[..|rowOf| - 1] + [rowOf[|rowOf| - 1]];
    }
  }

  lemma {:induction false} RowsUsedOnce(rowOf: seq<int>, id: int)
    requires forall i, j | 0 <= i < j < |rowOf| && rowOf[i] != NO_ROW :: rowOf[i] != rowOf[j]
    ensures multiset(RowsUsed(rowOf))[id] <= 1
  {
    if rowOf != [] {
      var before, last := rowOf[..|rowOf| - 1], rowOf[|rowOf| - 1];
      RowsUsedOnce(before, id);
      if last == id && last != NO_ROW {
        RowsUsedMembers(before, id);
        assert id !in before;
      }
    }
  }

  lemma {:induction false} OnceEach(order: seq<int>, id: int)
    requires forall i, j | 0 <= i < j < |order| :: order[i] != order[j]
    ensures multiset(order)[id] <= 1
  {
    if order != [] {
      var before, last := order[..|order| - 1], order[|order| - 1];
      assert order == before + [last];
      OnceEach(before, id);
    }
  }

  lemma {:induction false} ItemsOfUsedRows(items: seq<Item>, rowOf: seq<int>, rows: map<int, Row>, owner: int,
                                           inventory: bool)
    requires |rowOf| == |items|
    requires forall i | 0 <= i < |items| :: rowOf[i] == NO_ROW <==> items[i].nameid == 0
    requires forall i | 0 <= i < |items| && rowOf[i] != NO_ROW ::
               rowOf[i] in rows && rows[rowOf[i]] == Row(owner, Stored(items[i], inventory))
    ensures forall k | 0 <= k < |RowsUsed(rowOf)| :: RowsUsed(rowOf)[k] in rows
    ensures ItemsAt(rows, RowsUsed(rowOf)) == NonEmpty(items, inventory)
  {
    if items != [] {
      ItemsOfUsedRows(items[..|items| - 1], rowOf[..|items| - 1], rows, owner, inventory);
    }
  }

  function Without(ids: seq<int>, k: nat): seq<int>
    requires k < |ids|
  {
    ids[..k] + ids[k + 1..]
  }

  /** Listing the same rows in another order gives the same items. */
  lemma {:induction false} OrderDoesNotMatter(rows: map<int, Row>, a: seq<int>, b: seq<int>)
    requires multiset(a) == multiset(b)
    requires (forall k | 0 <= k < |a| :: a[k] in rows) && (forall k | 0 <= k < |b| :: b[k] in rows)
    ensures multiset(ItemsAt(rows, a)) == multiset(ItemsAt(rows, b))
    decreases |a|
  {
    if a == [] {
      assert |multiset(b)| == 0;
    } else {
      var k := PlaceIn(a, b);
      SameRest(a, b, k);
      ItemsWithout(rows, a, 0);
      ItemsWithout(rows, b, k);
      OrderDoesNotMatter(rows, Without(a, 0), Without(b, k));
    }
  }

  lemma PlaceIn(a: seq<int>, b: seq<int>) returns (k: nat)
    requires a != [] && multiset(a) == multiset(b)
    ensures k < |b| && b[k] == a[0]
  {
    assert a[0] in multiset(b);
    k :| 0 <= k < |b| && b[k] == a[0];
  }

  lemma SameRest(a: seq<int>, b: seq<int>, k: nat)
    requires a != [] && k < |b| && b[k] == a[0] && multiset(a) == multiset(b)
    ensures multiset(Without(a, 0)) == multiset(Without(b, k))
  {
    Removed(a, 0);
    Removed(b, k);
    CancelOne(multiset(Without(a, 0)), multiset(Without(b, k)), a[0]);
  }

  lemma CancelOne(a: multiset<int>, b: multiset<int>, x: int)
    requires a + multiset{x} == b + multiset{x}
    ensures a == b
  {
    assert a == (a + multiset{x}) - multiset{x} && b == (b + multiset{x}) - multiset{x};
  }

  lemma Removed(ids: seq<int>, k: nat)
    requires k < |ids|
    ensures multiset(ids) == multiset(Without(ids, k)) + multiset{ids[k]}
  {
    assert ids == ids[..k] + ([ids[k]] + ids[k + 1..]);
  }

  lemma ItemsWithout(rows: map<int, Row>, ids: seq<int>, k: nat)
    requires k < |ids| && forall j | 0 <= j < |ids| :: ids[j] in rows
    ensures forall j | 0 <= j < |Without(ids, k)| :: Without(ids, k)[j] in rows
    ensures multiset(ItemsAt(rows, ids)) == multiset(ItemsAt(rows, Without(ids, k))) + multiset{rows[ids[k]].item}
  {
    var front, back := ids[..k], ids[k + 1..];
    assert ids == front + ([ids[k]] + back);
    ItemsAtConcat(rows, front, [ids[k]] + back);
    ItemsAtConcat(rows, [ids[k]], back);
    ItemsAtConcat(rows, front, back);
    assert ItemsAt(rows, [ids[k]]) == [rows[ids[k]].item];
  }

  lemma ItemsAtConcat(rows: map<int, Row>, a: seq<int>, b: seq<int>)
    requires (forall k | 0 <= k < |a| :: a[k] in rows) && (forall k | 0 <= k < |b| :: b[k] in rows)
    ensures forall k | 0 <= k < |a + b| :: (a + b)[k] in rows
    ensures ItemsAt(rows, a + b) == ItemsAt(rows, a) + ItemsAt(rows, b)
    ensures multiset(ItemsAt(rows, a + b)) == multiset(ItemsAt(rows, a)) + multiset(ItemsAt(rows, b))
  {
    assert ItemsAt(rows, a + b) == ItemsAt(rows, a) + ItemsAt(rows, b);
  }

  /** The owner's rows hold, as a multiset, exactly the items that are not empty. */
  lemma SavedItems(items: seq<Item>, rowOf: seq<int>, rows: map<int, Row>, owner: int, inventory: bool,
                   order: seq<int>)
    requires StoredIn(items, rowOf, rows, owner, inventory) && Lists(order, rows, owner) && NO_ROW !in rows
    ensures forall k | 0 <= k < |order| :: order[k] in rows
    ensures multiset(ItemsAt(rows, order)) == multiset(NonEmpty(items, inventory))
    ensures |order| <= |items|
  {
    ItemsOfUsedRows(items, rowOf, rows, owner, inventory);
    var used := RowsUsed(rowOf);
    forall id ensures multiset(used)[id] == multiset(order)[id] {
      RowsUsedMembers(rowOf, id);
      RowsUsedOnce(rowOf, id);
      OnceEach(order, id);
      assert id in used <==> id in order;
    }
    assert multiset(used) == multiset(order);
    OrderDoesNotMatter(rows, order, used);
    RowsUsedFit(rowOf);
    assert |multiset(order)| == |multiset(used)|;
  }

  lemma {:induction false} RowsUsedFit(rowOf: seq<int>)
    ensures |RowsUsed(rowOf)| <= |rowOf|
  {
    if rowOf != [] {
      RowsUsedFit(rowOf[..|rowOf| - 1]);
    }
  }

  /** Saving items and loading them, in whatever order, gives the items that are not empty. */
  method SaveAndLoad(table: ItemTable, items: seq<Item>, owner: int, inventory: bool, before: seq<int>,
                     after: seq<int>) returns (loaded: seq<Item>)
    requires table.Valid(inventory) && Lists(before, table.rows, owner)
    requires forall i | 0 <= i < |items| :: ItemOk(items[i])
    modifies table
    ensures Lists(after, table.rows, owner) ==> multiset(loaded) == multiset(NonEmpty(items, inventory))
    ensures Lists(after, table.rows, owner) && inventory ==>
              forall x :: multiset(loaded)[x] ==
                if x.nameid == 0 then 0 else |set i | 0 <= i < |items| && items[i] == x|
  {
    ghost var rowOf := table.Save(items, owner, inventory, before);
    loaded := [];
    if forall k | 0 <= k < |after| :: after[k] in table.rows {
      loaded := table.Load(owner, after, |items|);
    }
    if Lists(after, table.rows, owner) {
      SavedItems(items, rowOf, table.rows, owner, inventory, after);
      assert ItemsAt(table.rows, after)[..|after|] == ItemsAt(table.rows, after);
      AllPiecesKept(items);
    }
  }

  /** How many of the items are `x`. */
  function Pieces(items: seq<Item>, x: Item): nat { |set i | 0 <= i < |items| && items[i] == x| }

  lemma {:induction false} PiecesSnoc(items: seq<Item>, last: Item, x: Item)
    ensures Pieces(items + [last], x) == Pieces(items, x) + if last == x then 1 else 0
  {
    var all := items + [last];
    var before := set i | 0 <= i < |items| && items[i] == x;
    var after := set i | 0 <= i < |all| && all[i] == x;
    assert after == before + if last == x then {|items|} else {};
  }

  lemma NoPieces(items: seq<Item>, x: Item)
    requires x !in items
    ensures Pieces(items, x) == 0
  {
    var places := set i | 0 <= i < |items| && items[i] == x;
    assert forall i :: i !in places;
    assert places == {};
  }

  lemma {:induction false} InventoryKept(items: seq<Item>, x: Item)
    ensures multiset(NonEmpty(items, true))[x] == if x.nameid == 0 then 0 else Pieces(items, x)
  {
    if items == [] {
      NoPieces(items, x);
    } else {
      var before, last := items[..|items| - 1], items[|items| - 1];
      assert items == before + [last];
      InventoryKept(before, x);
      PiecesSnoc(before, last, x);
    }
  }

  lemma AllPiecesKept(items: seq<Item>)
    ensures forall x :: multiset(NonEmpty(items, true))[x] ==
              if x.nameid == 0 then 0 else |set i | 0 <= i < |items| && items[i] == x|
  {
    forall x ensures multiset(NonEmpty(items, true))[x] ==
                     if x.nameid == 0 then 0 else |set i | 0 <= i < |items| && items[i] == x|
    {
      InventoryKept(items, x);
    }
  }

  /** An inventory that is loaded after it was saved holds exactly the pieces that were saved. */
  lemma InventorySurvives(items: seq<Item>, rowOf: seq<int>, rows: map<int, Row>, owner: int, order: seq<int>, x: Item)
    requires StoredIn(items, rowOf, rows, owner, true) && Lists(order, rows, owner) && NO_ROW !in rows
    ensures forall k | 0 <= k < |order| :: order[k] in rows
    ensures multiset(ItemsAt(rows, order))[x] ==
            if x.nameid == 0 then 0 else |set i | 0 <= i < |items| && items[i] == x|
  {
    SavedItems(items, rowOf, rows, owner, true, order);
    InventoryKept(items, x);
  }
}
