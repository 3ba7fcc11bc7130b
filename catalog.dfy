/**
 * The item catalog: a table of (id, name, cost) rows that `add_item` grows by
 * one row and `remove_item` filters by id. The stored spreadsheet is the
 * in-memory sequence `ItemStore.rows`.
 */
module Catalog {

  datatype Item = Item(id: int, name: string, cost: int)

  /** The table after `add_item`: the old rows, then one row numbered by the old row count. */
  function Added(rows: seq<Item>, name: string, cost: int): seq<Item> {
    rows + [Item(|rows| + 1, name, cost)]
  }

  /** The table after `remove_item`: the rows whose id differs from `id`, in their old order. */
  function Removed(rows: seq<Item>, id: int): (r: seq<Item>)
    ensures |r| <= |rows|
    ensures forall i :: 0 <= i < |r| ==> r[i].id != id
  {
    if rows == [] then []
    else (if rows[0].id == id then [] else [rows[0]]) + Removed(rows[1..], id)
  }

  /** A row survives the removal exactly when it was in the table with another id. */
  lemma {:induction false} RemovedMembers(rows: seq<Item>, id: int)
    ensures forall x :: x in Removed(rows, id) <==> x in rows && x.id != id
  {
    if rows != [] {
      RemovedMembers(rows[1..], id);
      assert rows == [rows[0]] + rows[1..];
    }
  }

  /** Row i carries id i + 1: what a table built only by `add_item` looks like. */
  predicate SequentialIds(rows: seq<Item>) {
    forall i :: 0 <= i < |rows| ==> rows[i].id == i + 1
  }

  lemma AddedAppendsOne(rows: seq<Item>, name: string, cost: int)
    ensures |Added(rows, name, cost)| == |rows| + 1
    ensures Added(rows, name, cost)[..|rows|] == rows
    ensures Added(rows, name, cost)[|rows|] == Item(|rows| + 1, name, cost)
  {
  }

  lemma AddedKeepsSequentialIds(rows: seq<Item>, name: string, cost: int)
    requires SequentialIds(rows)
    ensures SequentialIds(Added(rows, name, cost))
  {
  }

  /** Filtering by id commutes with concatenation, so the kept rows stay in their relative order. */
  lemma {:induction false} RemovedAppend(a: seq<Item>, b: seq<Item>, id: int)
    ensures Removed(a + b, id) == Removed(a, id) + Removed(b, id)
  {
    if a == [] {
      assert a + b == b;
    } else {
      assert (a + b)[0] == a[0];
      assert (a + b)[1..] == a[1..] + b;
      RemovedAppend(a[1..], b, id);
    }
  }

  /** Removing an id no row carries leaves the table as it was. */
  lemma {:induction false} RemovedAbsent(rows: seq<Item>, id: int)
    requires forall i :: 0 <= i < |rows| ==> rows[i].id != id
    ensures Removed(rows, id) == rows
  {
    if rows != [] {
      RemovedAbsent(rows[1..], id);
    }
  }

  lemma RemovedIdempotent(rows: seq<Item>, id: int)
    ensures Removed(Removed(rows, id), id) == Removed(rows, id)
  {
    RemovedAbsent(Removed(rows, id), id);
  }

  /**
   * Ids come from the row count, not the largest id: in a table numbered 1..n,
   * removing any row but the last and then adding one gives two rows with id n.
   */
  lemma RemoveThenAddDuplicatesId(rows: seq<Item>, k: int, name: string, cost: int)
    requires SequentialIds(rows)
    requires 1 <= k < |rows|
    ensures var t := Added(Removed(rows, k), name, cost);
      |t| == |rows| && t[|t| - 2].id == |rows| && t[|t| - 1].id == |rows|
  {
    RemovedOneRow(rows, k);
    var r := rows[..k - 1] + rows[k..];
    assert r[|rows| - 2] == rows[|rows| - 1];
  }

  /** In a table numbered 1..n, removing id k drops exactly row k - 1. */
  lemma RemovedOneRow(rows: seq<Item>, k: int)
    requires SequentialIds(rows)
    requires 1 <= k <= |rows|
    ensures Removed(rows, k) == rows[..k - 1] + rows[k..]
  {
    RemovedNumberedFrom(rows, 1, k);
  }

  lemma {:induction false} RemovedNumberedFrom(rows: seq<Item>, base: int, k: int)
    requires forall i :: 0 <= i < |rows| ==> rows[i].id == base + i
    requires base <= k < base + |rows|
    ensures Removed(rows, k) == rows[..k - base] + rows[k - base + 1..]
  {
    var tail := rows[1..];
    assert rows[0].id == base;
    assert forall i :: 0 <= i < |tail| ==> tail[i].id == base + 1 + i;
    if k == base {
      RemovedAbsent(tail, k);
      assert Removed(rows, k) == tail;
      assert rows[..0] + rows[1..] == tail;
    } else {
      RemovedNumberedFrom(tail, base + 1, k);
      var j := k - base;
      assert Removed(rows, k) == [rows[0]] + (tail[..j - 1] + tail[j..]);
      assert [rows[0]] + tail[..j - 1] == rows[..j];
      assert tail[j..] == rows[j + 1..];
    }
  }

  /** The catalog table, reloaded and rewritten whole by each request. */
  class ItemStore {
    var rows: seq<Item>

    constructor (initial: seq<Item>)
      ensures rows == initial
    {
      rows := initial;
    }

    /** `add_item`: append one row whose id is the current row count plus one. */
    method AddItem(name: string, cost: int)
      modifies this
      ensures rows == Added(old(rows), name, cost)
      ensures |rows| == |old(rows)| + 1 && rows[..|old(rows)|] == old(rows)
      ensures rows[|old(rows)|] == Item(|old(rows)| + 1, name, cost)
    {
      AddedAppendsOne(rows, name, cost);
      rows := Added(rows, name, cost);
    }

    /** `remove_item`: keep every row whose id differs from `id`; an absent id is a no-op. */
    method RemoveItem(id: int)
      modifies this
      ensures rows == Removed(old(rows), id)
      ensures forall x :: x in rows <==> x in old(rows) && x.id != id
      ensures (forall x :: x in old(rows) ==> x.id != id) ==> rows == old(rows)
    {
      RemovedMembers(rows, id);
      if forall x :: x in rows ==> x.id != id {
        assert forall i :: 0 <= i < |rows| ==> rows[i] in rows;
        RemovedAbsent(rows, id);
      }
      rows := Removed(rows, id);
    }
  }

  /** Add, add, remove id 1, add: the table ends with two rows numbered 2. */
  method DuplicateIdScenario() returns (table: seq<Item>)
    ensures |table| == 2 && table[0].id == 2 && table[1].id == 2
    ensures table[0].name == "Coffee" && table[1].name == "Cake"
  {
    var store := new ItemStore([]);
    store.AddItem("Tea", 20);
    store.AddItem("Coffee", 30);
    store.RemoveItem(1);
    assert store.rows == [Item(2, "Coffee", 30)];
    store.AddItem("Cake", 40);
    table := store.rows;
  }
}
