/**
 * The transaction history of `save_transaction_to_excel`: one record per order,
 * holding the customer, the plot, the items and quantities as display strings,
 * and the total. The history spreadsheet is the sequence `TransactionLog.records`.
 */
module History {
  import opened Text
  import opened Catalog
  import opened Order

  datatype Transaction = Transaction(
    customerName: string,
    plotNumber: string,
    items: string,
    quantities: string,
    totalCost: int)

  /** One `"name (₹cost) xqty"` segment of the items string. */
  function Segment(item: Item, qty: int): string {
    item.name + " (₹" + IntToString(item.cost) + ") x" + IntToString(qty)
  }

  /** The segments of the zipped (item, quantity) pairs, one per pair. */
  function Segments(items: seq<Item>, qtys: seq<int>): (parts: seq<string>)
    ensures |parts| == Min(|items|, |qtys|)
    ensures forall i :: 0 <= i < |parts| ==> parts[i] == Segment(items[i], qtys[i])
  {
    var z := Zip(items, qtys);
    seq(|z|, i requires 0 <= i < |z| => Segment(z[i].0, z[i].1))
  }

  function ItemsString(items: seq<Item>, qtys: seq<int>): string {
    Join(Segments(items, qtys))
  }

  /** `", ".join(map(str, quantities))`: every quantity, not only the zipped ones. */
  function QuantitiesString(qtys: seq<int>): string {
    Join(seq(|qtys|, i requires 0 <= i < |qtys| => IntToString(qtys[i])))
  }

  /** Reads a quantities column back into the list of quantities. */
  function ParseQuantities(s: string): Option<seq<int>> {
    if s == "" then Some([]) else ParseAll(Split(s))
  }

  lemma {:induction false} ParseAllRendered(qtys: seq<int>)
    ensures ParseAll(seq(|qtys|, i requires 0 <= i < |qtys| => IntToString(qtys[i]))) == Some(qtys)
  {
    var parts := seq(|qtys|, i requires 0 <= i < |qtys| => IntToString(qtys[i]));
    if qtys != [] {
      IntToStringRoundTrip(qtys[0]);
      ParseAllRendered(qtys[1..]);
      assert parts[1..] == seq(|qtys[1..]|, i requires 0 <= i < |qtys[1..]| => IntToString(qtys[1..][i]));
      assert [qtys[0]] + qtys[1..] == qtys;
    }
  }

  /** The quantities column keeps every submitted quantity: it reads back to the list. */
  lemma QuantitiesRoundTrip(qtys: seq<int>)
    ensures ParseQuantities(QuantitiesString(qtys)) == Some(qtys)
  {
    var parts := seq(|qtys|, i requires 0 <= i < |qtys| => IntToString(qtys[i]));
    forall i | 0 <= i < |parts| ensures NoComma(parts[i]) && |parts[i]| > 0 {
      IntToStringNoComma(qtys[i]);
    }
    JoinEmpty(parts);
    if qtys != [] {
      SplitJoin(parts);
    }
    ParseAllRendered(qtys);
  }

  predicate CommaFreeNames(items: seq<Item>) {
    forall i :: 0 <= i < |items| ==> NoComma(items[i].name)
  }

  lemma SegmentNoComma(item: Item, qty: int)
    requires NoComma(item.name)
    ensures NoComma(Segment(item, qty))
  {
  }

  /** The items column is empty exactly when nothing was zipped. */
  lemma ItemsStringEmpty(items: seq<Item>, qtys: seq<int>)
    ensures ItemsString(items, qtys) == "" <==> Min(|items|, |qtys|) == 0
  {
    var parts := Segments(items, qtys);
    assert forall i :: 0 <= i < |parts| ==> |parts[i]| > 0;
    JoinEmpty(parts);
  }

  /**
   * The items column has one segment per zipped pair, truncated like the
   * total: when no name contains a comma, splitting it at `", "` gives
   * exactly the segments of the first min(|items|, |qtys|) pairs.
   */
  lemma ItemsStringSplits(items: seq<Item>, qtys: seq<int>)
    ensures CommaFreeNames(items) && Min(|items|, |qtys|) > 0 ==>
      Split(ItemsString(items, qtys)) == Segments(items, qtys)
  {
    var parts := Segments(items, qtys);
    if CommaFreeNames(items) && parts != [] {
      forall i | 0 <= i < |parts| ensures NoComma(parts[i]) {
        SegmentNoComma(items[i], qtys[i]);
      }
      SplitJoin(parts);
    }
  }

  /** Quantities without a selected row do not appear in the items column. */
  lemma ItemsStringIgnoresExtra(items: seq<Item>, qtys: seq<int>, extraQtys: seq<int>)
    requires |items| == |qtys|
    ensures ItemsString(items, qtys + extraQtys) == ItemsString(items, qtys)
  {
    ZipIgnoresExtra(items, qtys, [], extraQtys);
  }

  /** The record `save_transaction_to_excel` appends for one order. */
  function NewRecord(customer: string, plot: string, items: seq<Item>, qtys: seq<int>, total: int): (t: Transaction)
    ensures t.customerName == customer && t.plotNumber == plot && t.totalCost == total
    ensures t.items == ItemsString(items, qtys) && t.quantities == QuantitiesString(qtys)
    ensures ParseQuantities(t.quantities) == Some(qtys)
    ensures t.items == "" <==> Min(|items|, |qtys|) == 0
    ensures CommaFreeNames(items) && Min(|items|, |qtys|) > 0 ==> Split(t.items) == Segments(items, qtys)
  {
    QuantitiesRoundTrip(qtys);
    ItemsStringEmpty(items, qtys);
    ItemsStringSplits(items, qtys);
    Transaction(customer, plot, ItemsString(items, qtys), QuantitiesString(qtys), total)
  }

  /** The transaction history, reloaded, extended and rewritten whole by each order. */
  class TransactionLog {
    var records: seq<Transaction>

    constructor (initial: seq<Transaction>)
      ensures records == initial
    {
      records := initial;
    }

    /** `save_transaction_to_excel`: append exactly one record; earlier records are untouched. */
    method Save(customer: string, plot: string, items: seq<Item>, qtys: seq<int>, total: int)
      modifies this
      ensures records == old(records) + [NewRecord(customer, plot, items, qtys, total)]
      ensures |records| == |old(records)| + 1 && records[..|old(records)|] == old(records)
      ensures var t := records[|old(records)|];
        t.customerName == customer && t.plotNumber == plot && t.totalCost == total
    {
      records := records + [NewRecord(customer, plot, items, qtys, total)];
      assert records[..|old(records)|] == old(records);
    }
  }
}
