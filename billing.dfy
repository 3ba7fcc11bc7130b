/**
 * The bookkeeping of the `place_order` handler once rendering, broadcasting
 * and QR drawing are set aside: read the catalog, select and total the order,
 * build the payment string, and append the transaction record.
 */
module Billing {
  import opened Text
  import opened Catalog
  import opened Order
  import opened History

  /** What the handler broadcasts as `order_summary` and renders, less the QR image. */
  datatype OrderSummary = OrderSummary(
    customerName: string,
    plotNumber: string,
    items: seq<Item>,
    quantities: seq<int>,
    totalCost: int,
    paymentUri: string)

  /** Lines 106-111 of `place_order` on a catalog table `rows`. */
  function Summarize(rows: seq<Item>, customer: string, plot: string, ids: seq<int>, qtys: seq<int>): (s: OrderSummary)
    ensures s.customerName == customer && s.plotNumber == plot && s.quantities == qtys
    ensures s.items == Select(rows, ids)
    ensures forall x :: x in s.items <==> x in rows && x.id in ids
    ensures s.totalCost == SumFrom(s.items, qtys, 0, Min(|s.items|, |qtys|))
    ensures AmountOf(s.paymentUri) == Some(s.totalCost)
  {
    var selected := Select(rows, ids);
    var total := OrderTotal(selected, qtys);
    TotalIsIndexedSum(selected, qtys);
    PaymentUriRoundTrip(total);
    OrderSummary(customer, plot, selected, qtys, total, PaymentUri(total))
  }

  /**
   * `place_order`: the summary is computed from the current catalog, the
   * catalog is left as it is, and the history grows by exactly the record of
   * this order. Unknown ids and surplus quantities are ignored, not refused.
   */
  method PlaceOrder(catalog: ItemStore, log: TransactionLog, customer: string, plot: string, ids: seq<int>, qtys: seq<int>)
    returns (summary: OrderSummary)
    modifies log
    ensures summary == Summarize(catalog.rows, customer, plot, ids, qtys)
    ensures summary.items == Select(catalog.rows, ids)
    ensures summary.totalCost == OrderTotal(summary.items, qtys)
    ensures summary.paymentUri == PaymentUri(summary.totalCost)
    ensures log.records == old(log.records) + [NewRecord(customer, plot, summary.items, qtys, summary.totalCost)]
  {
    var selected := Select(catalog.rows, ids);
    var total := OrderTotal(selected, qtys);
    summary := OrderSummary(customer, plot, selected, qtys, total, PaymentUri(total));
    log.Save(customer, plot, selected, qtys, total);
  }

  /** Coffee (id 2, 30) ordered three times: the total is 90 and the history gains that one record. */
  method CoffeeOrderScenario() returns (summary: OrderSummary, history: seq<Transaction>)
    ensures summary.totalCost == 90 && summary.items == [Item(2, "Coffee", 30)]
    ensures |history| == 1 && history[0].totalCost == 90
    ensures history[0].customerName == "Alice" && history[0].plotNumber == "Plot-7"
  {
    var catalog := new ItemStore([Item(2, "Coffee", 30)]);
    var log := new TransactionLog([]);
    summary := PlaceOrder(catalog, log, "Alice", "Plot-7", [2], [3]);
    assert summary.items == [Item(2, "Coffee", 30)];
    history := log.records;
  }
}
