/**
 * Order selection and totalling in `place_order`: the catalog rows whose id
 * was submitted (`isin`), paired by position with the quantities (`zip`),
 * summed as cost times quantity, and the UPI payment string built from the total.
 */
module Order {
  import opened Text
  import opened Catalog

  function Min(a: int, b: int): int {
    if a <= b then a else b
  }

  /**
   * `df[df['id'].isin(ids)]`: the catalog rows whose id occurs in `ids`, in
   * catalog order, each row once however often its id was submitted.
   */
  function Select(rows: seq<Item>, ids: seq<int>): (r: seq<Item>)
    ensures |r| <= |rows|
    ensures forall x :: x in r <==> x in rows && x.id in ids
  {
    if rows == [] then []
    else (if rows[0].id in ids then [rows[0]] else []) + Select(rows[1..], ids)
  }

  /** Selection commutes with concatenation of catalogs: it keeps catalog order. */
  lemma {:induction false} SelectAppend(a: seq<Item>, b: seq<Item>, ids: seq<int>)
    ensures Select(a + b, ids) == Select(a, ids) + Select(b, ids)
  {
    if a == [] {
      assert a + b == b;
    } else {
      assert (a + b)[0] == a[0];
      assert (a + b)[1..] == a[1..] + b;
      SelectAppend(a[1..], b, ids);
    }
  }

  /**
   * Only the set of submitted ids matters: neither their order nor how often
   * each is repeated changes the selection.
   */
  lemma {:induction false} SelectSameIds(rows: seq<Item>, ids1: seq<int>, ids2: seq<int>)
    requires forall id :: id in ids1 <==> id in ids2
    ensures Select(rows, ids1) == Select(rows, ids2)
  {
    if rows != [] {
      SelectSameIds(rows[1..], ids1, ids2);
    }
  }

  /** No catalog row is selected more often than it occurs in the catalog. */
  lemma {:induction false} SelectSubMultiset(rows: seq<Item>, ids: seq<int>)
    ensures multiset(Select(rows, ids)) <= multiset(rows)
  {
    if rows != [] {
      SelectSubMultiset(rows[1..], ids);
      assert rows == [rows[0]] + rows[1..];
    }
  }

  /** Submitting an id twice, or an id no row has, selects nothing more. */
  lemma {:induction false} SelectIgnoresRepeatsAndUnknown(rows: seq<Item>, ids: seq<int>, id: int)
    requires id in ids || forall i :: 0 <= i < |rows| ==> rows[i].id != id
    ensures Select(rows, ids + [id]) == Select(rows, ids)
  {
    if id in ids {
      SelectSameIds(rows, ids + [id], ids);
    } else {
      SelectUnknown(rows, ids, id);
    }
  }

  lemma {:induction false} SelectUnknown(rows: seq<Item>, ids: seq<int>, id: int)
    requires forall i :: 0 <= i < |rows| ==> rows[i].id != id
    ensures Select(rows, ids + [id]) == Select(rows, ids)
  {
    if rows != [] {
      SelectUnknown(rows[1..], ids, id);
    }
  }

  /** Python's `zip`: pairs by position, stopping at the shorter list. */
  function Zip(rows: seq<Item>, qtys: seq<int>): (z: seq<(Item, int)>)
    ensures |z| == Min(|rows|, |qtys|)
    ensures forall i :: 0 <= i < |z| ==> z[i] == (rows[i], qtys[i])
  {
    if rows == [] || qtys == [] then []
    else [(rows[0], qtys[0])] + Zip(rows[1..], qtys[1..])
  }

  /** `sum(item['cost'] * quantity for item, quantity in pairs)`. */
  function Total(pairs: seq<(Item, int)>): int {
    if pairs == [] then 0 else pairs[0].0.cost * pairs[0].1 + Total(pairs[1..])
  }

  /** The order total of `place_order`: the sum over the zipped pairs. */
  function OrderTotal(selected: seq<Item>, qtys: seq<int>): int {
    Total(Zip(selected, qtys))
  }

  /** Reference definition: the sum of `rows[i].cost * qtys[i]` for k <= i < n. */
  function SumFrom(rows: seq<Item>, qtys: seq<int>, k: nat, n: nat): int
    requires k <= n <= |rows| && n <= |qtys|
    decreases n - k
  {
    if k == n then 0 else rows[k].cost * qtys[k] + SumFrom(rows, qtys, k + 1, n)
  }

  lemma {:induction false} TotalFrom(rows: seq<Item>, qtys: seq<int>, k: nat)
    requires k <= Min(|rows|, |qtys|)
    ensures OrderTotal(rows[k..], qtys[k..]) == SumFrom(rows, qtys, k, Min(|rows|, |qtys|))
    decreases Min(|rows|, |qtys|) - k
  {
    if k < Min(|rows|, |qtys|) {
      TotalFrom(rows, qtys, k + 1);
      assert rows[k..][1..] == rows[k + 1..];
      assert qtys[k..][1..] == qtys[k + 1..];
    }
  }

  /** The order total is the sum of cost times quantity over the first min(|rows|, |qtys|) positions. */
  lemma {:induction false} TotalIsIndexedSum(rows: seq<Item>, qtys: seq<int>)
    ensures OrderTotal(rows, qtys) == SumFrom(rows, qtys, 0, Min(|rows|, |qtys|))
  {
    TotalFrom(rows, qtys, 0);
    assert rows[0..] == rows && qtys[0..] == qtys;
  }

  /** Quantities beyond the selected rows, or rows beyond the quantities, are ignored. */
  lemma TotalIgnoresExtra(rows: seq<Item>, qtys: seq<int>, extraRows: seq<Item>, extraQtys: seq<int>)
    requires |rows| == |qtys|
    ensures OrderTotal(rows, qtys + extraQtys) == OrderTotal(rows, qtys)
    ensures OrderTotal(rows + extraRows, qtys) == OrderTotal(rows, qtys)
  {
    ZipIgnoresExtra(rows, qtys, extraRows, extraQtys);
  }

  lemma ZipIgnoresExtra(rows: seq<Item>, qtys: seq<int>, extraRows: seq<Item>, extraQtys: seq<int>)
    requires |rows| == |qtys|
    ensures Zip(rows, qtys + extraQtys) == Zip(rows, qtys)
    ensures Zip(rows + extraRows, qtys) == Zip(rows, qtys)
  {
  }

  /** Nothing selected gives 0; non-negative costs and quantities give a non-negative total. */
  lemma {:induction false} TotalSign(pairs: seq<(Item, int)>)
    ensures pairs == [] ==> Total(pairs) == 0
    ensures (forall i :: 0 <= i < |pairs| ==> pairs[i].0.cost >= 0 && pairs[i].1 >= 0) ==> Total(pairs) >= 0
  {
    if pairs != [] {
      TotalSign(pairs[1..]);
      if forall i :: 0 <= i < |pairs| ==> pairs[i].0.cost >= 0 && pairs[i].1 >= 0 {
        assert pairs[0].0.cost >= 0 && pairs[0].1 >= 0;
        assert forall i :: 0 <= i < |pairs[1..]| ==> pairs[1..][i] == pairs[i + 1];
      }
    }
  }

  /**
   * The quantity a catalog row receives depends on its position in the catalog,
   * not on the order in which ids were submitted.
   */
  lemma PairingFollowsCatalog(rows: seq<Item>, ids1: seq<int>, ids2: seq<int>, qtys: seq<int>)
    requires forall id :: id in ids1 <==> id in ids2
    ensures OrderTotal(Select(rows, ids1), qtys) == OrderTotal(Select(rows, ids2), qtys)
    ensures Zip(Select(rows, ids1), qtys) == Zip(Select(rows, ids2), qtys)
  {
    SelectSameIds(rows, ids1, ids2);
  }

  /**
   * Tea (id 1, 20) and Coffee (id 2, 30); ids submitted as [2, 1] with
   * quantities [1, 5]: Tea gets 1 and Coffee 5, so the total is 170, not the
   * 130 a pairing in submission order would give.
   */
  lemma SubmissionOrderIgnored()
    ensures var rows := [Item(1, "Tea", 20), Item(2, "Coffee", 30)];
      OrderTotal(Select(rows, [2, 1]), [1, 5]) == 170
  {
    var rows := [Item(1, "Tea", 20), Item(2, "Coffee", 30)];
    assert Select(rows, [2, 1]) == rows by {
      assert rows[1..][1..] == [];
    }
    TotalIsIndexedSum(rows, [1, 5]);
  }

  const PayeeAddress := "upadhyay.priyanka1-1@okaxis"
  const PayeeName := "Priyanka Upadhyay"
  const UriHead := "upi://pay?pa=" + PayeeAddress + "&pn=" + PayeeName + "&am="
  const UriTail := "&cu=INR"

  /** The UPI payment string of line 111, with the total rendered by `str`. */
  function PaymentUri(total: int): string {
    UriHead + IntToString(total) + UriTail
  }

  /** Reads the amount back out of a payment string of the fixed template. */
  function AmountOf(uri: string): Option<int> {
    if |uri| >= |UriHead| + |UriTail| && uri[..|UriHead|] == UriHead && uri[|uri| - |UriTail|..] == UriTail
    then ParseInt(uri[|UriHead|..|uri| - |UriTail|])
    else None
  }

  /** The payment string follows the template and carries exactly the total. */
  lemma PaymentUriRoundTrip(total: int)
    ensures AmountOf(PaymentUri(total)) == Some(total)
    ensures PaymentUri(total)[..|UriHead|] == UriHead
    ensures PaymentUri(total)[|PaymentUri(total)| - |UriTail|..] == UriTail
  {
    var u := PaymentUri(total);
    var amount := IntToString(total);
    assert u[..|UriHead|] == UriHead;
    assert u[|u| - |UriTail|..] == UriTail;
    assert u[|UriHead|..|u| - |UriTail|] == amount;
    IntToStringRoundTrip(total);
  }

  lemma PaymentUriInjective(a: int, b: int)
    requires PaymentUri(a) == PaymentUri(b)
    ensures a == b
  {
    PaymentUriRoundTrip(a);
    PaymentUriRoundTrip(b);
  }
}
