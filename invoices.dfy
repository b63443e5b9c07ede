/** The admin invoice list: reconciliation of pushed order events, local status
    updates and the date-range filter. */
module Invoices {
  import opened Common
  import Orders
  import opened Collections

  /** An order as the client holds it: a plain object from keys to values. */
  type Record = map<string, Value>

  /** `record.id`: None when the key is missing (undefined). */
  function IdOf(r: Record): Option<Value>
  {
    if "id" in r then Some(r["id"]) else None
  }

  predicate SameId(a: Record, b: Record)
  {
    IdOf(a) == IdOf(b)
  }

  function ContainsId(orders: seq<Record>, ev: Record): (b: bool)
    ensures b <==> exists i :: 0 <= i < |orders| && SameId(orders[i], ev)
  {
    if orders == [] then false
    else SameId(orders[0], ev) || ContainsId(orders[1..], ev)
  }

  /** `{ ...order, ...event }` on every order with the event's id. */
  function MergeAll(orders: seq<Record>, ev: Record): (r: seq<Record>)
    ensures |r| == |orders|
    ensures forall i :: 0 <= i < |orders| ==>
              r[i] == (if SameId(orders[i], ev) then orders[i] + ev else orders[i])
  {
    if orders == [] then []
    else [if SameId(orders[0], ev) then orders[0] + ev else orders[0]] + MergeAll(orders[1..], ev)
  }

  /** handleNewOrder: a non-array previous state counts as empty; an event with
      a known id is merged into the matching orders (every key it carries
      overwrites, nulls included), an event with an unseen id is put first. */
  function HandleNewOrder(prev: Option<seq<Record>>, ev: Record): (r: seq<Record>)
    ensures var cur := if prev.Some? then prev.value else [];
      && (ContainsId(cur, ev) ==> r == MergeAll(cur, ev))
      && (!ContainsId(cur, ev) ==> r == [ev] + cur)
  {
    var current := if prev.Some? then prev.value else [];
    if ContainsId(current, ev) then MergeAll(current, ev)
    else [ev] + current
  }

  /** After a merge, a key the event carries has the event's value and every
      other key keeps its old value. */
  lemma MergeFieldLaw(order: Record, ev: Record, key: string)
    ensures key in ev ==> key in order + ev && (order + ev)[key] == ev[key]
    ensures key !in ev ==> (key in order + ev <==> key in order) &&
                           (key in order ==> (order + ev)[key] == order[key])
  {
  }

  /** An unseen id grows the list by one at the front; a seen id keeps the length. */
  lemma NewOrderLength(prev: seq<Record>, ev: Record)
    ensures !ContainsId(prev, ev) ==> |HandleNewOrder(Some(prev), ev)| == |prev| + 1 &&
                                      HandleNewOrder(Some(prev), ev)[1..] == prev
    ensures ContainsId(prev, ev) ==> |HandleNewOrder(Some(prev), ev)| == |prev|
  {
  }

  /** After handling an event, the list holds an order with the event's id. */
  lemma HandledEventPresent(prev: Option<seq<Record>>, ev: Record)
    ensures ContainsId(HandleNewOrder(prev, ev), ev)
  {
    var cur := if prev.Some? then prev.value else [];
    var once := HandleNewOrder(prev, ev);
    if ContainsId(cur, ev) {
      var i :| 0 <= i < |cur| && SameId(cur[i], ev);
      assert SameId(once[i], ev);
    } else {
      assert SameId(once[0], ev);
    }
  }

  /** Merging the same event a second time changes nothing. */
  lemma MergeAllIdempotent(orders: seq<Record>, ev: Record)
    ensures MergeAll(MergeAll(orders, ev), ev) == MergeAll(orders, ev)
  {
    var once := MergeAll(orders, ev);
    forall i | 0 <= i < |once|
      ensures MergeAll(once, ev)[i] == once[i]
    {
      if SameId(once[i], ev) {
        if SameId(orders[i], ev) {
          assert once[i] + ev == orders[i] + ev + ev;
        }
      }
    }
  }

  /** Merging an event into a list it heads, with no other order of that id, changes nothing. */
  lemma MergeIntoFresh(cur: seq<Record>, ev: Record)
    requires !ContainsId(cur, ev)
    ensures MergeAll([ev] + cur, ev) == [ev] + cur
  {
    var l := [ev] + cur;
    forall i | 0 <= i < |l|
      ensures MergeAll(l, ev)[i] == l[i]
    {
      if i == 0 {
        assert ev + ev == ev;
      } else {
        assert l[i] == cur[i - 1];
      }
    }
  }

  /** Delivering the same event twice gives the same list as delivering it once. */
  lemma HandleNewOrderIdempotent(prev: Option<seq<Record>>, ev: Record)
    ensures HandleNewOrder(Some(HandleNewOrder(prev, ev)), ev) == HandleNewOrder(prev, ev)
  {
    HandledEventPresent(prev, ev);
    var cur := if prev.Some? then prev.value else [];
    if ContainsId(cur, ev) {
      MergeAllIdempotent(cur, ev);
    } else {
      MergeIntoFresh(cur, ev);
    }
  }

  /** Two events for one order, in receipt order: the record has the second
      event's value for the keys it sets and the first event's for the others. */
  lemma TwoEventsForOneOrder(prev: seq<Record>, e1: Record, e2: Record, i: int, key: string)
    requires SameId(e1, e2)
    requires 0 <= i < |HandleNewOrder(Some(HandleNewOrder(Some(prev), e1)), e2)|
    requires SameId(HandleNewOrder(Some(HandleNewOrder(Some(prev), e1)), e2)[i], e2)
    ensures var rec := HandleNewOrder(Some(HandleNewOrder(Some(prev), e1)), e2)[i];
      && (key in e2 ==> key in rec && rec[key] == e2[key])
      && (key !in e2 && key in e1 ==> key in rec && rec[key] == e1[key])
  {
    var mid := HandleNewOrder(Some(prev), e1);
    HandledEventPresent(Some(prev), e1);
    assert ContainsId(mid, e2);
    var rec := MergeAll(mid, e2)[i];
    assert rec == mid[i] + e2;
    assert SameId(mid[i], e1);
    if ContainsId(prev, e1) {
      assert mid[i] == prev[i] + e1;
    } else {
      assert mid == [e1] + prev;
      assert i == 0 by {
        if i > 0 {
          assert false;
        }
      }
    }
  }

  /** The end-to-end example: a pending event for order 5, then an approval
      carrying a final amount, leave exactly the second event's fields. */
  lemma ApprovalExample()
    ensures var e1 := map["id" := Int(5), "status" := Text(Orders.Pending)];
            var e2 := map["id" := Int(5), "status" := Text(Orders.Approved), "final_amount" := Int(120000)];
            HandleNewOrder(Some(HandleNewOrder(Some([]), e1)), e2) == [e2]
  {
    var e1 := map["id" := Int(5), "status" := Text(Orders.Pending)];
    var e2 := map["id" := Int(5), "status" := Text(Orders.Approved), "final_amount" := Int(120000)];
    assert HandleNewOrder(Some([]), e1) == [e1];
    assert ContainsId([e1], e2) by { assert SameId([e1][0], e2); }
    assert e1 + e2 == e2;
  }

  /** The update handed back by the status dialog. */
  datatype StatusUpdate = StatusUpdate(id: Value, status: string, finalAmount: int)

  function UpdatedRecord(order: Record, upd: StatusUpdate): Record
  {
    order["status" := Text(upd.status)]
         ["final_amount" := if upd.finalAmount != 0 then Int(upd.finalAmount)
                            else if "final_amount" in order then order["final_amount"] else Undefined]
  }

  /** handleStatusUpdate: only the status and final amount of the matching
      orders change; a zero final amount keeps the old one. */
  function HandleStatusUpdate(orders: seq<Record>, upd: StatusUpdate): (r: seq<Record>)
    ensures |r| == |orders|
    ensures forall i :: 0 <= i < |orders| && IdOf(orders[i]) != Some(upd.id) ==> r[i] == orders[i]
    ensures forall i :: 0 <= i < |orders| && IdOf(orders[i]) == Some(upd.id) ==>
      && r[i].Keys == orders[i].Keys + {"status", "final_amount"}
      && r[i]["status"] == Text(upd.status)
      && (upd.finalAmount != 0 ==> r[i]["final_amount"] == Int(upd.finalAmount))
      && (upd.finalAmount == 0 && "final_amount" in orders[i] ==> r[i]["final_amount"] == orders[i]["final_amount"])
      && (forall k :: k in orders[i] && k != "status" && k != "final_amount" ==> r[i][k] == orders[i][k])
  {
    if orders == [] then []
    else
      [if IdOf(orders[0]) == Some(upd.id) then UpdatedRecord(orders[0], upd) else orders[0]] +
      HandleStatusUpdate(orders[1..], upd)
  }

  /** `new Date(order.order_date)` as a timestamp; None when it is not a date. */
  function OrderDate(r: Record): Option<int>
  {
    if "order_date" in r && r["order_date"].Int? then Some(r["order_date"].i) else None
  }

  /** The two optional bounds; a missing bound is open, an invalid date compares false. */
  predicate InWindow(r: Record, start: Option<int>, end: Option<int>)
  {
    (start.None? || (OrderDate(r).Some? && OrderDate(r).value >= start.value)) &&
    (end.None? || (OrderDate(r).Some? && OrderDate(r).value <= end.value))
  }

  function WindowTest(start: Option<int>, end: Option<int>): Record -> bool
  {
    r => InWindow(r, start, end)
  }

  /** `orders.filter(...)` with the window test. */
  function FilterWindow(orders: seq<Record>, start: Option<int>, end: Option<int>): (r: seq<Record>)
    ensures |r| <= |orders|
    ensures forall x :: x in r <==> x in orders && InWindow(x, start, end)
  {
    Filter(orders, WindowTest(start, end))
  }

  /** The window filter splits over concatenation, so the kept orders keep
      their relative order. */
  lemma FilterWindowAppend(a: seq<Record>, b: seq<Record>, start: Option<int>, end: Option<int>)
    ensures FilterWindow(a + b, start, end) == FilterWindow(a, start, end) + FilterWindow(b, start, end)
  {
    FilterAppend(a, b, WindowTest(start, end));
  }

  datatype DateFiltered = DateFiltered(orders: seq<Record>, dateError: string)

  /** The date-range effect: a non-array list shows nothing and leaves the
      error as it was; a start after the end shows nothing and sets the error;
      otherwise the error is cleared and the window filter of the list is shown. */
  function FilterByDate(orders: Option<seq<Record>>, start: Option<int>, end: Option<int>, prevError: string): (r: DateFiltered)
    ensures orders.None? ==> r == DateFiltered([], prevError)
    ensures orders.Some? && start.Some? && end.Some? && start.value > end.value ==>
              r.orders == [] && r.dateError != ""
    ensures orders.Some? && !(start.Some? && end.Some? && start.value > end.value) ==>
              && r.dateError == ""
              && r.orders == FilterWindow(orders.value, start, end)
              && forall x :: x in r.orders <==> x in orders.value && InWindow(x, start, end)
    ensures orders.Some? && start.None? && end.None? ==> r.orders == orders.value
  {
    if orders.None? then DateFiltered([], prevError)
    else if start.Some? && end.Some? && start.value > end.value then
      DateFiltered([], "Ngày bắt đầu phải nhỏ hơn hoặc bằng ngày kết thúc.")
    else
      var kept := FilterWindow(orders.value, start, end);
      FilterAllOpen(orders.value, start, end);
      DateFiltered(kept, "")
  }

  /** With both bounds open the filter keeps the list as it is. */
  lemma FilterAllOpen(orders: seq<Record>, start: Option<int>, end: Option<int>)
    ensures start.None? && end.None? ==> FilterWindow(orders, start, end) == orders
  {
    if start.None? && end.None? {
      FilterKeepsAll(orders, WindowTest(start, end));
    }
  }

  /** The detail button is disabled for cancelled orders. */
  predicate DetailDisabled(r: Record)
  {
    "status" in r && r["status"] == Text(Orders.Cancelled)
  }

  /** A cancellation pushed as a status update disables the detail button of
      the matching orders, and re-enables it for a matching order moved to any
      other status; the other orders keep their button as it was. */
  lemma StatusUpdateDisablesDetail(orders: seq<Record>, upd: StatusUpdate)
    ensures var r := HandleStatusUpdate(orders, upd);
      forall i :: 0 <= i < |orders| ==>
        (DetailDisabled(r[i]) <==>
          if IdOf(orders[i]) == Some(upd.id) then upd.status == Orders.Cancelled else DetailDisabled(orders[i]))
  {
  }
}
