/** The payment-success page's per-customer points history, kept free of
    duplicate orders. */
module PointHistory {
  import opened Common

  /** The parts of the payment result the page reads. */
  datatype OrderDetails = OrderDetails(orderId: Value, pointsEarned: Value, pointsUsed: Value, customerPoints: Value)

  datatype HistoryEntry = HistoryEntry(date: string, pointsAdded: Value, pointsDeducted: Value,
                                       currentPoints: Value, orderId: Value)

  /** The entry built for one payment; `now` is the timestamp the clock gives. */
  function NewEntry(details: OrderDetails, now: string): (e: HistoryEntry)
    ensures e.pointsAdded == details.pointsEarned && e.pointsDeducted == details.pointsUsed
    ensures e.currentPoints == details.customerPoints && e.orderId == details.orderId && e.date == now
  {
    HistoryEntry(now, details.pointsEarned, details.pointsUsed, details.customerPoints, details.orderId)
  }

  /** `pointHistory.some(entry => entry.orderId === orderId)`. */
  function HasOrder(history: seq<HistoryEntry>, orderId: Value): (b: bool)
    ensures b <==> exists i :: 0 <= i < |history| && history[i].orderId == orderId
  {
    if history == [] then false
    else history[0].orderId == orderId || HasOrder(history[1..], orderId)
  }

  /** The history after an update: unchanged for an order already recorded,
      otherwise the new entry appended at the end. */
  function Updated(history: seq<HistoryEntry>, details: OrderDetails, now: string): (r: seq<HistoryEntry>)
    ensures HasOrder(history, details.orderId) ==> r == history
    ensures !HasOrder(history, details.orderId) ==>
              |r| == |history| + 1 && r[..|history|] == history && r[|history|] == NewEntry(details, now)
    ensures HasOrder(r, details.orderId)
  {
    if HasOrder(history, details.orderId) then history
    else
      var r := history + [NewEntry(details, now)];
      assert r[|history|].orderId == details.orderId;
      r
  }

  /** A second update for the same order, at any later time, changes nothing. */
  lemma UpdateIdempotent(history: seq<HistoryEntry>, details: OrderDetails, now: string, later: string)
    ensures Updated(Updated(history, details, now), details, later) == Updated(history, details, now)
  {
  }

  /** Updates for different orders keep every entry of every order. */
  lemma UpdateKeepsRecordedOrders(history: seq<HistoryEntry>, details: OrderDetails, now: string, id: Value)
    requires HasOrder(history, id)
    ensures HasOrder(Updated(history, details, now), id)
  {
    var i :| 0 <= i < |history| && history[i].orderId == id;
    assert Updated(history, details, now)[i] == history[i];
  }

  /** The two storage keys of the logged-in customer. */
  class CustomerStorage {
    /** The stored history; None when the key was never written. */
    var history: Option<seq<HistoryEntry>>
    var currentPoints: Option<Value>

    constructor (history: Option<seq<HistoryEntry>>, currentPoints: Option<Value>)
      ensures this.history == history && this.currentPoints == currentPoints
    {
      this.history := history;
      this.currentPoints := currentPoints;
    }

    function Stored(): seq<HistoryEntry>
      reads this
    {
      if history.Some? then history.value else []
    }

    /** updatePointHistory: both keys are written only when the order is new. */
    method UpdatePointHistory(details: OrderDetails, now: string)
      modifies this
      ensures HasOrder(old(Stored()), details.orderId) ==>
                history == old(history) && currentPoints == old(currentPoints)
      ensures !HasOrder(old(Stored()), details.orderId) ==>
                history == Some(Updated(old(Stored()), details, now)) && currentPoints == Some(details.customerPoints)
    {
      var pointHistory := Stored();
      var entry := NewEntry(details, now);
      if HasOrder(pointHistory, entry.orderId) {
        return;
      }
      history := Some(pointHistory + [entry]);
      currentPoints := Some(details.customerPoints);
    }
  }
}
