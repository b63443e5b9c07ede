/** The staff dialog that advances or cancels one order. */
module OrderModal {
  import opened Common
  import opened Orders

  /** The status the advance button moves to; every other status maps to itself. */
  function GetNextStatus(current: string): (next: string)
    ensures next != current <==> (current == Pending || current == Approved || current == Delivering)
    ensures next != current ==> ValidateStatusTransition(current, next) && next != Cancelled
    ensures next == current ==> !ValidateStatusTransition(current, next)
  {
    if current == Pending then Approved
    else if current == Approved then Delivering
    else if current == Delivering then Delivered
    else current
  }

  /** The advance button's label. */
  function GetButtonText(status: string): (text: string)
    ensures text == "Xử lý đơn hàng" <==> GetNextStatus(status) == status
  {
    if status == Pending then "Duyệt đơn hàng"
    else if status == Approved then "Bắt đầu giao hàng"
    else if status == Delivering then "Xác nhận đã giao"
    else "Xử lý đơn hàng"
  }

  /** `n` presses of the advance button, starting from `s`. */
  function Advance(s: string, n: nat): string
    decreases n
  {
    if n == 0 then s else Advance(GetNextStatus(s), n - 1)
  }

  /** A fixed point of GetNextStatus stays put however often it is advanced. */
  lemma {:induction false} AdvanceFixed(s: string, n: nat)
    requires GetNextStatus(s) == s
    ensures Advance(s, n) == s
  {
    if n > 0 {
      AdvanceFixed(s, n - 1);
    }
  }

  /** From pending, three presses reach the delivered status and further presses keep it. */
  lemma {:induction false} AdvanceFromPending(n: nat)
    requires n >= 3
    ensures Advance(Pending, n) == Delivered
  {
    calc {
      Advance(Pending, n);
      Advance(Approved, n - 1);
      Advance(Delivering, n - 2);
      Advance(Delivered, n - 3);
    }
    AdvanceFixed(Delivered, n - 3);
  }

  /** Fewer than three presses from pending leave the order undelivered. */
  lemma AdvanceFromPendingEarly(n: nat)
    requires n < 3
    ensures !IsTerminal(Advance(Pending, n))
  {
    if n == 2 {
      assert Advance(Pending, 2) == Advance(Approved, 1) == Advance(Delivering, 0);
    } else if n == 1 {
      assert Advance(Pending, 1) == Advance(Approved, 0);
    }
  }

  /** The advance and cancel buttons are shown only for non-terminal statuses. */
  predicate ShowsActionButtons(status: string)
  {
    status != Delivered && status != Cancelled
  }

  /** For every known status that shows the buttons, both moves the dialog can
      request are accepted by the back end's transition check. */
  lemma ButtonsRequestLegalMoves(s: string)
    requires IsKnownStatus(s) && ShowsActionButtons(s)
    ensures ValidateStatusTransition(s, GetNextStatus(s))
    ensures ValidateStatusTransition(s, Cancelled)
  {
  }

  /** The status sent: the explicit argument when given (and non-empty), else the next status. */
  function StatusToUpdate(requested: Option<string>, current: string): (s: string)
    ensures requested.Some? && requested.value != "" ==> s == requested.value
    ensures (requested.None? || requested.value == "") ==> s == GetNextStatus(current)
  {
    match requested
    case Some(v) => if v != "" then v else GetNextStatus(current)
    case None => GetNextStatus(current)
  }

  /** The parts of the status-update response the dialog reads; a missing or
      falsy field is None or an empty string / zero. */
  datatype UpdateResponse = UpdateResponse(newStatus: Option<string>, finalAmount: Option<int>)

  /** What the dialog hands to its onStatusUpdate callback. */
  datatype ProcessedOrder = ProcessedOrder(id: int, status: string, finalAmount: int)

  function StatusOr(o: Option<string>, fallback: string): string
  {
    if o.Some? && o.value != "" then o.value else fallback
  }

  function AmountOr(o: Option<int>, fallback: int): int
  {
    if o.Some? && o.value != 0 then o.value else fallback
  }

  /** The dialog's state cells. */
  class OrderItemModal {
    const orderId: int
    var currentStatus: string
    var finalAmount: int
    var isProcessing: bool
    var processingError: Option<string>
    var showCancelConfirm: bool
    /** Set once the dialog has asked to be closed. */
    var closed: bool
    /** Every order handed to onStatusUpdate, in call order. */
    var reported: seq<ProcessedOrder>

    constructor (orderId: int)
      ensures this.orderId == orderId && currentStatus == Pending && finalAmount == 0
      ensures !isProcessing && processingError == None && !showCancelConfirm && !closed
      ensures reported == []
    {
      this.orderId := orderId;
      currentStatus := Pending;
      finalAmount := 0;
      isProcessing := false;
      processingError := None;
      showCancelConfirm := false;
      closed := false;
      reported := [];
    }

    /** The cancel button only opens the confirmation. */
    method HandleCancelOrder()
      modifies this
      ensures showCancelConfirm
      ensures currentStatus == old(currentStatus) && finalAmount == old(finalAmount)
      ensures isProcessing == old(isProcessing) && processingError == old(processingError)
      ensures closed == old(closed) && reported == old(reported)
    {
      showCancelConfirm := true;
    }

    /** One run of handleProcessOrder; `response` is the server's answer
        (Err carries the error message). Returns the status that was sent. */
    method HandleProcessOrder(requested: Option<string>, response: Result<UpdateResponse, string>)
      returns (sent: string)
      modifies this
      ensures sent == StatusToUpdate(requested, old(currentStatus))
      ensures !isProcessing && !showCancelConfirm
      ensures response.Err? ==>
        && currentStatus == old(currentStatus) && finalAmount == old(finalAmount)
        && processingError == Some(response.error)
        && closed == old(closed) && reported == old(reported)
      ensures response.Ok? ==>
        var status := StatusOr(response.value.newStatus, sent);
        var amount := AmountOr(response.value.finalAmount, old(finalAmount));
        && currentStatus == status
        && finalAmount == amount
        && processingError == None
        && reported == old(reported) + [ProcessedOrder(orderId, status, amount)]
        && closed == (old(closed) || status == Delivered || status == Cancelled)
    {
      isProcessing := true;
      processingError := None;
      sent := StatusToUpdate(requested, currentStatus);
      match response {
        case Err(message) =>
          processingError := Some(message);
        case Ok(body) =>
          var processed := ProcessedOrder(orderId, StatusOr(body.newStatus, sent),
                                          AmountOr(body.finalAmount, finalAmount));
          currentStatus := processed.status;
          finalAmount := processed.finalAmount;
          reported := reported + [processed];
          if processed.status == Delivered || processed.status == Cancelled {
            closed := true;
          }
      }
      isProcessing := false;
      showCancelConfirm := false;
    }
  }

  /** A successful advance without a reported status lands exactly on the
      next status, so the dialog closes after the third advance from pending. */
  lemma AdvanceClosesOnlyAtDelivered(s: string)
    requires IsKnownStatus(s) && ShowsActionButtons(s)
    ensures (GetNextStatus(s) == Delivered || GetNextStatus(s) == Cancelled) <==> s == Delivering
  {
  }
}
