/** Back-end order rules: loyalty points, the points discount, the order
    status graph, order creation and status updates. */
module Orders {
  import opened Common

  // The five statuses an order can be in (the choices of Order.status).
  const Pending: string := "Chờ duyệt"
  const Approved: string := "Đã duyệt"
  const Delivering: string := "Đang giao"
  const Delivered: string := "Đã giao"
  const Cancelled: string := "Đã hủy"

  /** The statuses accepted as a new status by the status-update endpoint. */
  predicate IsKnownStatus(s: string)
  {
    s == Pending || s == Approved || s == Delivering || s == Delivered || s == Cancelled
  }

  predicate IsTerminal(s: string)
  {
    s == Delivered || s == Cancelled
  }

  // ---------------------------------------------------------------------
  // Points arithmetic
  // ---------------------------------------------------------------------

  /** Points earned for an amount: one point per full 10 000 (floor division). */
  function CalculatePoints(amount: int): (p: int)
    ensures p * 10000 <= amount < p * 10000 + 10000
    ensures amount < 10000 ==> p <= 0
    ensures 0 <= amount ==> 0 <= p
  {
    amount / 10000
  }

  /** The discount bought by a number of points: 10 000 per full ten points. */
  function CalculatePointsDiscount(pointsToUse: int): (d: int)
    ensures d % 10000 == 0
    ensures 0 <= pointsToUse ==> 0 <= d <= pointsToUse * 1000
    ensures 0 <= pointsToUse && pointsToUse % 10 == 0 ==> d == pointsToUse * 1000
    ensures pointsToUse * 1000 - 10000 < d <= pointsToUse * 1000
  {
    (pointsToUse / 10) * 10000
  }

  lemma {:induction false} PointsDiscountMonotone(p: int, q: int)
    requires p <= q
    ensures CalculatePointsDiscount(p) <= CalculatePointsDiscount(q)
  {
    DivMonotone(p, q, 10);
  }

  lemma {:induction false} DivMonotone(a: int, b: int, d: int)
    requires a <= b && 0 < d
    ensures a / d <= b / d
  {
    if a / d > b / d {
      assert (a / d) * d >= (b / d + 1) * d by {
        MulMonotone(b / d + 1, a / d, d);
      }
      assert false;
    }
  }

  lemma MulMonotone(x: int, y: int, d: int)
    requires x <= y && 0 < d
    ensures x * d <= y * d
  {
  }

  // ---------------------------------------------------------------------
  // Status transitions
  // ---------------------------------------------------------------------

  /** The statuses a given status may move to; unknown statuses have none. */
  function AllowedNext(current: string): seq<string>
  {
    if current == Pending then [Approved, Cancelled]
    else if current == Approved then [Delivering, Cancelled]
    else if current == Delivering then [Delivered, Cancelled]
    else []
  }

  predicate ValidateStatusTransition(current: string, next: string)
  {
    next in AllowedNext(current)
  }

  /** Position of a status on the delivery line; the cancelled status is past its end. */
  function Progress(s: string): int
  {
    if s == Pending then 0
    else if s == Approved then 1
    else if s == Delivering then 2
    else if s == Delivered then 3
    else if s == Cancelled then 4
    else -1
  }

  /** The transition table, stated independently: a legal move leaves a known
      non-terminal status and either cancels or advances exactly one step. */
  lemma TransitionCharacterised(current: string, next: string)
    ensures ValidateStatusTransition(current, next) <==>
      (IsKnownStatus(current) && !IsTerminal(current) &&
       (next == Cancelled || (next != Cancelled && Progress(next) == Progress(current) + 1)))
  {
  }

  /** Every legal move strictly increases Progress, so no status is ever revisited. */
  lemma TransitionProgresses(current: string, next: string)
    requires ValidateStatusTransition(current, next)
    ensures Progress(current) < Progress(next) && IsKnownStatus(next)
  {
  }

  /** Terminal and unknown statuses have no successors. */
  lemma NoMoveFromTerminalOrUnknown(current: string, next: string)
    requires IsTerminal(current) || !IsKnownStatus(current)
    ensures !ValidateStatusTransition(current, next)
  {
  }

  // ---------------------------------------------------------------------
  // Order creation
  // ---------------------------------------------------------------------

  datatype Product = Product(name: string, price: int, largeSizePrice: int, note: string)

  /** One entry of the request's `items` list; `size`, `product_note` may be missing. */
  datatype ItemRequest = ItemRequest(productId: int, quantity: int, size: Option<string>,
                                     price: int, productNote: Option<string>)

  /** One order line as stored: the price is the price the client sent. */
  datatype OrderLine = OrderLine(productId: int, quantity: int, price: int, size: string,
                                 productNote: string)

  datatype OrderError =
    | MissingField(field: string)
    | InvalidPaymentMethod
    | CustomerNotFound
    | ProductNotFound(productId: int)
    | InvalidQuantity(productId: int)
    | InvalidPrice(productId: int)
    | NoTable
    | OrderNotFound
    | InvalidStatus
    | IllegalTransition(from: string, to: string)

  function SizeOf(it: ItemRequest): string
  {
    match it.size
    case Some(s) => s
    case None => "default"
  }

  /** The catalogue price for a size: the large price for "large", the base price otherwise. */
  function ExpectedPrice(p: Product, size: string): int
  {
    if size == "large" then p.largeSizePrice else p.price
  }

  /** An item passes when its product exists, its quantity is positive and the
      price it carries is within 1 of the catalogue price. */
  predicate ItemAcceptable(products: map<int, Product>, it: ItemRequest)
  {
    it.productId in products && it.quantity > 0 &&
    Abs(ExpectedPrice(products[it.productId], SizeOf(it)) - it.price) <= 1
  }

  /** Checks one item: product lookup, then quantity, then price. */
  function CheckItem(products: map<int, Product>, it: ItemRequest): (r: Result<OrderLine, OrderError>)
    ensures r.Ok? <==> ItemAcceptable(products, it)
    ensures r.Ok? ==> r.value.price == it.price && r.value.quantity == it.quantity &&
                      r.value.productId == it.productId && r.value.size == SizeOf(it)
  {
    if it.productId !in products then Err(ProductNotFound(it.productId))
    else
      var product := products[it.productId];
      if it.quantity <= 0 then Err(InvalidQuantity(it.productId))
      else if Abs(ExpectedPrice(product, SizeOf(it)) - it.price) > 1 then Err(InvalidPrice(it.productId))
      else
        var note := match it.productNote case Some(n) => n case None => product.note;
        Ok(OrderLine(it.productId, it.quantity, it.price, SizeOf(it), note))
  }

  /** Checks the items in order; the first refused item decides the error. */
  function PriceItems(products: map<int, Product>, items: seq<ItemRequest>): Result<seq<OrderLine>, OrderError>
  {
    if items == [] then Ok([])
    else
      match PriceItems(products, items[..|items| - 1])
      case Err(e) => Err(e)
      case Ok(lines) =>
        match CheckItem(products, items[|items| - 1])
        case Err(e) => Err(e)
        case Ok(line) => Ok(lines + [line])
  }

  /** Σ price·quantity over the lines. */
  function LinesTotal(lines: seq<OrderLine>): int
  {
    if lines == [] then 0
    else LinesTotal(lines[..|lines| - 1]) + lines[|lines| - 1].price * lines[|lines| - 1].quantity
  }

  /** The item list is accepted exactly when every item is acceptable, and then
      there is one line per item carrying that item's sent price and quantity. */
  lemma {:induction false} PriceItemsAccepts(products: map<int, Product>, items: seq<ItemRequest>)
    ensures PriceItems(products, items).Ok? <==>
            (forall i :: 0 <= i < |items| ==> ItemAcceptable(products, items[i]))
    ensures PriceItems(products, items).Ok? ==>
            var lines := PriceItems(products, items).value;
            |lines| == |items| &&
            forall i :: 0 <= i < |items| ==>
              (lines[i].price == items[i].price && lines[i].quantity == items[i].quantity &&
               lines[i].productId == items[i].productId)
  {
    if items != [] {
      var init := items[..|items| - 1];
      PriceItemsAccepts(products, init);
      assert forall i :: 0 <= i < |init| ==> init[i] == items[i];
    }
  }

  /** An accepted order has only positive quantities. */
  lemma AcceptedLinesPositive(products: map<int, Product>, items: seq<ItemRequest>, i: int)
    requires PriceItems(products, items).Ok? && 0 <= i < |items|
    ensures items[i].quantity > 0
  {
    PriceItemsAccepts(products, items);
  }

  /** The loop of the order-creation endpoint: walks the items, stops at the
      first refused one and otherwise accumulates the lines and the total. */
  method AccumulateItems(products: map<int, Product>, items: seq<ItemRequest>)
    returns (r: Result<(int, seq<OrderLine>), OrderError>)
    ensures PriceItems(products, items).Err? ==> r == Err(PriceItems(products, items).error)
    ensures PriceItems(products, items).Ok? ==>
            r == Ok((LinesTotal(PriceItems(products, items).value), PriceItems(products, items).value))
  {
    var total := 0;
    var lines: seq<OrderLine> := [];
    var i := 0;
    while i < |items|
      invariant 0 <= i <= |items|
      invariant PriceItems(products, items[..i]) == Ok(lines)
      invariant total == LinesTotal(lines)
    {
      assert items[..i + 1][..i] == items[..i];
      var checked := CheckItem(products, items[i]);
      if checked.Err? {
        PriceItemsPrefixErr(products, items, i + 1);
        return Err(checked.error);
      }
      assert (lines + [checked.value])[..|lines|] == lines;
      total := total + checked.value.price * checked.value.quantity;
      lines := lines + [checked.value];
      i := i + 1;
    }
    assert items[..i] == items;
    r := Ok((total, lines));
  }

  /** Once a prefix of the items is refused, the whole list is refused with the same error. */
  lemma {:induction false} PriceItemsPrefixErr(products: map<int, Product>, items: seq<ItemRequest>, k: nat)
    requires k <= |items| && PriceItems(products, items[..k]).Err?
    ensures PriceItems(products, items) == PriceItems(products, items[..k])
  {
    if k < |items| {
      assert items[..|items| - 1][..k] == items[..k];
      PriceItemsPrefixErr(products, items[..|items| - 1], k);
    } else {
      assert items[..k] == items;
    }
  }

  /** Points used, their discount and the amount charged. */
  datatype PointsUse = PointsUse(pointsUsed: int, pointsDiscount: int, finalAmount: int)

  /** Ten times the number of 10 000 blocks needed to cover the total (rounded up). */
  function MaxPointsNeeded(total: int): int
  {
    (total + 9999) / 10000 * 10
  }

  /** The points branch of order creation: points are only spent when asked
      for and the customer has at least ten of them. */
  function ApplyPoints(total: int, customerPoints: int, usePoints: bool): (r: PointsUse)
    ensures !(usePoints && customerPoints >= 10) ==> r == PointsUse(0, 0, total)
    ensures usePoints && customerPoints >= 10 ==>
      && r.pointsUsed % 10 == 0
      && r.pointsUsed <= customerPoints
      && r.pointsUsed <= MaxPointsNeeded(total)
      && r.pointsDiscount % 10000 == 0
      && r.finalAmount >= 0
      && (total >= 0 ==> 0 <= r.pointsUsed && r.finalAmount <= total)
      && Min(customerPoints, MaxPointsNeeded(total)) - 10 < r.pointsUsed
      && r.pointsDiscount == r.pointsUsed * 1000
      && r.finalAmount == Max(total - r.pointsDiscount, 0)
      && (customerPoints / 10 * 10 >= MaxPointsNeeded(total) ==> r.finalAmount == 0)
  {
    if usePoints && customerPoints >= 10 then
      var maxNeeded := MaxPointsNeeded(total);
      var usable := (customerPoints / 10) * 10;
      var used := Min(usable, maxNeeded);
      var discount := CalculatePointsDiscount(used);
      PointsUse(used, discount, Max(total - discount, 0))
    else
      PointsUse(0, 0, total)
  }

  /** A customer row: the fields order creation reads and updates. */
  class Customer {
    const phone: string
    var points: int
    var totalSpent: int
    /** Ids of the tables the customer sits at, in the relation's order. */
    var tables: seq<int>

    constructor (phone: string, points: int, totalSpent: int, tables: seq<int>)
      ensures this.phone == phone && this.points == points
      ensures this.totalSpent == totalSpent && this.tables == tables
    {
      this.phone := phone;
      this.points := points;
      this.totalSpent := totalSpent;
      this.tables := tables;
    }
  }

  /** The body of a create-order request; absent fields are None. */
  datatype CreateRequest = CreateRequest(customerPhone: Option<string>, items: Option<seq<ItemRequest>>,
                                         paymentMethod: Option<string>, usePoints: bool)

  /** What a successful create-order call reports. */
  datatype OrderReceipt = OrderReceipt(totalAmount: int, pointsEarned: int, pointsUsed: int,
                                       pointsDiscount: int, finalAmount: int,
                                       customerPoints: int, customerTotalSpent: int,
                                       status: string, tableId: int, lines: seq<OrderLine>)

  /** The refusals of order creation that happen before anything is written,
      in the order the endpoint checks them. */
  function CreateOrderPrecheck(req: CreateRequest, paymentMethods: set<string>,
                               customers: set<string>, products: map<int, Product>): Option<OrderError>
  {
    if req.customerPhone.None? then Some(MissingField("customer_phone"))
    else if req.items.None? then Some(MissingField("items"))
    else if req.paymentMethod.None? then Some(MissingField("payment_method"))
    else if req.paymentMethod.value !in paymentMethods then Some(InvalidPaymentMethod)
    else if req.customerPhone.value !in customers then Some(CustomerNotFound)
    else if PriceItems(products, req.items.value).Err? then Some(PriceItems(products, req.items.value).error)
    else None
  }

  /** Order creation. Refusals write nothing. Otherwise the customer's points
      become old - used + earned (earned on the undiscounted total) and the
      amount spent grows by the charged amount. A customer who sits at no
      table is still charged, but the call then reports NoTable, because the
      table lookup comes after the customer is saved and its failure does not
      undo the write. */
  method CreateOrder(req: CreateRequest, paymentMethods: set<string>,
                     customers: map<string, Customer>, products: map<int, Product>)
    returns (r: Result<OrderReceipt, OrderError>)
    requires forall p :: p in customers ==> customers[p].phone == p
    modifies customers.Values
    ensures var pre := CreateOrderPrecheck(req, paymentMethods, customers.Keys, products);
      pre.Some? ==> r == Err(pre.value) && forall c :: c in customers.Values ==> unchanged(c)
    ensures var pre := CreateOrderPrecheck(req, paymentMethods, customers.Keys, products);
      pre.None? ==>
        var c := customers[req.customerPhone.value];
        var lines := PriceItems(products, req.items.value).value;
        var total := LinesTotal(lines);
        var use := ApplyPoints(total, old(c.points), req.usePoints);
        && c.points == old(c.points) - use.pointsUsed + CalculatePoints(total)
        && c.totalSpent == old(c.totalSpent) + use.finalAmount
        && c.tables == old(c.tables)
        && (forall d :: d in customers.Values && d != c ==> unchanged(d))
        && (old(c.tables) == [] <==> r == Err(NoTable))
        && (r.Ok? ==> r.value == OrderReceipt(total, CalculatePoints(total), use.pointsUsed,
                                              use.pointsDiscount, use.finalAmount, c.points,
                                              c.totalSpent, Pending, c.tables[0], lines))
  {
    var pre := CreateOrderPrecheck(req, paymentMethods, customers.Keys, products);
    if pre.Some? {
      return Err(pre.value);
    }
    var customer := customers[req.customerPhone.value];
    var priced := AccumulateItems(products, req.items.value);
    var (total, lines) := priced.value;
    var earned := CalculatePoints(total);
    var use := ApplyPoints(total, customer.points, req.usePoints);
    if req.usePoints {
      customer.points := customer.points - use.pointsUsed;
    }
    customer.points := customer.points + earned;
    customer.totalSpent := customer.totalSpent + use.finalAmount;
    if customer.tables == [] {
      return Err(NoTable);
    }
    r := Ok(OrderReceipt(total, earned, use.pointsUsed, use.pointsDiscount, use.finalAmount,
                         customer.points, customer.totalSpent, Pending, customer.tables[0], lines));
  }

  // ---------------------------------------------------------------------
  // Status update
  // ---------------------------------------------------------------------

  /** The stored part of an order that the status endpoint reads and writes. */
  class OrderRow {
    var status: string

    constructor (status: string)
      ensures this.status == status
    {
      this.status := status;
    }
  }

  datatype StatusChange = StatusChange(oldStatus: string, newStatus: string)

  /** Status update: checks the field is present, the order exists, the status
      is one of the choices and the move is legal, in that order; only then is
      the status written. */
  method UpdateOrderStatus(orders: map<int, OrderRow>, orderId: int, newStatus: Option<string>)
    returns (r: Result<StatusChange, OrderError>)
    modifies orders.Values
    ensures newStatus.None? ==> r == Err(MissingField("status"))
    ensures newStatus.Some? && orderId !in orders ==> r == Err(OrderNotFound)
    ensures newStatus.Some? && orderId in orders && !IsKnownStatus(newStatus.value) ==> r == Err(InvalidStatus)
    ensures r.Ok? <==>
      newStatus.Some? && orderId in orders && ValidateStatusTransition(old(orders[orderId].status), newStatus.value)
    ensures r.Ok? ==> r.value == StatusChange(old(orders[orderId].status), newStatus.value) &&
                      orders[orderId].status == newStatus.value
    ensures forall o :: o in orders.Values && (r.Err? || o != orders[orderId]) ==> o.status == old(o.status)
  {
    if newStatus.None? {
      return Err(MissingField("status"));
    }
    if orderId !in orders {
      return Err(OrderNotFound);
    }
    var order := orders[orderId];
    var target := newStatus.value;
    if !IsKnownStatus(target) {
      return Err(InvalidStatus);
    }
    if !ValidateStatusTransition(order.status, target) {
      return Err(IllegalTransition(order.status, target));
    }
    var previous := order.status;
    order.status := target;
    r := Ok(StatusChange(previous, target));
  }
}
