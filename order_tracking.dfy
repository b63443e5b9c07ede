/** The customer's order-tracking page: status filter, sortable columns,
    and the expandable order details. */
module OrderTracking {
  import opened Common
  import opened TextUtil
  import opened Collections

  /** An order as the page holds it; `orderItems` is filled in once its
      details were fetched. */
  datatype Order = Order(id: int, fields: map<string, Value>, orderItems: Option<seq<Value>>)

  function Field(o: Order, key: string): Value
  {
    if key in o.fields then o.fields[key] else Undefined
  }

  datatype SortConfig = SortConfig(key: string, direction: Direction)

  /** The status filter: everything when empty, otherwise exactly the orders
      with that status. */
  function ByStatus(orders: seq<Order>, status: string): (r: seq<Order>)
    ensures status == "" ==> r == orders
    ensures status != "" ==> forall o :: o in r <==> o in orders && Field(o, "status") == Text(status)
  {
    if status == "" then orders else Filter(orders, o => Field(o, "status") == Text(status))
  }

  /** The comparator: smaller values first for `'asc'`, larger first otherwise. */
  function OrderBefore(config: SortConfig): (Order, Order) -> bool
  {
    (a: Order, b: Order) =>
      if config.direction == Asc then ValueLess(Field(a, config.key), Field(b, config.key))
      else ValueLess(Field(b, config.key), Field(a, config.key))
  }

  lemma OrderBeforeIsStrictOrder(config: SortConfig)
    ensures StrictOrder(OrderBefore(config))
  {
    var before := OrderBefore(config);
    forall a: Order
      ensures !before(a, a)
    {
      ValueLessIrreflexive(Field(a, config.key));
    }
    forall a: Order, b: Order, c: Order | before(a, b) && before(b, c)
      ensures before(a, c)
    {
      if config.direction == Asc {
        ValueLessTransitive(Field(a, config.key), Field(b, config.key), Field(c, config.key));
      } else {
        ValueLessTransitive(Field(c, config.key), Field(b, config.key), Field(a, config.key));
      }
    }
  }

  /** sortedAndFilteredOrders, built on a copy of the orders; no key means no sorting. */
  function SortedAndFiltered(orders: seq<Order>, status: string, config: SortConfig): (r: seq<Order>)
    ensures multiset(r) == multiset(ByStatus(orders, status))
    ensures config.key == "" ==> r == ByStatus(orders, status)
  {
    var filtered := ByStatus(orders, status);
    if config.key != "" then SortBy(filtered, OrderBefore(config)) else filtered
  }

  /** The list shown is a reordering of the filtered orders, in the chosen direction. */
  lemma SortedAndFilteredSpec(orders: seq<Order>, status: string, config: SortConfig)
    requires config.key != ""
    ensures var r := SortedAndFiltered(orders, status, config);
      && (forall o :: o in r <==> o in orders && (status == "" || Field(o, "status") == Text(status)))
      && (config.direction == Asc ==>
            forall i, j :: 0 <= i < j < |r| ==> !ValueLess(Field(r[j], config.key), Field(r[i], config.key)))
      && (config.direction == Desc ==>
            forall i, j :: 0 <= i < j < |r| ==> !ValueLess(Field(r[i], config.key), Field(r[j], config.key)))
  {
    var r := SortedAndFiltered(orders, status, config);
    OrderBeforeIsStrictOrder(config);
    SortBySorted(ByStatus(orders, status), OrderBefore(config));
    forall o
      ensures o in r <==> o in ByStatus(orders, status)
    {
      assert o in r <==> o in multiset(r);
      assert o in ByStatus(orders, status) <==> o in multiset(ByStatus(orders, status));
    }
  }

  /** requestSort: the same key while ascending turns descending; anything else is ascending. */
  function RequestSort(config: SortConfig, key: string): (r: SortConfig)
    ensures r.key == key
    ensures r.direction == Desc <==> config.key == key && config.direction == Asc
  {
    SortConfig(key, if config.key == key && config.direction == Asc then Desc else Asc)
  }

  /** Requesting the same key twice from ascending comes back to ascending. */
  lemma RequestSortTwice(config: SortConfig)
    requires config.direction == Asc
    ensures RequestSort(RequestSort(config, config.key), config.key) == config
  {
  }

  /** The order list with the fetched items put on the order with that id,
      and on no other. */
  function WithItems(orders: seq<Order>, id: int, items: seq<Value>): (r: seq<Order>)
    ensures |r| == |orders|
    ensures forall i :: 0 <= i < |orders| ==>
              r[i] == if orders[i].id == id then orders[i].(orderItems := Some(items)) else orders[i]
  {
    if orders == [] then []
    else [if orders[0].id == id then orders[0].(orderItems := Some(items)) else orders[0]]
         + WithItems(orders[1..], id, items)
  }

  lemma {:induction false} WithItemsIdempotent(orders: seq<Order>, id: int, items: seq<Value>)
    ensures WithItems(WithItems(orders, id, items), id, items) == WithItems(orders, id, items)
  {
    var once := WithItems(orders, id, items);
    var twice := WithItems(once, id, items);
    assert |twice| == |once|;
    forall i | 0 <= i < |once|
      ensures twice[i] == once[i]
    {
    }
  }

  /** What the details request returned: the order's items, or an error message. */
  datatype DetailsResponse = Details(items: seq<Value>) | DetailsError(message: string)

  class TrackingPage {
    var orders: seq<Order>
    var expandedOrderId: Option<int>
    var sortConfig: SortConfig
    var statusFilter: string
    var error: Option<string>

    constructor (orders: seq<Order>)
      ensures this.orders == orders && expandedOrderId == None
      ensures sortConfig == SortConfig("order_date", Desc) && statusFilter == "" && error == None
    {
      this.orders := orders;
      expandedOrderId := None;
      sortConfig := SortConfig("order_date", Desc);
      statusFilter := "";
      error := None;
    }

    method RequestSortKey(key: string)
      modifies this`sortConfig
      ensures sortConfig == RequestSort(old(sortConfig), key)
    {
      var direction := Asc;
      if sortConfig.key == key && sortConfig.direction == Asc {
        direction := Desc;
      }
      sortConfig := SortConfig(key, direction);
    }

    /** toggleOrderDetails: the expanded order collapses; any other order
        expands and its details are fetched into it. */
    method ToggleOrderDetails(orderId: int, response: DetailsResponse)
      modifies this`expandedOrderId, this`orders, this`error
      ensures old(expandedOrderId) == Some(orderId) ==>
                expandedOrderId == None && orders == old(orders) && error == old(error)
      ensures old(expandedOrderId) != Some(orderId) ==>
                && expandedOrderId == Some(orderId)
                && orders == (if response.Details? then WithItems(old(orders), orderId, response.items) else old(orders))
                && error == (if response.DetailsError? then Some(response.message) else old(error))
    {
      if expandedOrderId == Some(orderId) {
        expandedOrderId := None;
      } else {
        expandedOrderId := Some(orderId);
        match response {
          case Details(items) => orders := WithItems(orders, orderId, items);
          case DetailsError(message) => error := Some(message);
        }
      }
    }

    /** The list on screen; the orders themselves keep their order. */
    method Shown() returns (r: seq<Order>)
      ensures r == SortedAndFiltered(orders, statusFilter, sortConfig)
      ensures multiset(r) == multiset(ByStatus(orders, statusFilter))
    {
      var processed := orders;
      var status := statusFilter;
      if status != "" {
        processed := Filter(processed, o => Field(o, "status") == Text(status));
      }
      if sortConfig.key != "" {
        processed := SortBy(processed, OrderBefore(sortConfig));
      }
      r := processed;
    }
  }
}
