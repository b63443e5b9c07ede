/** The server's table-occupancy endpoints: seating a customer (which unseats
    them everywhere else), unseating one, and the availability query. */
module TableOccupancy {
  import opened Common

  /** A table row with the customers related to it, identified by phone. */
  datatype TableRow = TableRow(id: int, customers: set<string>)

  datatype TableError = TableNotFound | MissingPhone | CustomerNotFound | TableOccupied | NotAtTable

  const CustomerAssigned := "customer_assigned"
  const CustomerRemoved := "customer_removed"

  /** A message broadcast to every table-feed subscriber. */
  datatype Notice = Notice(tableId: int, action: string, phone: string)

  predicate UniqueIds(tables: seq<TableRow>)
  {
    forall i, j :: 0 <= i < j < |tables| ==> tables[i].id != tables[j].id
  }

  /** Each customer sits at at most one table. */
  predicate AtMostOneTable(tables: seq<TableRow>)
  {
    forall i, j, p ::
      (0 <= i < |tables| && 0 <= j < |tables| && p in tables[i].customers && p in tables[j].customers) ==> i == j
  }

  /** `Table.objects.filter(id=...).first()`. */
  function FindTable(tables: seq<TableRow>, id: int): (r: Option<nat>)
    ensures r.None? <==> forall i :: 0 <= i < |tables| ==> tables[i].id != id
    ensures r.Some? ==> r.value < |tables| && tables[r.value].id == id &&
                        forall k :: 0 <= k < r.value ==> tables[k].id != id
  {
    if tables == [] then None
    else if tables[0].id == id then Some(0)
    else
      var rest := FindTable(tables[1..], id);
      if rest.Some? then Some(rest.value + 1) else None
  }

  /** `not phone`: a missing phone and an empty one are both refused. */
  predicate HasPhone(phone: Option<string>)
  {
    phone.Some? && phone.value != ""
  }

  /** The checks of the assign endpoint, in the order they are made. */
  function AssignCheck(tables: seq<TableRow>, customers: set<string>, tableId: int, phone: Option<string>): (r: Option<TableError>)
    ensures r == Some(TableNotFound) <==> FindTable(tables, tableId).None?
    ensures r == Some(MissingPhone) <==> FindTable(tables, tableId).Some? && !HasPhone(phone)
    ensures r == Some(CustomerNotFound) <==>
              FindTable(tables, tableId).Some? && HasPhone(phone) && phone.value !in customers
    ensures r == Some(TableOccupied) <==>
              FindTable(tables, tableId).Some? && HasPhone(phone) && phone.value in customers &&
              tables[FindTable(tables, tableId).value].customers != {}
    ensures r.None? <==>
              FindTable(tables, tableId).Some? && HasPhone(phone) && phone.value in customers &&
              tables[FindTable(tables, tableId).value].customers == {}
  {
    var k := FindTable(tables, tableId);
    if k.None? then Some(TableNotFound)
    else if !HasPhone(phone) then Some(MissingPhone)
    else if phone.value !in customers then Some(CustomerNotFound)
    else if tables[k.value].customers != {} then Some(TableOccupied)
    else None
  }

  /** The relation after a successful assign onto the table at index k: the
      customer leaves every other table and joins that one. */
  function Assigned(tables: seq<TableRow>, k: nat, phone: string): (r: seq<TableRow>)
    requires k < |tables|
    ensures |r| == |tables|
    ensures forall i :: 0 <= i < |tables| ==> r[i].id == tables[i].id
  {
    seq(|tables|, i requires 0 <= i < |tables| =>
      if i == k then tables[i].(customers := tables[i].customers + {phone})
      else tables[i].(customers := tables[i].customers - {phone}))
  }

  /** After an assign onto an empty table, the table holds exactly the
      customer, the customer sits nowhere else, and every other seat is kept. */
  lemma AssignedSeatsOnlyThere(tables: seq<TableRow>, k: nat, phone: string)
    requires k < |tables| && tables[k].customers == {}
    ensures var r := Assigned(tables, k, phone);
      && r[k].customers == {phone}
      && (forall i :: 0 <= i < |r| && phone in r[i].customers ==> i == k)
      && forall i, p :: 0 <= i < |tables| && i != k && p != phone ==> (p in r[i].customers <==> p in tables[i].customers)
  {
  }

  /** Assigning keeps every customer at at most one table. */
  lemma AssignedKeepsAtMostOne(tables: seq<TableRow>, k: nat, phone: string)
    requires AtMostOneTable(tables) && k < |tables|
    ensures AtMostOneTable(Assigned(tables, k, phone))
  {
    var r := Assigned(tables, k, phone);
    forall i, j, p | 0 <= i < |r| && 0 <= j < |r| && p in r[i].customers && p in r[j].customers
      ensures i == j
    {
      if p != phone {
        assert p in tables[i].customers && p in tables[j].customers;
      }
    }
  }

  /** The removal notices the assign loop sends, one per table the customer
      sits at, in table order. */
  function RemovalNotices(tables: seq<TableRow>, phone: string): seq<Notice>
  {
    if tables == [] then []
    else
      var last := tables[|tables| - 1];
      RemovalNotices(tables[..|tables| - 1], phone) +
      (if phone in last.customers then [Notice(last.id, CustomerRemoved, phone)] else [])
  }

  /** A notice is sent exactly for each table the customer sat at. */
  lemma {:induction false} RemovalNoticesExactly(tables: seq<TableRow>, phone: string)
    ensures forall x :: x in RemovalNotices(tables, phone) <==>
      exists i :: 0 <= i < |tables| && phone in tables[i].customers && x == Notice(tables[i].id, CustomerRemoved, phone)
  {
    if tables != [] {
      var init := tables[..|tables| - 1];
      RemovalNoticesExactly(init, phone);
      forall x | (exists i :: 0 <= i < |tables| && phone in tables[i].customers && x == Notice(tables[i].id, CustomerRemoved, phone))
        ensures x in RemovalNotices(tables, phone)
      {
        var i :| 0 <= i < |tables| && phone in tables[i].customers && x == Notice(tables[i].id, CustomerRemoved, phone);
        if i < |tables| - 1 {
          assert init[i] == tables[i];
        }
      }
      forall x | x in RemovalNotices(tables, phone)
        ensures exists i :: 0 <= i < |tables| && phone in tables[i].customers && x == Notice(tables[i].id, CustomerRemoved, phone)
      {
        if x in RemovalNotices(init, phone) {
          var i :| 0 <= i < |init| && phone in init[i].customers && x == Notice(init[i].id, CustomerRemoved, phone);
          assert tables[i] == init[i];
        }
      }
    }
  }

  /** With unique table ids no table gets two removal notices. */
  lemma {:induction false} RemovalNoticesDistinct(tables: seq<TableRow>, phone: string)
    requires UniqueIds(tables)
    ensures forall a, b :: 0 <= a < b < |RemovalNotices(tables, phone)| ==>
              RemovalNotices(tables, phone)[a].tableId != RemovalNotices(tables, phone)[b].tableId
  {
    if tables != [] {
      var init := tables[..|tables| - 1];
      assert UniqueIds(init);
      RemovalNoticesDistinct(init, phone);
      RemovalNoticesExactly(init, phone);
      var ns0 := RemovalNotices(init, phone);
      var ns := RemovalNotices(tables, phone);
      forall a, b | 0 <= a < b < |ns|
        ensures ns[a].tableId != ns[b].tableId
      {
        var last := tables[|tables| - 1];
        assert ns == ns0 + (if phone in last.customers then [Notice(last.id, CustomerRemoved, phone)] else []);
        if b >= |ns0| {
          assert ns[b].tableId == last.id;
          assert ns[a] == ns0[a] && ns[a] in ns0;
          var i :| 0 <= i < |init| && phone in init[i].customers && ns[a] == Notice(init[i].id, CustomerRemoved, phone);
          assert init[i] == tables[i];
          assert i < |tables| - 1 && tables[i].id != tables[|tables| - 1].id;
          assert ns[a].tableId != ns[b].tableId;
        } else {
          assert ns[a] == ns0[a] && ns[b] == ns0[b];
          assert ns0[a].tableId != ns0[b].tableId;
        }
      }
    }
  }

  /** The checks of the remove endpoint, in the order they are made. */
  function RemoveCheck(tables: seq<TableRow>, customers: set<string>, tableId: int, phone: Option<string>): (r: Option<TableError>)
    ensures r == Some(TableNotFound) <==> FindTable(tables, tableId).None?
    ensures r == Some(MissingPhone) <==> FindTable(tables, tableId).Some? && !HasPhone(phone)
    ensures r == Some(CustomerNotFound) <==>
              FindTable(tables, tableId).Some? && HasPhone(phone) && phone.value !in customers
    ensures r == Some(NotAtTable) <==>
              FindTable(tables, tableId).Some? && HasPhone(phone) && phone.value in customers &&
              phone.value !in tables[FindTable(tables, tableId).value].customers
    ensures r.None? <==>
              FindTable(tables, tableId).Some? && HasPhone(phone) && phone.value in customers &&
              phone.value in tables[FindTable(tables, tableId).value].customers
  {
    var k := FindTable(tables, tableId);
    if k.None? then Some(TableNotFound)
    else if !HasPhone(phone) then Some(MissingPhone)
    else if phone.value !in customers then Some(CustomerNotFound)
    else if phone.value !in tables[k.value].customers then Some(NotAtTable)
    else None
  }

  /** The relation after removing one customer from the table at index k. */
  function Removed(tables: seq<TableRow>, k: nat, phone: string): seq<TableRow>
    requires k < |tables|
  {
    tables[k := tables[k].(customers := tables[k].customers - {phone})]
  }

  /** Removing touches only the one relation; it cannot break the invariant. */
  lemma RemovedKeepsAtMostOne(tables: seq<TableRow>, k: nat, phone: string)
    requires AtMostOneTable(tables) && k < |tables|
    ensures AtMostOneTable(Removed(tables, k, phone))
  {
    var r := Removed(tables, k, phone);
    forall i, j, p | 0 <= i < |r| && 0 <= j < |r| && p in r[i].customers && p in r[j].customers
      ensures i == j
    {
      assert p in tables[i].customers && p in tables[j].customers;
    }
  }

  datatype Availability = Availability(tableId: int, isOccupied: bool, customerCount: nat)

  /** check_table_availability: a table is occupied exactly when it has a customer. */
  function CheckAvailability(tables: seq<TableRow>, tableId: int): (r: Result<Availability, TableError>)
    ensures r.Err? <==> FindTable(tables, tableId).None?
    ensures r.Err? ==> r.error == TableNotFound
    ensures r.Ok? ==>
      var k := FindTable(tables, tableId).value;
      r.value.tableId == tableId && r.value.customerCount == |tables[k].customers| &&
      (r.value.isOccupied <==> r.value.customerCount > 0)
  {
    var k := FindTable(tables, tableId);
    if k.None? then Err(TableNotFound)
    else Ok(Availability(tableId, tables[k.value].customers != {}, |tables[k.value].customers|))
  }

  /** The row without the customer. */
  function Unseated(row: TableRow, phone: string): TableRow
  {
    row.(customers := row.customers - {phone})
  }

  /** The notices for one more table are those for the tables before it,
      then one for it when the customer sits there. */
  lemma RemovalNoticesSnoc(tables: seq<TableRow>, i: nat, phone: string)
    requires i < |tables|
    ensures RemovalNotices(tables[..i + 1], phone) ==
      RemovalNotices(tables[..i], phone) +
      (if phone in tables[i].customers then [Notice(tables[i].id, CustomerRemoved, phone)] else [])
  {
    assert tables[..i + 1][..i] == tables[..i];
  }

  /** Unseating the customer from every table but the empty target, then
      seating them there, is the assigned relation. */
  lemma SeatAfterLoop(before: seq<TableRow>, after: seq<TableRow>, k: nat, phone: string)
    requires k < |before| == |after| && before[k].customers == {}
    requires forall j :: 0 <= j < |after| ==> after[j] == if j != k then Unseated(before[j], phone) else before[j]
    ensures after[k := after[k].(customers := after[k].customers + {phone})] == Assigned(before, k, phone)
  {
  }

  /** The tables, the registered customers and the notices broadcast so far. */
  class TableService {
    var tables: seq<TableRow>
    var customers: set<string>
    var notices: seq<Notice>

    constructor (tables: seq<TableRow>, customers: set<string>)
      ensures this.tables == tables && this.customers == customers && notices == []
    {
      this.tables := tables;
      this.customers := customers;
      notices := [];
    }

    /** assign_customer_to_table: on success the customer is unseated from
        each table they held, with one removal notice per table, then seated
        at the target with one assignment notice; a refusal changes nothing. */
    method AssignCustomer(tableId: int, phone: Option<string>) returns (r: Result<set<string>, TableError>)
      modifies this`tables, this`notices
      ensures AssignCheck(old(tables), customers, tableId, phone).Some? ==>
        && r == Err(AssignCheck(old(tables), customers, tableId, phone).value)
        && tables == old(tables) && notices == old(notices)
      ensures AssignCheck(old(tables), customers, tableId, phone).None? ==>
        var k := FindTable(old(tables), tableId).value;
        && r == Ok({phone.value})
        && tables == Assigned(old(tables), k, phone.value)
        && notices == old(notices) + RemovalNotices(old(tables), phone.value) +
                      [Notice(tableId, CustomerAssigned, phone.value)]
    {
      var check := AssignCheck(tables, customers, tableId, phone);
      if check.Some? {
        return Err(check.value);
      }
      var k := FindTable(tables, tableId).value;
      var p := phone.value;
      var i := 0;
      while i < |tables|
        invariant 0 <= i <= |tables| == |old(tables)|
        invariant forall j :: 0 <= j < |tables| ==>
                    tables[j] == if j < i && j != k then Unseated(old(tables)[j], p) else old(tables)[j]
        invariant notices == old(notices) + RemovalNotices(old(tables)[..i], p)
      {
        var row := tables[i];
        RemovalNoticesSnoc(old(tables), i, p);
        if i != k {
          tables := tables[i := Unseated(row, p)];
        }
        if p in row.customers {
          notices := notices + [Notice(row.id, CustomerRemoved, p)];
        }
        i := i + 1;
      }
      assert old(tables)[..i] == old(tables);
      SeatAfterLoop(old(tables), tables, k, p);
      tables := tables[k := tables[k].(customers := tables[k].customers + {p})];
      notices := notices + [Notice(tableId, CustomerAssigned, p)];
      return Ok({p});
    }

    /** remove_customer_from_table: on success only that customer leaves that
        table and the remaining occupants are returned. */
    method RemoveCustomer(tableId: int, phone: Option<string>) returns (r: Result<set<string>, TableError>)
      modifies this`tables
      ensures RemoveCheck(old(tables), customers, tableId, phone).Some? ==>
        r == Err(RemoveCheck(old(tables), customers, tableId, phone).value) && tables == old(tables)
      ensures RemoveCheck(old(tables), customers, tableId, phone).None? ==>
        var k := FindTable(old(tables), tableId).value;
        && tables == Removed(old(tables), k, phone.value)
        && r == Ok(old(tables)[k].customers - {phone.value})
        && |r.value| == |old(tables)[k].customers| - 1
    {
      var check := RemoveCheck(tables, customers, tableId, phone);
      if check.Some? {
        return Err(check.value);
      }
      var k := FindTable(tables, tableId).value;
      tables := tables[k := tables[k].(customers := tables[k].customers - {phone.value})];
      return Ok(tables[k].customers);
    }
  }
}
