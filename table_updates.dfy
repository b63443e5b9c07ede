/** The table-occupancy push feed: exponential backoff that gives up after
    five attempts, and the occupant update applied for each table event. */
module TableUpdates {
  import opened Common
  import opened Reconnect

  const MaxReconnectAttempts := 5
  const BaseDelay := 1000
  const MaxDelay := 30000

  function Pow2(n: nat): (p: nat)
    ensures p >= 1
  {
    if n == 0 then 1 else 2 * Pow2(n - 1)
  }

  lemma {:induction false} Pow2Monotone(a: nat, b: nat)
    requires a <= b
    ensures Pow2(a) <= Pow2(b)
  {
    if a < b {
      Pow2Monotone(a, b - 1);
    }
  }

  /** getReconnectDelay: 1000 ms doubled per attempt, capped at 30 s. */
  function ReconnectDelay(attempts: nat): (d: int)
    ensures BaseDelay <= d <= MaxDelay
  {
    Min(BaseDelay * Pow2(attempts), MaxDelay)
  }

  /** The delay never shrinks as the attempt count grows. */
  lemma ReconnectDelayMonotone(a: nat, b: nat)
    requires a <= b
    ensures ReconnectDelay(a) <= ReconnectDelay(b)
  {
    Pow2Monotone(a, b);
  }

  /** The first delays: 1, 2, 4, 8 and 16 seconds, then the 30 s cap. */
  lemma ReconnectDelaySchedule()
    ensures ReconnectDelay(0) == 1000 && ReconnectDelay(1) == 2000 && ReconnectDelay(2) == 4000
    ensures ReconnectDelay(3) == 8000 && ReconnectDelay(4) == 16000 && ReconnectDelay(5) == 30000
  {
    assert Pow2(5) == 32;
  }

  /** connect: at the attempt limit the feed fails and constructs nothing;
      otherwise it constructs a socket, or, when that throws, records an
      error and retries. */
  function ConnectStep(s: FeedState<int>, throws: bool): FeedState<int>
  {
    if s.attempts >= MaxReconnectAttempts then s.(status := Failed)
    else if throws then Retry(s.(status := Error), ReconnectDelay)
    else s.(status := Connecting, socketsOpened := s.socketsOpened + 1)
  }

  /** One event's effect on the connection state. */
  function Step(s: FeedState<int>, e: FeedEvent): FeedState<int>
  {
    match e
    case Connect(throws) => ConnectStep(s, throws)
    case Open => s.(status := Connected, attempts := 0)
    case SocketError => s.(status := Error)
    case Close(code) =>
      if code != NormalClosure then Retry(s.(status := Disconnected), ReconnectDelay) else s.(status := Disconnected)
    case TimerFire(t, throws) =>
      if t in s.timers then ConnectStep(s.(timers := s.timers - {t}), throws) else s
    case Unmount => Cleanup(s)
  }

  function Run(s: FeedState<int>, events: seq<FeedEvent>): FeedState<int>
    decreases |events|
  {
    if events == [] then s else Run(Step(s, events[0]), events[1..])
  }

  /** An abnormal close raises the counter by one and adds exactly one
      pending timer, with the delay for the raised count; a normal close
      schedules nothing and leaves the counter alone. */
  lemma CloseSchedulesOneReconnect(s: FeedState<int>, code: int)
    requires TimersFresh(s)
    ensures var r := Step(s, Close(code));
      && r.status == Disconnected
      && (code != NormalClosure ==>
            && r.attempts == s.attempts + 1
            && s.nextTimer !in s.timers
            && r.timers == s.timers[s.nextTimer := ReconnectDelay(s.attempts + 1)])
      && (code == NormalClosure ==> r.attempts == s.attempts && r.timers == s.timers)
  {
  }

  /** At the attempt limit, connecting sets the failed status, opens no
      socket and schedules nothing. */
  lemma ConnectGivesUp(s: FeedState<int>, throws: bool)
    requires s.attempts >= MaxReconnectAttempts
    ensures Step(s, Connect(throws)) == s.(status := Failed)
  {
  }

  /** Below the limit, connecting either opens a socket or schedules exactly one retry. */
  lemma ConnectBelowLimit(s: FeedState<int>, throws: bool)
    requires s.attempts < MaxReconnectAttempts && TimersFresh(s)
    ensures var r := Step(s, Connect(throws));
      && (!throws ==> r.status == Connecting && r.socketsOpened == s.socketsOpened + 1 && r.timers == s.timers)
      && (throws ==> r.status == Error && r.socketsOpened == s.socketsOpened && r.attempts == s.attempts + 1 &&
                     s.nextTimer !in s.timers && r.timers == s.timers[s.nextTimer := ReconnectDelay(s.attempts + 1)])
  {
  }

  lemma OpenResets(s: FeedState<int>)
    ensures Step(s, Open).status == Connected && Step(s, Open).attempts == 0
  {
  }

  /** The timer ids stay fresh, and a connected feed has a zero counter. */
  predicate Inv(s: FeedState<int>)
  {
    TimersFresh(s) && (s.status == Connected ==> s.attempts == 0)
  }

  lemma StepKeepsInv(s: FeedState<int>, e: FeedEvent)
    requires Inv(s)
    ensures Inv(Step(s, e))
  {
  }

  lemma {:induction false} RunKeepsInv(s: FeedState<int>, events: seq<FeedEvent>)
    requires Inv(s)
    ensures Inv(Run(s, events))
    decreases |events|
  {
    if events != [] {
      StepKeepsInv(s, events[0]);
      RunKeepsInv(Step(s, events[0]), events[1..]);
    }
  }

  /** The cleanup cancels the timer the ref holds: when it would have gone
      off afterwards, nothing happens and no socket is opened. */
  lemma UnmountCancelsReconnect(s: FeedState<int>, code: int, throws: bool)
    requires TimersFresh(s) && code != NormalClosure
    ensures var closed := Step(s, Close(code));
      var t := closed.timerRef.value;
      && t in closed.timers
      && Step(Step(closed, Unmount), TimerFire(t, throws)) == Step(closed, Unmount)
  {
  }

  /** One abnormal close followed by its reconnect timer, starting with no
      pending timer: the counter goes up by one, and the reconnect opens a
      socket below the limit and fails at it. */
  lemma CloseAndReconnect(s: FeedState<int>, k: nat)
    requires s.attempts == k && s.nextTimer == k && s.timers == map[] && k < MaxReconnectAttempts
    ensures var r := Step(Step(s, Close(1006)), TimerFire(k, false));
      && r.attempts == k + 1 && r.nextTimer == k + 1 && r.timers == map[]
      && (k + 1 < MaxReconnectAttempts ==> r.status == Connecting && r.socketsOpened == s.socketsOpened + 1)
      && (k + 1 >= MaxReconnectAttempts ==> r.status == Failed && r.socketsOpened == s.socketsOpened)
  {
    var c := Step(s, Close(1006));
    assert c.timers == map[k := ReconnectDelay(k + 1)];
    assert c.timers - {k} == map[];
  }

  lemma RunPair(s: FeedState<int>, a: FeedEvent, b: FeedEvent, rest: seq<FeedEvent>)
    ensures Run(s, [a, b] + rest) == Run(Step(Step(s, a), b), rest)
  {
    assert ([a, b] + rest)[1..] == [b] + rest;
    assert ([b] + rest)[1..] == rest;
  }

  /** Five abnormal closes in a row, each followed by its reconnect, leave
      the feed failed after five sockets. */
  lemma GivesUpAfterFiveClosures()
    ensures var trace := [Connect(false),
                          Close(1006), TimerFire(0, false),
                          Close(1006), TimerFire(1, false),
                          Close(1006), TimerFire(2, false),
                          Close(1006), TimerFire(3, false),
                          Close(1006), TimerFire(4, false)];
      var r := Run(Initial(), trace);
      r.status == Failed && r.socketsOpened == 5 && r.attempts == 5 && r.timers == map[]
  {
    var s0: FeedState<int> := Initial();
    var s1 := Step(s0, Connect(false));
    CloseAndReconnect(s1, 0);
    var s3 := Step(Step(s1, Close(1006)), TimerFire(0, false));
    CloseAndReconnect(s3, 1);
    var s5 := Step(Step(s3, Close(1006)), TimerFire(1, false));
    CloseAndReconnect(s5, 2);
    var s7 := Step(Step(s5, Close(1006)), TimerFire(2, false));
    CloseAndReconnect(s7, 3);
    var s9 := Step(Step(s7, Close(1006)), TimerFire(3, false));
    CloseAndReconnect(s9, 4);
    var s11 := Step(Step(s9, Close(1006)), TimerFire(4, false));
    var t9 := [Close(1006), TimerFire(4, false)];
    var t7 := [Close(1006), TimerFire(3, false)] + t9;
    var t5 := [Close(1006), TimerFire(2, false)] + t7;
    var t3 := [Close(1006), TimerFire(1, false)] + t5;
    var t1 := [Close(1006), TimerFire(0, false)] + t3;
    assert [Connect(false)] + t1 == [Connect(false),
                                     Close(1006), TimerFire(0, false),
                                     Close(1006), TimerFire(1, false),
                                     Close(1006), TimerFire(2, false),
                                     Close(1006), TimerFire(3, false),
                                     Close(1006), TimerFire(4, false)];
    assert ([Connect(false)] + t1)[1..] == t1;
    RunPair(s1, Close(1006), TimerFire(0, false), t3);
    RunPair(s3, Close(1006), TimerFire(1, false), t5);
    RunPair(s5, Close(1006), TimerFire(2, false), t7);
    RunPair(s7, Close(1006), TimerFire(3, false), t9);
    RunPair(s9, Close(1006), TimerFire(4, false), []);
    assert t9 == t9 + [];
  }

  // ---------------------------------------------------------------------
  // Occupant updates
  // ---------------------------------------------------------------------

  /** A table as the client holds it: its id and the phones seated at it. */
  datatype Table = Table(id: int, customer: seq<string>)

  /** A received message: unparsable, a heartbeat answer, or a table event
      whose `table_id` may be of any JSON type. */
  datatype TableMessage =
    | Malformed
    | Pong
    | TableEvent(tableId: Value, action: string, phone: string)

  const CustomerAssigned := "customer_assigned"
  const CustomerRemoved := "customer_removed"

  /** findIndex with strict equality: only a number equal to the table's id matches. */
  function FindTable(tables: seq<Table>, tableId: Value): (r: Option<nat>)
    ensures r.None? <==> forall i :: 0 <= i < |tables| ==> Int(tables[i].id) != tableId
    ensures r.Some? ==> r.value < |tables| && Int(tables[r.value].id) == tableId &&
                        forall k :: 0 <= k < r.value ==> Int(tables[k].id) != tableId
  {
    if tables == [] then None
    else if Int(tables[0].id) == tableId then Some(0)
    else
      var rest := FindTable(tables[1..], tableId);
      if rest.Some? then Some(rest.value + 1) else None
  }

  /** The phone is added only when it is not already seated. */
  function AddOccupant(customers: seq<string>, phone: string): (r: seq<string>)
    ensures phone in r
    ensures forall p :: p in r <==> p in customers || p == phone
    ensures phone in customers ==> r == customers
  {
    if phone in customers then customers else customers + [phone]
  }

  /** Every occurrence of the phone goes; the others keep their order. */
  function RemoveOccupant(customers: seq<string>, phone: string): (r: seq<string>)
    ensures phone !in r
    ensures forall p :: p in r <==> p in customers && p != phone
    ensures |r| <= |customers|
  {
    if customers == [] then []
    else if customers[0] == phone then RemoveOccupant(customers[1..], phone)
    else [customers[0]] + RemoveOccupant(customers[1..], phone)
  }

  /** The occupant change an action makes; any other action changes nothing. */
  function Occupants(customers: seq<string>, action: string, phone: string): seq<string>
  {
    if action == CustomerAssigned then AddOccupant(customers, phone)
    else if action == CustomerRemoved then RemoveOccupant(customers, phone)
    else customers
  }

  /** The updater passed to setTables for one message. */
  function ApplyMessage(tables: seq<Table>, msg: TableMessage): (r: seq<Table>)
    ensures |r| == |tables|
    ensures !msg.TableEvent? ==> r == tables
    ensures msg.TableEvent? && FindTable(tables, msg.tableId).None? ==> r == tables
    ensures msg.TableEvent? && FindTable(tables, msg.tableId).Some? ==>
      var k := FindTable(tables, msg.tableId).value;
      && r[k] == tables[k].(customer := Occupants(tables[k].customer, msg.action, msg.phone))
      && forall i :: 0 <= i < |tables| && i != k ==> r[i] == tables[i]
  {
    match msg
    case TableEvent(tableId, action, phone) =>
      var idx := FindTable(tables, tableId);
      if idx.None? then tables
      else
        var t := tables[idx.value];
        tables[idx.value := t.(customer := Occupants(t.customer, action, phone))]
    case _ => tables
  }

  lemma {:induction false} RemoveOccupantIdempotent(customers: seq<string>, phone: string)
    ensures RemoveOccupant(RemoveOccupant(customers, phone), phone) == RemoveOccupant(customers, phone)
  {
    if customers != [] {
      RemoveOccupantIdempotent(customers[1..], phone);
      if customers[0] != phone {
        var r := RemoveOccupant(customers, phone);
        assert r[0] == customers[0] && r[1..] == RemoveOccupant(customers[1..], phone);
      }
    }
  }

  lemma OccupantsIdempotent(customers: seq<string>, action: string, phone: string)
    ensures Occupants(Occupants(customers, action, phone), action, phone) == Occupants(customers, action, phone)
  {
    if action == CustomerRemoved && action != CustomerAssigned {
      RemoveOccupantIdempotent(customers, phone);
    }
  }

  /** The ids of the tables are never changed by an update. */
  lemma ApplyMessageKeepsIds(tables: seq<Table>, msg: TableMessage)
    ensures forall i :: 0 <= i < |tables| ==> ApplyMessage(tables, msg)[i].id == tables[i].id
  {
  }

  /** A duplicated event is harmless: applying it twice equals applying it once. */
  lemma ApplyMessageIdempotent(tables: seq<Table>, msg: TableMessage)
    ensures ApplyMessage(ApplyMessage(tables, msg), msg) == ApplyMessage(tables, msg)
  {
    if msg.TableEvent? {
      var once := ApplyMessage(tables, msg);
      ApplyMessageKeepsIds(tables, msg);
      assert forall i :: 0 <= i < |tables| ==> Int(once[i].id) == Int(tables[i].id);
      assert FindTable(once, msg.tableId) == FindTable(tables, msg.tableId);
      var idx := FindTable(tables, msg.tableId);
      if idx.Some? {
        OccupantsIdempotent(tables[idx.value].customer, msg.action, msg.phone);
      }
    }
  }

  /** An assignment followed by the removal of the same phone at the same
      table leaves no trace of the phone; the other tables are untouched. */
  lemma AssignThenRemove(tables: seq<Table>, tableId: Value, phone: string)
    ensures var after := ApplyMessage(ApplyMessage(tables, TableEvent(tableId, CustomerAssigned, phone)),
                                      TableEvent(tableId, CustomerRemoved, phone));
      && |after| == |tables|
      && (forall i :: 0 <= i < |tables| ==> phone !in after[i].customer || after[i] == tables[i])
      && (forall i :: 0 <= i < |tables| && Int(tables[i].id) != tableId ==> after[i] == tables[i])
  {
    var mid := ApplyMessage(tables, TableEvent(tableId, CustomerAssigned, phone));
    ApplyMessageKeepsIds(tables, TableEvent(tableId, CustomerAssigned, phone));
    assert forall i :: 0 <= i < |tables| ==> Int(mid[i].id) == Int(tables[i].id);
    assert FindTable(mid, tableId) == FindTable(tables, tableId);
  }

  /** The hook's refs, its connection status and the tables state it updates. */
  class TableFeed {
    var attempts: nat
    var status: ConnectionStatus
    var socketsOpened: nat
    var timers: map<nat, int>
    var timerRef: Option<nat>
    var nextTimer: nat
    var unmounted: bool
    var tables: seq<Table>

    function Snapshot(): FeedState<int>
      reads this
    {
      FeedState(attempts, status, socketsOpened, timers, timerRef, nextTimer, unmounted)
    }

    constructor (tables: seq<Table>)
      ensures Snapshot() == Initial() && this.tables == tables
    {
      attempts := 0;
      status := Disconnected;
      socketsOpened := 0;
      timers := map[];
      timerRef := None;
      nextTimer := 0;
      unmounted := false;
      this.tables := tables;
    }

    method ScheduleRetry()
      modifies this
      ensures Snapshot() == Retry(old(Snapshot()), ReconnectDelay)
      ensures tables == old(tables)
    {
      attempts := attempts + 1;
      var delay := Min(BaseDelay * Pow2(attempts), MaxDelay);
      timers := timers[nextTimer := delay];
      timerRef := Some(nextTimer);
      nextTimer := nextTimer + 1;
    }

    method Connect(throws: bool)
      modifies this
      ensures Snapshot() == Step(old(Snapshot()), FeedEvent.Connect(throws))
      ensures tables == old(tables)
    {
      if attempts >= MaxReconnectAttempts {
        status := Failed;
        return;
      }
      status := Connecting;
      if throws {
        status := Error;
        ScheduleRetry();
      } else {
        socketsOpened := socketsOpened + 1;
      }
    }

    method OnOpen()
      modifies this
      ensures Snapshot() == Step(old(Snapshot()), Open)
      ensures tables == old(tables)
    {
      status := Connected;
      attempts := 0;
    }

    method OnError()
      modifies this
      ensures Snapshot() == Step(old(Snapshot()), SocketError)
      ensures tables == old(tables)
    {
      status := Error;
    }

    method OnClose(code: int)
      modifies this
      ensures Snapshot() == Step(old(Snapshot()), Close(code))
      ensures tables == old(tables)
    {
      status := Disconnected;
      if code != NormalClosure {
        ScheduleRetry();
      }
    }

    /** A pending reconnect timer goes off and calls connect; a cleared or
        already fired timer does nothing. */
    method OnTimer(t: nat, throws: bool)
      modifies this
      ensures Snapshot() == Step(old(Snapshot()), TimerFire(t, throws))
      ensures tables == old(tables)
    {
      if t in timers {
        timers := timers - {t};
        Connect(throws);
      }
    }

    method Unmount()
      modifies this
      ensures Snapshot() == Step(old(Snapshot()), FeedEvent.Unmount)
      ensures tables == old(tables)
    {
      if timerRef.Some? {
        timers := timers - {timerRef.value};
      }
      unmounted := true;
    }

    /** onmessage: the occupant update for a table event, nothing for a pong or an unparsable message. */
    method OnMessage(msg: TableMessage)
      modifies this`tables
      ensures tables == ApplyMessage(old(tables), msg)
    {
      if msg.TableEvent? {
        var idx := FindTable(tables, msg.tableId);
        if idx.Some? {
          var t := tables[idx.value];
          var updated := t.customer;
          if msg.action == CustomerAssigned {
            if msg.phone !in updated {
              updated := updated + [msg.phone];
            }
          } else if msg.action == CustomerRemoved {
            updated := RemoveOccupant(updated, msg.phone);
          }
          tables := tables[idx.value := t.(customer := updated)];
        }
      }
    }
  }
}
