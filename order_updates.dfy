/** The order push feed: a backoff that resets its counter after ten attempts
    and keeps retrying, and the forwarding of parsed non-heartbeat messages. */
module OrderUpdates {
  import opened Common
  import opened Reconnect

  const MaxReconnectAttempts := 10
  const MaxDelay: real := 10000.0

  function Pow15(n: nat): (p: real)
    ensures p >= 1.0
  {
    if n == 0 then 1.0 else 1.5 * Pow15(n - 1)
  }

  lemma {:induction false} Pow15Monotone(a: nat, b: nat)
    requires a <= b
    ensures Pow15(a) <= Pow15(b)
  {
    if a < b {
      Pow15Monotone(a, b - 1);
    }
  }

  /** getReconnectDelay in exact arithmetic: 1000 ms grown by half per attempt, capped at 10 s. */
  function ReconnectDelay(attempts: nat): (d: real)
    ensures 1000.0 <= d <= MaxDelay
  {
    var grown := 1000.0 * Pow15(attempts);
    if grown <= MaxDelay then grown else MaxDelay
  }

  lemma ReconnectDelayMonotone(a: nat, b: nat)
    requires a <= b
    ensures ReconnectDelay(a) <= ReconnectDelay(b)
  {
    Pow15Monotone(a, b);
  }

  /** connect: at ten attempts the counter is reset and the status cleared,
      then a socket is constructed, or, when that throws, an error is
      recorded and a retry scheduled. */
  function ConnectStep(s: FeedState<real>, throws: bool): FeedState<real>
  {
    var base := if s.attempts >= MaxReconnectAttempts then s.(attempts := 0, status := Disconnected) else s;
    if throws then Retry(base.(status := Error), ReconnectDelay)
    else base.(status := Connecting, socketsOpened := base.socketsOpened + 1)
  }

  function Step(s: FeedState<real>, e: FeedEvent): FeedState<real>
  {
    match e
    case Connect(throws) => ConnectStep(s, throws)
    case Open => s.(status := Connected, attempts := 0)
    case SocketError => s.(status := Error)
    case Close(code) =>
      if code != NormalClosure then Retry(s.(status := Disconnected), ReconnectDelay) else s.(status := Disconnected)
    case TimerFire(t, throws) =>
      if t in s.timers then ConnectStep(s.(timers := s.timers - {t}), throws) else s
    case Unmount => Cleanup(s)
  }

  function Run(s: FeedState<real>, events: seq<FeedEvent>): FeedState<real>
    decreases |events|
  {
    if events == [] then s else Run(Step(s, events[0]), events[1..])
  }

  /** Connecting always makes progress: it opens a socket or schedules one
      retry; at the limit it first resets the counter to zero. */
  lemma ConnectAlwaysRetries(s: FeedState<real>, throws: bool)
    requires TimersFresh(s)
    ensures var r := Step(s, Connect(throws));
      && (!throws ==> r.status == Connecting && r.socketsOpened == s.socketsOpened + 1 && r.timers == s.timers)
      && (throws ==> r.status == Error && s.nextTimer !in s.timers && s.nextTimer in r.timers &&
                     r.timers == s.timers[s.nextTimer := r.timers[s.nextTimer]])
      && (s.attempts >= MaxReconnectAttempts ==> r.attempts == (if throws then 1 else 0))
      && (s.attempts < MaxReconnectAttempts ==> r.attempts == (if throws then s.attempts + 1 else s.attempts))
  {
  }

  lemma CloseSchedulesOneReconnect(s: FeedState<real>, code: int)
    requires TimersFresh(s)
    ensures var r := Step(s, Close(code));
      && r.status == Disconnected
      && (code != NormalClosure ==>
            && r.attempts == s.attempts + 1
            && s.nextTimer !in s.timers
            && r.timers == s.timers[s.nextTimer := ReconnectDelay(s.attempts + 1)])
      && (code == NormalClosure ==> r.attempts == s.attempts && r.timers == s.timers)
  {
  }

  lemma OpenResets(s: FeedState<real>)
    ensures Step(s, Open).status == Connected && Step(s, Open).attempts == 0
  {
  }

  /** The order feed never reaches the failed status. */
  predicate Inv(s: FeedState<real>)
  {
    TimersFresh(s) && s.status != Failed && (s.status == Connected ==> s.attempts == 0)
  }

  lemma StepKeepsInv(s: FeedState<real>, e: FeedEvent)
    requires Inv(s)
    ensures Inv(Step(s, e))
  {
  }

  lemma {:induction false} NeverFails(s: FeedState<real>, events: seq<FeedEvent>)
    requires Inv(s)
    ensures Inv(Run(s, events)) && Run(s, events).status != Failed
    decreases |events|
  {
    if events != [] {
      StepKeepsInv(s, events[0]);
      NeverFails(Step(s, events[0]), events[1..]);
    }
  }

  lemma UnmountCancelsReconnect(s: FeedState<real>, code: int, throws: bool)
    requires TimersFresh(s) && code != NormalClosure
    ensures var closed := Step(s, Close(code));
      var t := closed.timerRef.value;
      && t in closed.timers
      && Step(Step(closed, Unmount), TimerFire(t, throws)) == Step(closed, Unmount)
  {
  }

  // ---------------------------------------------------------------------
  // Message forwarding
  // ---------------------------------------------------------------------

  /** A parsed JSON value: an object, or a scalar (null among them). */
  datatype Payload = Object(fields: map<string, Value>) | Scalar(v: Value)

  datatype RawMessage = Malformed | Parsed(data: Payload)

  predicate IsPong(p: Payload)
  {
    p.Object? && "type" in p.fields && p.fields["type"] == Text("pong")
  }

  /** Reading `.type` of null raises, and the handler's catch drops the message. */
  predicate ReadingTypeThrows(p: Payload)
  {
    p.Scalar? && (p.v.Null? || p.v.Undefined?)
  }

  /** The messages that reach onOrderUpdate. */
  predicate Forwardable(m: RawMessage)
  {
    m.Parsed? && !ReadingTypeThrows(m.data) && !IsPong(m.data)
  }

  /** The payloads handed to onOrderUpdate for a run of messages, in arrival order. */
  function Forwarded(msgs: seq<RawMessage>): (r: seq<Payload>)
    ensures |r| <= |msgs|
  {
    if msgs == [] then []
    else Forwarded(msgs[..|msgs| - 1]) + (if Forwardable(msgs[|msgs| - 1]) then [msgs[|msgs| - 1].data] else [])
  }

  /** Forwarding is compositional: the messages of two runs are forwarded one run after the other. */
  lemma {:induction false} ForwardedAppend(a: seq<RawMessage>, b: seq<RawMessage>)
    ensures Forwarded(a + b) == Forwarded(a) + Forwarded(b)
    decreases |b|
  {
    if b == [] {
      assert a + b == a;
    } else {
      var ab := a + b;
      assert ab[..|ab| - 1] == a + b[..|b| - 1];
      assert ab[|ab| - 1] == b[|b| - 1];
      ForwardedAppend(a, b[..|b| - 1]);
    }
  }

  /** Every forwarded payload comes from a forwardable message, and every
      forwardable message's payload is forwarded. */
  lemma {:induction false} ForwardedExactly(msgs: seq<RawMessage>)
    ensures forall p :: p in Forwarded(msgs) <==> exists i :: 0 <= i < |msgs| && Forwardable(msgs[i]) && msgs[i].data == p
  {
    if msgs != [] {
      var init := msgs[..|msgs| - 1];
      ForwardedExactly(init);
      forall p | p in Forwarded(msgs)
        ensures exists i :: 0 <= i < |msgs| && Forwardable(msgs[i]) && msgs[i].data == p
      {
        if p in Forwarded(init) {
          var i :| 0 <= i < |init| && Forwardable(init[i]) && init[i].data == p;
          assert msgs[i] == init[i];
        } else {
          assert Forwardable(msgs[|msgs| - 1]) && msgs[|msgs| - 1].data == p;
        }
      }
      forall p | exists i :: 0 <= i < |msgs| && Forwardable(msgs[i]) && msgs[i].data == p
        ensures p in Forwarded(msgs)
      {
        var i :| 0 <= i < |msgs| && Forwardable(msgs[i]) && msgs[i].data == p;
        if i < |msgs| - 1 {
          assert init[i] == msgs[i];
        }
      }
    }
  }

  /** Heartbeat answers, unparsable messages and nulls never reach the callback. */
  lemma DroppedMessages(m: RawMessage)
    ensures m.Malformed? ==> Forwarded([m]) == []
    ensures m.Parsed? && (IsPong(m.data) || ReadingTypeThrows(m.data)) ==> Forwarded([m]) == []
    ensures Forwardable(m) ==> Forwarded([m]) == [m.data]
  {
    assert [m][..0] == [];
  }

  /** The hook's refs, its connection status and the payloads handed to onOrderUpdate. */
  class OrderFeed {
    var attempts: nat
    var status: ConnectionStatus
    var socketsOpened: nat
    var timers: map<nat, real>
    var timerRef: Option<nat>
    var nextTimer: nat
    var unmounted: bool
    var delivered: seq<Payload>

    function Snapshot(): FeedState<real>
      reads this
    {
      FeedState(attempts, status, socketsOpened, timers, timerRef, nextTimer, unmounted)
    }

    constructor ()
      ensures Snapshot() == Initial() && delivered == []
    {
      attempts := 0;
      status := Disconnected;
      socketsOpened := 0;
      timers := map[];
      timerRef := None;
      nextTimer := 0;
      unmounted := false;
      delivered := [];
    }

    method ScheduleRetry()
      modifies this
      ensures Snapshot() == Retry(old(Snapshot()), ReconnectDelay)
      ensures delivered == old(delivered)
    {
      attempts := attempts + 1;
      var grown := 1000.0 * Pow15(attempts);
      var delay := if grown <= MaxDelay then grown else MaxDelay;
      timers := timers[nextTimer := delay];
      timerRef := Some(nextTimer);
      nextTimer := nextTimer + 1;
    }

    method Connect(throws: bool)
      modifies this
      ensures Snapshot() == Step(old(Snapshot()), FeedEvent.Connect(throws))
      ensures delivered == old(delivered)
    {
      if attempts >= MaxReconnectAttempts {
        attempts := 0;
        status := Disconnected;
      }
      status := Connecting;
      if throws {
        status := Error;
        ScheduleRetry();
      } else {
        socketsOpened := socketsOpened + 1;
      }
    }

    method OnOpen()
      modifies this
      ensures Snapshot() == Step(old(Snapshot()), Open)
      ensures delivered == old(delivered)
    {
      status := Connected;
      attempts := 0;
    }

    method OnError()
      modifies this
      ensures Snapshot() == Step(old(Snapshot()), SocketError)
      ensures delivered == old(delivered)
    {
      status := Error;
    }

    method OnClose(code: int)
      modifies this
      ensures Snapshot() == Step(old(Snapshot()), Close(code))
      ensures delivered == old(delivered)
    {
      status := Disconnected;
      if code != NormalClosure {
        ScheduleRetry();
      }
    }

    method OnTimer(t: nat, throws: bool)
      modifies this
      ensures Snapshot() == Step(old(Snapshot()), TimerFire(t, throws))
      ensures delivered == old(delivered)
    {
      if t in timers {
        timers := timers - {t};
        Connect(throws);
      }
    }

    method Unmount()
      modifies this
      ensures Snapshot() == Step(old(Snapshot()), FeedEvent.Unmount)
      ensures delivered == old(delivered)
    {
      if timerRef.Some? {
        timers := timers - {timerRef.value};
      }
      unmounted := true;
    }

    /** onmessage: a parsed message that is not a heartbeat answer goes to the callback. */
    method OnMessage(m: RawMessage)
      modifies this`delivered
      ensures delivered == old(delivered) + Forwarded([m])
    {
      DroppedMessages(m);
      if m.Parsed? && !ReadingTypeThrows(m.data) && !IsPong(m.data) {
        delivered := delivered + [m.data];
      }
    }

    /** A run of messages delivered one by one. */
    method OnMessages(msgs: seq<RawMessage>)
      modifies this`delivered
      ensures delivered == old(delivered) + Forwarded(msgs)
    {
      var i := 0;
      while i < |msgs|
        invariant 0 <= i <= |msgs|
        invariant delivered == old(delivered) + Forwarded(msgs[..i])
      {
        OnMessage(msgs[i]);
        ForwardedAppend(msgs[..i], [msgs[i]]);
        assert msgs[..i + 1] == msgs[..i] + [msgs[i]];
        i := i + 1;
      }
      assert msgs[..i] == msgs;
    }
  }
}
