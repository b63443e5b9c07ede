/** The attempt-counter state shared by the two push-feed hooks: the
    connection status, the reconnect timers and the unmount cleanup. */
module Reconnect {
  import opened Common

  datatype ConnectionStatus = Disconnected | Connecting | Connected | Error | Failed

  /** The close code of a caller-initiated close. */
  const NormalClosure := 1000

  /** What drives a feed: the mount-time connect, the socket's callbacks, a
      reconnect timer going off, and the unmount cleanup. `throws` says
      whether constructing the socket raised. */
  datatype FeedEvent =
    | Connect(throws: bool)
    | Open
    | SocketError
    | Close(code: int)
    | TimerFire(timer: nat, throws: bool)
    | Unmount

  /** attempts is the attempt counter ref, status the connection status,
      socketsOpened the number of sockets constructed, timers the pending
      reconnect timers (id to delay), timerRef the timer the timeout ref
      holds, nextTimer the next timer id, unmounted whether cleanup ran. */
  datatype FeedState<D> = FeedState(
    attempts: nat,
    status: ConnectionStatus,
    socketsOpened: nat,
    timers: map<nat, D>,
    timerRef: Option<nat>,
    nextTimer: nat,
    unmounted: bool)

  function Initial<D>(): FeedState<D>
  {
    FeedState(0, Disconnected, 0, map[], None, 0, false)
  }

  /** Timer ids handed out so far are below nextTimer. */
  predicate TimersFresh<D>(s: FeedState<D>)
  {
    forall t :: t in s.timers ==> t < s.nextTimer
  }

  /** setTimeout: one new pending timer, and the timeout ref now holds it. */
  function Schedule<D>(s: FeedState<D>, delay: D): (r: FeedState<D>)
    ensures TimersFresh(s) ==> s.nextTimer !in s.timers && TimersFresh(r)
    ensures r.timers == s.timers[s.nextTimer := delay] && r.timerRef == Some(s.nextTimer)
    ensures r.attempts == s.attempts && r.status == s.status && r.socketsOpened == s.socketsOpened
  {
    s.(timers := s.timers[s.nextTimer := delay], timerRef := Some(s.nextTimer), nextTimer := s.nextTimer + 1)
  }

  /** A failed attempt: the attempt counter goes up and a reconnect is
      scheduled with the delay the feed's backoff gives for the new count. */
  function Retry<D>(s: FeedState<D>, delay: nat -> D): (r: FeedState<D>)
    ensures r.attempts == s.attempts + 1
    ensures r.timers == s.timers[s.nextTimer := delay(s.attempts + 1)] && r.timerRef == Some(s.nextTimer)
    ensures r.status == s.status && r.socketsOpened == s.socketsOpened
  {
    var bumped := s.(attempts := s.attempts + 1);
    Schedule(bumped, delay(bumped.attempts))
  }

  /** The unmount cleanup: clearTimeout on the timer the ref holds; every
      other pending timer stays pending. */
  function Cleanup<D>(s: FeedState<D>): (r: FeedState<D>)
    ensures r.timerRef.Some? ==> r.timerRef.value !in r.timers
    ensures forall t :: t in r.timers <==> t in s.timers && r.timerRef != Some(t)
    ensures r.attempts == s.attempts && r.status == s.status && r.socketsOpened == s.socketsOpened
    ensures r.unmounted
  {
    if s.timerRef.Some? then s.(timers := s.timers - {s.timerRef.value}, unmounted := true)
    else s.(unmounted := true)
  }
}
