/** The idle lock wrapped around the signed-in application: after fifteen
    minutes without user activity a periodic check locks the screen.
    The clock, the window listeners and the 10-second interval become
    explicit events carrying the current time in milliseconds. */
module IdleLock {

  /** Fifteen minutes, in milliseconds. */
  const IdleTimeout := 15 * 60 * 1000

  /** Whether an identity is signed in, whether the lock screen is up, and
      the time of the last recorded activity. */
  datatype Session = Session(identity: bool, locked: bool, lastActivity: int)

  /** A change of the signed-in identity; a `mousedown`, `keydown`, `scroll`
      or `touchstart` event; or one firing of the periodic check. */
  datatype Event = IdentityChanged(present: bool) | Activity(now: int) | Tick(now: int)

  /** The component as mounted at time `now`: unlocked. */
  function Mount(identity: bool, now: int): Session {
    Session(identity, false, now)
  }

  /** Only a signed-in session can be locked. */
  predicate Inv(s: Session) {
    s.locked ==> s.identity
  }

  /** The children are rendered exactly when the session is not locked. */
  predicate ShowsChildren(s: Session) {
    !s.locked
  }

  /** One event. Without an identity no listener or interval is installed,
      so activity and ticks have no effect. A locked session is unlocked only
      by activity (no new sign-in is asked for) or by signing out; it is
      locked only by a tick strictly more than the timeout after the last
      activity. */
  function Step(s: Session, e: Event): (r: Session)
    ensures r.identity == (if e.IdentityChanged? then e.present else s.identity)
    ensures e == IdentityChanged(false) ==> !r.locked
    ensures Inv(s) ==> Inv(r)
    ensures s.locked && !r.locked ==> e.Activity? || e == IdentityChanged(false)
    ensures !s.locked && r.locked ==> e.Tick? && s.identity && e.now - s.lastActivity > IdleTimeout
    ensures e.Tick? ==> (r.locked <==> s.locked || (s.identity && e.now - s.lastActivity > IdleTimeout))
    ensures e.Activity? && s.identity ==> !r.locked && r.lastActivity == e.now
    ensures !(e.Activity? && s.identity) ==> r.lastActivity == s.lastActivity
  {
    match e
    case IdentityChanged(present) =>
      if present then s.(identity := true) else s.(identity := false, locked := false)
    case Activity(now) =>
      if s.identity then s.(lastActivity := now, locked := false) else s
    case Tick(now) =>
      if s.identity && now - s.lastActivity > IdleTimeout then s.(locked := true) else s
  }

  /** The session after a sequence of events. */
  function Run(s: Session, events: seq<Event>): Session
    decreases |events|
  {
    if |events| == 0 then s else Run(Step(s, events[0]), events[1..])
  }

  /** Every reachable session keeps the invariant. */
  lemma {:induction false} RunKeepsInv(s: Session, events: seq<Event>)
    requires Inv(s)
    ensures Inv(Run(s, events))
    decreases |events|
  {
    if |events| > 0 {
      RunKeepsInv(Step(s, events[0]), events[1..]);
    }
  }

  /** Activity and ticks only, every tick within the timeout of the activity
      before it (or of `last` when there was none). */
  predicate Attentive(last: int, events: seq<Event>)
    decreases |events|
  {
    if |events| == 0 then true
    else
      match events[0]
      case Activity(t) => Attentive(t, events[1..])
      case Tick(t) => t - last <= IdleTimeout && Attentive(last, events[1..])
      case IdentityChanged(_) => false
  }

  /** A signed-in user who never stays idle longer than the timeout is never locked out. */
  lemma {:induction false} AttentiveNeverLocked(s: Session, events: seq<Event>)
    requires s.identity && !s.locked
    requires Attentive(s.lastActivity, events)
    ensures !Run(s, events).locked
    ensures Run(s, events).identity
    decreases |events|
  {
    if |events| > 0 {
      var next := Step(s, events[0]);
      match events[0]
      case Activity(t) =>
        AttentiveNeverLocked(next, events[1..]);
      case Tick(t) =>
        AttentiveNeverLocked(next, events[1..]);
    }
  }

  /** Periodic checks firing at the given times. */
  function Ticks(times: seq<int>): (r: seq<Event>)
    ensures |r| == |times|
    ensures forall i | 0 <= i < |r| :: r[i] == Tick(times[i])
  {
    seq(|times|, i requires 0 <= i < |times| => Tick(times[i]))
  }

  /** Ticks never unlock. */
  lemma {:induction false} TicksKeepLock(s: Session, times: seq<int>)
    requires s.locked
    ensures Run(s, Ticks(times)).locked
    decreases |times|
  {
    if |times| > 0 {
      assert Ticks(times)[1..] == Ticks(times[1..]);
      TicksKeepLock(Step(s, Tick(times[0])), times[1..]);
    }
  }

  /** A session idle past the timeout is locked by the next tick and stays
      locked through any later ticks. */
  lemma IdleStaysLocked(s: Session, t: int, later: seq<int>)
    requires s.identity && t - s.lastActivity > IdleTimeout
    ensures !ShowsChildren(Run(s, Ticks([t] + later)))
  {
    assert Ticks([t] + later)[0] == Tick(t);
    assert Ticks([t] + later)[1..] == Ticks(later);
    TicksKeepLock(Step(s, Tick(t)), later);
  }
}
