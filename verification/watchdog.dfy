/**
 * The data-stopped watchdog (`_timeoutID`): a 4500 ms timer that reports the
 * link as stale unless a telemetry frame arrives first. `_onConnect` arms it,
 * every frame clears and re-arms it, `reset` clears it.
 *
 * Timers are named by the number of the arming that created them.
 */
module Watchdog {
  import opened Wrappers

  /**
   * `timeoutId` is `_timeoutID`; `live` are watchdog timers armed and neither
   * fired nor cleared; `arms` counts armings and names the next timer.
   */
  datatype Watchdog = Watchdog(timeoutId: Option<nat>, live: set<nat>, arms: nat)

  function Initial(): (w: Watchdog)
    ensures w.live == {} && w.timeoutId.None? && Wf(w)
  {
    Watchdog(None, {}, 0)
  }

  /**
   * Every timer named so far was armed: `_timeoutID` and the pending timers
   * all come from earlier armings. This holds in every reachable state, the
   * leaked-timer state included.
   */
  ghost predicate Wf(w: Watchdog)
  {
    && (w.timeoutId.Some? ==> w.timeoutId.value < w.arms)
    && (forall t :: t in w.live ==> t < w.arms)
  }

  /** At most one timer is pending, and it is the one `_timeoutID` names. */
  ghost predicate Inv(w: Watchdog)
  {
    && (w.timeoutId.Some? ==> w.timeoutId.value < w.arms)
    && (forall t :: t in w.live ==> w.timeoutId == Some(t))
  }

  /** `window.setTimeout(...)` stored in `_timeoutID`, without clearing what was there. */
  function Arm(w: Watchdog): (r: Watchdog)
    ensures r.timeoutId == Some(w.arms)
    ensures r.live == w.live + {w.arms}
    ensures Inv(w) ==> w.arms !in w.live
    ensures Wf(w) ==> Wf(r) && w.arms !in w.live
  {
    Watchdog(Some(w.arms), w.live + {w.arms}, w.arms + 1)
  }

  /** `window.clearTimeout(_timeoutID)`: clearing null, or a timer that already fired, does nothing. */
  function Clear(w: Watchdog): (r: Watchdog)
    ensures r.timeoutId == w.timeoutId
    ensures w.timeoutId.Some? ==> r.live == w.live - {w.timeoutId.value}
    ensures w.timeoutId.None? ==> r == w
  {
    match w.timeoutId
    case None => w
    case Some(t) => w.(live := w.live - {t})
  }

  /**
   * What `_onMessage` does after parsing: cancel the timer `_timeoutID` names
   * and start a new one. A timer leaked by an earlier arming stays pending.
   */
  function Restart(w: Watchdog): (r: Watchdog)
    ensures r.timeoutId == Some(w.arms)
    ensures w.timeoutId.Some? ==> r.live == (w.live - {w.timeoutId.value}) + {w.arms}
    ensures w.timeoutId.None? ==> r.live == w.live + {w.arms}
    ensures Inv(w) ==> Inv(r) && r.live == {r.timeoutId.value}
    ensures Inv(w) && w.timeoutId.Some? ==> w.timeoutId.value !in r.live
    ensures Wf(w) ==> Wf(r) && (w.timeoutId.Some? ==> w.timeoutId.value !in r.live)
  {
    Arm(Clear(w))
  }

  /**
   * `reset`: if `_timeoutID` is set, clear it and set it to null. Only that
   * timer is cleared; a leaked one stays pending.
   */
  function Cancel(w: Watchdog): (r: Watchdog)
    ensures r.timeoutId.None? && r.arms == w.arms
    ensures w.timeoutId.Some? ==> r.live == w.live - {w.timeoutId.value}
    ensures w.timeoutId.None? ==> r.live == w.live
    ensures Inv(r) <==> r.live == {}
    ensures Inv(w) ==> r.live == {}
    ensures Wf(w) ==> Wf(r)
  {
    match w.timeoutId
    case None => w
    case Some(_) => Clear(w).(timeoutId := None)
  }

  /** Timer `t` expiring: it reports stale (`handleDisconnectError`) only if it is still pending. */
  function Fire(w: Watchdog, t: nat): (r: (Watchdog, bool))
    ensures r.1 <==> t in w.live
    ensures r.0.live == w.live - {t} && r.0.timeoutId == w.timeoutId
    ensures Inv(w) ==> Inv(r.0)
    ensures Wf(w) ==> Wf(r.0)
  {
    if t in w.live then (w.(live := w.live - {t}), true) else (w, false)
  }

  /** A timer reports stale at most once per arming. */
  lemma StaleAtMostOnce(w: Watchdog, t: nat)
    ensures !Fire(Fire(w, t).0, t).1
  {
  }

  /** A frame arriving before the deadline suppresses the pending report and arms a fresh timer. */
  lemma MessageSuppressesStale(w: Watchdog)
    requires Inv(w) && w.timeoutId.Some?
    ensures !Fire(Restart(w), w.timeoutId.value).1
    ensures Fire(Restart(w), Restart(w).timeoutId.value).1
  {
  }

  /** After `reset` no watchdog timer can report stale. */
  lemma CancelSilences(w: Watchdog, t: nat)
    requires Inv(w)
    ensures !Fire(Cancel(w), t).1
  {
  }

  /**
   * `_onConnect` arms without clearing: from a state with a pending timer it
   * leaves two pending timers, both of which will report stale.
   */
  lemma ArmWhilePendingLeaks(w: Watchdog)
    requires Inv(w) && w.live != {}
    ensures !Inv(Arm(w))
    ensures w.timeoutId.value in Arm(w).live && Arm(w).timeoutId.value in Arm(w).live
    ensures Fire(Arm(w), w.timeoutId.value).1
  {
    var t := w.timeoutId.value;
    assert t in Arm(w).live && Arm(w).timeoutId != Some(t);
  }

  /**
   * The timer leaked by `_onConnect` outlives both remedies: neither `reset`
   * nor a telemetry frame clears it, and it still reports stale.
   */
  lemma LeakedTimerOutlivesReset(w: Watchdog)
    requires Inv(w) && w.live != {}
    ensures w.timeoutId.value in Cancel(Arm(w)).live
    ensures Fire(Cancel(Arm(w)), w.timeoutId.value).1
    ensures Fire(Restart(Arm(w)), w.timeoutId.value).1
    ensures !Inv(Cancel(Arm(w)))
  {
    var t :| t in w.live;
    assert w.timeoutId == Some(t);
  }

  /** Arming from a quiet watchdog keeps the invariant. */
  lemma ArmWhenQuiet(w: Watchdog)
    requires Inv(w)
    ensures w.live == {} ==> Inv(Arm(w))
  {
  }
}
