/**
 * The `_busy` flag of `MicroBitMore.send` as a state machine. An accepted send
 * sets the flag, arms a 5000 ms release timer and issues one BLE write; the
 * write's completion, or the timer, clears the flag again.
 *
 * Timers and writes are named by the number of the send that created them.
 * The completion handler clears whatever `_busyTimeoutID` holds when it runs,
 * so the completion of an old write can release the gate for a newer one: the
 * model keeps that behaviour.
 */
module SendGate {
  import opened Bytes
  import opened Wrappers
  import opened Protocol

  /**
   * `busyTimeoutId` is `_busyTimeoutID` (never reset to null by the source);
   * `liveTimers` are release timers armed and neither fired nor cleared;
   * `inFlight` are writes whose completion has not arrived; `sends` counts
   * accepted sends and names the next timer and write.
   */
  datatype Gate = Gate(busy: bool, busyTimeoutId: Option<nat>, liveTimers: set<nat>, inFlight: set<nat>, sends: nat)

  /** One BLE write: which send issued it, and the frame it carries. */
  datatype Write = Write(id: nat, frame: seq<Byte>)

  /** What can happen to the gate. */
  datatype Event =
    | Send(connected: bool, command: Byte, message: seq<Byte>)
    | WriteComplete(write: nat)
    | BusyTimeout(timer: nat)

  /** The gate after an event, and the write the event issued, if any. */
  datatype Step = Step(gate: Gate, write: Option<Write>)

  function Initial(): (g: Gate)
    ensures !g.busy && g.liveTimers == {} && g.inFlight == {}
  {
    Gate(false, None, {}, {}, 0)
  }

  /** The flag is set exactly while its release timer is pending, and then the latest write is in flight. */
  ghost predicate Inv(g: Gate)
  {
    && (forall t :: t in g.liveTimers ==> t < g.sends)
    && (forall w :: w in g.inFlight ==> w < g.sends)
    && (g.busy ==> g.busyTimeoutId.Some? && g.liveTimers == {g.busyTimeoutId.value} && g.busyTimeoutId.value in g.inFlight)
    && (!g.busy ==> g.liveTimers == {})
  }

  /** `send`: dropped when disconnected or busy, otherwise one write and a release timer. */
  function SendFrame(g: Gate, connected: bool, command: Byte, message: seq<Byte>): (r: Step)
    ensures !connected ==> r == Step(g, None)
    ensures connected && g.busy ==> r == Step(g, None)
    ensures connected && !g.busy ==>
      && r.gate.busy
      && r.write == Some(Write(g.sends, Frame(command, message)))
      && r.gate.busyTimeoutId == Some(g.sends)
      && r.gate.liveTimers == g.liveTimers + {g.sends}
      && r.gate.inFlight == g.inFlight + {g.sends}
    ensures r.write.Some? <==> connected && !g.busy
  {
    if !connected then Step(g, None)
    else if g.busy then Step(g, None)
    else
      var id := g.sends;
      Step(Gate(true, Some(id), g.liveTimers + {id}, g.inFlight + {id}, id + 1), Some(Write(id, Frame(command, message))))
  }

  /** The write's `then` handler: clears the flag and the timer `_busyTimeoutID` names now. */
  function CompleteWrite(g: Gate, w: nat): (r: Gate)
    ensures w !in g.inFlight ==> r == g
    ensures w in g.inFlight ==>
      && !r.busy
      && r.inFlight == g.inFlight - {w}
      && r.liveTimers == (if g.busyTimeoutId.Some? then g.liveTimers - {g.busyTimeoutId.value} else g.liveTimers)
  {
    if w !in g.inFlight then g
    else
      var live := match g.busyTimeoutId
        case None => g.liveTimers
        case Some(t) => g.liveTimers - {t};
      g.(busy := false, liveTimers := live, inFlight := g.inFlight - {w})
  }

  /** A release timer firing: a cleared or already fired timer does nothing. */
  function FireTimer(g: Gate, t: nat): (r: Gate)
    ensures t !in g.liveTimers ==> r == g
    ensures t in g.liveTimers ==> !r.busy && r.liveTimers == g.liveTimers - {t} && r.inFlight == g.inFlight
  {
    if t !in g.liveTimers then g
    else g.(busy := false, liveTimers := g.liveTimers - {t})
  }

  function Next(g: Gate, e: Event): Step
  {
    match e
    case Send(c, cmd, msg) => SendFrame(g, c, cmd, msg)
    case WriteComplete(w) => Step(CompleteWrite(g, w), None)
    case BusyTimeout(t) => Step(FireTimer(g, t), None)
  }

  /** Every event keeps the invariant. */
  lemma NextPreservesInv(g: Gate, e: Event)
    requires Inv(g)
    ensures Inv(Next(g, e).gate)
  {
  }

  /** The gate is never stuck: while busy, the pending release timer exists and firing it clears the flag. */
  lemma BusyIsReleasable(g: Gate)
    requires Inv(g) && g.busy
    ensures g.busyTimeoutId.value in g.liveTimers
    ensures !FireTimer(g, g.busyTimeoutId.value).busy
  {
  }

  /** Running a sequence of events: the final gate and the writes issued, in order. */
  function Run(g: Gate, es: seq<Event>): (r: (Gate, seq<Write>))
    decreases |es|
  {
    if |es| == 0 then (g, [])
    else
      var st := Next(g, es[0]);
      var rest := Run(st.gate, es[1..]);
      (rest.0, (if st.write.Some? then [st.write.value] else []) + rest.1)
  }

  lemma {:induction false} RunPreservesInv(g: Gate, es: seq<Event>)
    requires Inv(g)
    ensures Inv(Run(g, es).0)
    decreases |es|
  {
    if |es| > 0 {
      NextPreservesInv(g, es[0]);
      RunPreservesInv(Next(g, es[0]).gate, es[1..]);
    }
  }

  /**
   * Without a completion or a timeout in between, sends issue at most one
   * write, none if the gate was already busy; once one is issued the gate stays busy.
   */
  lemma {:induction false} SendsWithoutReleaseWriteAtMostOnce(g: Gate, es: seq<Event>)
    requires forall i :: 0 <= i < |es| ==> es[i].Send?
    ensures |Run(g, es).1| <= (if g.busy then 0 else 1)
    ensures g.busy ==> Run(g, es).0 == g
    ensures |Run(g, es).1| == 1 ==> Run(g, es).0.busy
    decreases |es|
  {
    if |es| > 0 {
      var st := Next(g, es[0]);
      SendsWithoutReleaseWriteAtMostOnce(st.gate, es[1..]);
    }
  }

  /** Two sends in a row: the first is written, the second dropped without touching the gate. */
  lemma SecondSendDropped(g: Gate, c1: Byte, m1: seq<Byte>, c2: Byte, m2: seq<Byte>)
    requires !g.busy
    ensures
      var s1 := SendFrame(g, true, c1, m1);
      var s2 := SendFrame(s1.gate, true, c2, m2);
      && s1.write == Some(Write(g.sends, Frame(c1, m1)))
      && s2.write == None
      && s2.gate == s1.gate
  {
  }

  /** With no completion at all, the timeout alone lets the next send through. */
  lemma TimeoutReopens(g: Gate, c1: Byte, m1: seq<Byte>, c2: Byte, m2: seq<Byte>)
    requires Inv(g) && !g.busy
    ensures
      var s1 := SendFrame(g, true, c1, m1);
      var g2 := FireTimer(s1.gate, g.sends);
      SendFrame(g2, true, c2, m2).write == Some(Write(g.sends + 1, Frame(c2, m2)))
  {
  }

  /**
   * Send 1 times out, send 2 is accepted, then send 1's write completes: the
   * gate opens and send 2's release timer is cleared while send 2's write is
   * still in flight, so a third send is written with two writes outstanding.
   */
  lemma LateCompletionReleasesNewerSend(g: Gate, c: Byte, m: seq<Byte>)
    requires Inv(g) && !g.busy
    ensures
      var n := g.sends;
      var g1 := SendFrame(g, true, c, m).gate;
      var g2 := FireTimer(g1, n);
      var g3 := SendFrame(g2, true, c, m).gate;
      var g4 := CompleteWrite(g3, n);
      var s5 := SendFrame(g4, true, c, m);
      && g3.busy
      && !g4.busy
      && n + 1 in g4.inFlight
      && n + 1 !in g4.liveTimers
      && s5.write.Some?
      && {n + 1, n + 2} <= s5.gate.inFlight
  {
  }
}
