/**
 * The life of a managed transport: the serve loop, the read loop, and callers of Accept, Dial, WritePacket
 * and Close share one connection slot, a one-place wake-up channel and a done signal. Waiting for the mutex,
 * doing network work under it, and releasing it are separate steps, so Close and the read loop run in between.
 */
module ManagedTransport {
  import opened Base

  /** Connections are numbered in the order they come to exist. */
  type Conn = nat

  /** Who holds the connection mutex, and where in its critical section it is. */
  datatype Lock = Free | Accepting(conn: Conn) | Dialing | Redialing | WriteDialing | Writing

  /** `from` is history: the connection whose read failed. clearConn does not ask for it. */
  datatype Reader = AtTop | Waiting | Reading(conn: Conn) | Clearing(from: Conn) | Exited

  /** `settled` and `shut` are history: the handshakes that succeeded, the connections closed from this side. */
  datatype Transport = Transport(conn: Option<Conn>, token: bool, chCloses: nat, doneCloses: nat, closeCalled: bool,
                                 cleaned: bool, lock: Lock, reader: Reader, next: Conn, settled: set<Conn>,
                                 shut: set<Conn>, panicked: bool) {

    predicate IsServing() {
      doneCloses == 0
    }

    /** Sends on the wake-up channel unless it is full; a send on a closed channel panics even in a select. */
    function Wake(): Transport {
      this.(token := true, panicked := panicked || chCloses > 0)
    }

    function SetIfConnNil(c: Conn): Transport {
      if conn.Some? then this.(shut := shut + {c}) else this.(conn := Some(c)).Wake()
    }

    function ClearConn(): Transport {
      if conn.Some? then this.(conn := None, shut := shut + {conn.value}) else this
    }

    /** The serve loop's last act; closing a closed channel panics. */
    function EndConnection(): Transport {
      this.(chCloses := chCloses + 1, panicked := panicked || chCloses > 0, cleaned := true).ClearConn()
    }

    /** A handshake that succeeds settles the connection and offers it to the slot. */
    function Settle(c: Conn): Transport {
      this.(settled := settled + {c}).SetIfConnNil(c)
    }

    /** A dial that settles makes a connection and offers it; one that fails leaves the slot as it is. */
    function DialResult(settles: bool): Transport {
      if settles then this.(next := next + 1).Settle(next) else this
    }
  }

  const NEW := Transport(None, false, 0, 0, false, false, Free, AtTop, 0, {}, {}, false)

  /** The class holds what the critical sections work on; its methods are those sections' bodies. */
  class ConnSlot {
    var conn: Option<Conn>
    var token: bool
    var chClosed: bool
    var shut: set<Conn>

    ghost predicate Shows(t: Transport)
      reads this
    {
      conn == t.conn && token == t.token && shut == t.shut && (chClosed <==> t.chCloses > 0)
    }

    constructor ()
      ensures Shows(NEW)
    {
      conn, token, chClosed, shut := None, false, false, {};
    }

    method SetIfConnNil(c: Conn, ghost t: Transport) returns (res: Result<()>)
      requires Shows(t) && t.chCloses == 0
      modifies this
      ensures Shows(t.SetIfConnNil(c)) && (res.Err? <==> t.conn.Some?)
    {
      if conn.Some? {
        shut := shut + {c};
        return Err("underlying transport connection already exists");
      }
      conn := Some(c);
      token := true;
      return Ok(());
    }

    method ClearConn(ghost t: Transport)
      requires Shows(t)
      modifies this
      ensures Shows(t.ClearConn())
    {
      if conn.Some? {
        shut := shut + {conn.value};
        conn := None;
      }
    }

    method EndConnection(ghost t: Transport)
      requires Shows(t) && t.chCloses == 0
      modifies this
      ensures Shows(t.EndConnection())
    {
      chClosed := true;
      if conn.Some? {
        shut := shut + {conn.value};
        conn := None;
      }
    }
  }

  // Steps.

  datatype Step =
    | Close
    | AcceptBegin(network: bool)
    | AcceptEnd(settles: bool)
    | DialBegin
    | DialEnd(settles: bool)
    | TickBegin
    | TickEnd(settles: bool)
    | WriteBegin
    | WriteDialEnd(settles: bool)
    | WriteEnd(written: bool)
    | Cleanup
    | ReaderGet
    | ReaderWake
    | ReaderStop
    | ReaderDone(packet: bool)
    | ReaderClear

  predicate Enabled(t: Transport, e: Step) {
    match e
    case Close => true
    case AcceptBegin(_) => t.lock.Free?
    case AcceptEnd(_) => t.lock.Accepting?
    case DialBegin => t.lock.Free?
    case DialEnd(_) => t.lock.Dialing?
    // The serve loop ticks until it has cleaned up.
    case TickBegin => t.lock.Free? && !t.cleaned
    case TickEnd(_) => t.lock.Redialing?
    case WriteBegin => t.lock.Free?
    case WriteDialEnd(_) => t.lock.WriteDialing?
    case WriteEnd(_) => t.lock.Writing?
    case Cleanup => t.lock.Free? && !t.cleaned && t.doneCloses > 0
    case ReaderGet => t.lock.Free? && t.reader.AtTop?
    case ReaderWake => t.reader.Waiting? && (t.token || t.chCloses > 0)
    case ReaderStop => t.reader.Waiting? && t.doneCloses > 0
    case ReaderDone(_) => t.reader.Reading?
    case ReaderClear => t.lock.Free? && t.reader.Clearing?
  }

  function Apply(t: Transport, e: Step): Transport
    requires Enabled(t, e)
  {
    match e
    // sync.Once: only the first call closes the signal.
    case Close => if t.closeCalled then t else t.(closeCalled := true, doneCloses := t.doneCloses + 1)
    case AcceptBegin(network) =>
      if !network then t.(next := t.next + 1)
      else if !t.IsServing() then t.(next := t.next + 1, shut := t.shut + {t.next})
      else t.(next := t.next + 1, lock := Accepting(t.next))
    case AcceptEnd(settles) => if settles then t.Settle(t.lock.conn).(lock := Free) else t.(lock := Free)
    case DialBegin => if !t.IsServing() || t.conn.Some? then t else t.(lock := Dialing)
    case DialEnd(settles) => t.DialResult(settles).(lock := Free)
    case TickBegin => if t.conn.Some? then t else t.(lock := Redialing)
    case TickEnd(settles) => t.DialResult(settles).(lock := Free)
    case WriteBegin => if !t.IsServing() then t else t.(lock := if t.conn.None? then WriteDialing else Writing)
    case WriteDialEnd(settles) => t.DialResult(settles).(lock := if settles then Writing else Free)
    // A write on a nil connection panics.
    case WriteEnd(written) =>
      if t.conn.None? then t.(lock := Free, panicked := true)
      else if written then t.(lock := Free)
      else t.ClearConn().(lock := Free)
    case Cleanup => t.EndConnection()
    case ReaderGet => t.(reader := if t.conn.Some? then Reading(t.conn.value) else Waiting)
    // A closed channel yields at once, after what it still holds.
    case ReaderWake => t.(token := false, reader := AtTop)
    case ReaderStop => t.(reader := Exited)
    case ReaderDone(packet) => t.(reader := if packet then AtTop else Clearing(t.reader.conn))
    case ReaderClear => t.ClearConn().(reader := AtTop)
  }

  // The invariant.

  ghost predicate Inv(t: Transport) {
    && !t.panicked
    && (t.closeCalled <==> t.doneCloses == 1) && t.doneCloses <= 1
    && t.chCloses == (if t.cleaned then 1 else 0)
    && (t.cleaned ==> t.doneCloses == 1 && t.conn.None? && t.lock.Free?)
    && (t.lock in {Dialing, Redialing, WriteDialing} ==> t.conn.None?)
    && (t.lock.Writing? ==> t.conn.Some?)
    && (t.conn.Some? ==> t.conn.value in t.settled && t.conn.value !in t.shut)
    && (forall c :: c in t.settled ==> c < t.next && (c in t.shut || t.conn == Some(c)))
    && (forall c :: c in t.shut ==> c < t.next)
    && (t.lock.Accepting? ==> t.lock.conn < t.next && t.lock.conn !in t.settled && t.lock.conn !in t.shut)
    && (t.reader.Waiting? && t.conn.Some? ==> t.token)
  }

  lemma StepInv(t: Transport, e: Step)
    requires Inv(t) && Enabled(t, e)
    ensures Inv(Apply(t, e))
  {
    match e {
      case AcceptBegin(_) =>
      case AcceptEnd(_) =>
      case DialEnd(_) =>
      case TickEnd(_) =>
      case WriteDialEnd(_) =>
      case WriteEnd(_) =>
      case Cleanup =>
      case ReaderClear =>
      case _ =>
    }
  }

  ghost predicate Run(states: seq<Transport>, steps: seq<Step>) {
    && |states| == |steps| + 1
    && forall i :: 0 <= i < |steps| ==> Enabled(states[i], steps[i]) && states[i + 1] == Apply(states[i], steps[i])
  }

  lemma {:induction false} RunInv(states: seq<Transport>, steps: seq<Step>, i: nat)
    requires Run(states, steps) && states[0] == NEW && i < |states|
    ensures Inv(states[i])
  {
    if i > 0 {
      RunInv(states, steps, i - 1);
      assert Enabled(states[i - 1], steps[i - 1]);
      StepInv(states[i - 1], steps[i - 1]);
    }
  }

  /** Each channel is closed at most once, nothing is sent on a closed one, and no write meets a nil connection. */
  lemma NeverPanics(states: seq<Transport>, steps: seq<Step>, i: nat)
    requires Run(states, steps) && states[0] == NEW && i < |states|
    ensures states[i].chCloses <= 1 && states[i].doneCloses <= 1 && !states[i].panicked
    ensures states[i].lock.Writing? ==> states[i].conn.Some? && states[i].conn.value !in states[i].shut
  {
    RunInv(states, steps, i);
  }

  /** A connection whose settlement completed is in the slot, and open, or it was closed: none leaks. */
  lemma SettledIsCurrentOrClosed(states: seq<Transport>, steps: seq<Step>, i: nat, c: Conn)
    requires Run(states, steps) && states[0] == NEW && i < |states| && c in states[i].settled
    ensures states[i].conn == Some(c) <==> c !in states[i].shut
  {
    RunInv(states, steps, i);
  }

  // What becomes of a connection: which steps settle one, store one, and close one.

  predicate Settles(e: Step) {
    match e
    case AcceptEnd(settles) => settles
    case DialEnd(settles) => settles
    case TickEnd(settles) => settles
    case WriteDialEnd(settles) => settles
    case _ => false
  }

  /** The connection whose settlement a step completes: the one accepted, or the one just dialled. */
  function NewConn(t: Transport): Conn {
    if t.lock.Accepting? then t.lock.conn else t.next
  }

  /**
   * A connection that settles becomes the transport's connection, and stays open, exactly when the slot is empty, and
   * is closed exactly when the slot is full; a read loop that waits can then go on. A dial always finds the slot empty.
   */
  lemma SettlingStores(states: seq<Transport>, steps: seq<Step>, i: nat)
    requires Run(states, steps) && states[0] == NEW && i < |steps| && Settles(steps[i])
    ensures var t, t', c := states[i], states[i + 1], NewConn(states[i]);
      && c !in t.settled && c !in t.shut && t'.settled == t.settled + {c}
      && (t.conn.None? <==> t'.conn == Some(c)) && (t.conn.None? <==> c !in t'.shut)
      && (t.conn.Some? ==> t'.conn == t.conn)
      && (t.conn.None? && t'.reader.Waiting? ==> Enabled(t', ReaderWake))
      && (t.conn.Some? ==> steps[i].AcceptEnd?)
  {
    RunInv(states, steps, i);
    assert Enabled(states[i], steps[i]);
  }

  /** The connection a step closes, if it closes one. */
  function Closes(t: Transport, e: Step): Option<Conn> {
    match e
    // Accepted after Close.
    case AcceptBegin(network) => if network && t.doneCloses > 0 then Some(t.next) else None
    // Settled while the slot is full.
    case AcceptEnd(settles) => if settles && t.conn.Some? && t.lock.Accepting? then Some(t.lock.conn) else None
    // The current one.
    case WriteEnd(written) => if written then None else t.conn
    case Cleanup => t.conn
    case ReaderClear => t.conn
    case _ => None
  }

  /** No other step closes a connection, settles one, or changes the slot. */
  lemma StepEffects(states: seq<Transport>, steps: seq<Step>, i: nat)
    requires Run(states, steps) && states[0] == NEW && i < |steps|
    ensures var t, t', closed, c := states[i], states[i + 1], Closes(states[i], steps[i]), NewConn(states[i]);
      && (closed.Some? ==> closed.value !in t.shut)
      && t'.shut == t.shut + (if closed.Some? then {closed.value} else {})
      && t'.settled == t.settled + (if Settles(steps[i]) then {c} else {})
      && t'.conn == (if t.conn.None? && Settles(steps[i]) then Some(c)
                     else if t.conn.Some? && closed == t.conn then None
                     else t.conn)
  {
    RunInv(states, steps, i);
    assert Enabled(states[i], steps[i]);
  }

  /** The state after these steps, if each of them can be taken. */
  function After(t: Transport, steps: seq<Step>): Option<Transport>
    decreases |steps|
  {
    if steps == [] then Some(t)
    else if !Enabled(t, steps[0]) then None
    else After(Apply(t, steps[0]), steps[1..])
  }

  lemma AfterTwo(t: Transport, e: Step, f: Step)
    requires Enabled(t, e) && Enabled(Apply(t, e), f)
    ensures After(t, [e, f]) == Some(Apply(Apply(t, e), f))
  {
    var t' := Apply(t, e);
    assert [e, f][1..] == [f] && [f][1..] == [];
    assert After(t', [f]) == After(Apply(t', f), []);
  }

  /** An open transport without a connection gets one by each of the four ways, whatever happened before. */
  lemma CanConnect(states: seq<Transport>, steps: seq<Step>, i: nat)
    requires Run(states, steps) && states[0] == NEW && i < |states|
    requires states[i].lock.Free? && states[i].IsServing() && states[i].conn.None?
    ensures forall begin, end :: (begin, end) in {(AcceptBegin(true), AcceptEnd(true)), (DialBegin, DialEnd(true)),
                                                  (TickBegin, TickEnd(true)), (WriteBegin, WriteDialEnd(true))} ==>
      var t := After(states[i], [begin, end]);
      t.Some? && t.value.conn == Some(states[i].next) && states[i].next !in t.value.shut
  {
    RunInv(states, steps, i);
    var t := states[i];
    AfterTwo(t, AcceptBegin(true), AcceptEnd(true));
    AfterTwo(t, DialBegin, DialEnd(true));
    AfterTwo(t, TickBegin, TickEnd(true));
    AfterTwo(t, WriteBegin, WriteDialEnd(true));
  }

  /** A read loop that waits while a connection is in the slot reads from it once the mutex is free. */
  lemma WaitingReaderReads(states: seq<Transport>, steps: seq<Step>, i: nat)
    requires Run(states, steps) && states[0] == NEW && i < |states|
    requires states[i].lock.Free? && states[i].reader.Waiting? && states[i].conn.Some?
    ensures var t := After(states[i], [ReaderWake, ReaderGet]);
            t.Some? && t.value.reader == Reading(states[i].conn.value) && !t.value.token
  {
    RunInv(states, steps, i);
    AfterTwo(states[i], ReaderWake, ReaderGet);
  }

  /** A write on an open transport without a connection dials one first and then writes on it. */
  lemma WritesOnDialled(states: seq<Transport>, steps: seq<Step>, i: nat, written: bool)
    requires Run(states, steps) && states[0] == NEW && i < |states|
    requires states[i].lock.Free? && states[i].IsServing() && states[i].conn.None?
    ensures var t, c := After(states[i], [WriteBegin, WriteDialEnd(true), WriteEnd(written)]), states[i].next;
            && t.Some? && t.value.lock.Free? && t.value.conn == (if written then Some(c) else None)
            && c in t.value.settled && (c in t.value.shut <==> !written)
  {
    RunInv(states, steps, i);
    var t := Apply(states[i], WriteBegin);
    AfterTwo(t, WriteDialEnd(true), WriteEnd(written));
    assert [WriteBegin, WriteDialEnd(true), WriteEnd(written)][1..] == [WriteDialEnd(true), WriteEnd(written)];
  }

  /** A write on an open transport goes to its connection, and a failed one costs it that connection. */
  lemma WritesOnCurrent(states: seq<Transport>, steps: seq<Step>, i: nat, written: bool)
    requires Run(states, steps) && states[0] == NEW && i < |states|
    requires states[i].lock.Free? && states[i].IsServing() && states[i].conn.Some?
    ensures var t, c := After(states[i], [WriteBegin, WriteEnd(written)]), states[i].conn.value;
            t.Some? && t.value.conn == (if written then Some(c) else None) && (c in t.value.shut <==> !written)
  {
    RunInv(states, steps, i);
    AfterTwo(states[i], WriteBegin, WriteEnd(written));
  }

  /** A read loop that got a packet reads on, from the connection that is then current. */
  lemma ReadsOn(states: seq<Transport>, steps: seq<Step>, i: nat)
    requires Run(states, steps) && states[0] == NEW && i < |states|
    requires states[i].lock.Free? && states[i].reader.Reading? && states[i].conn.Some?
    ensures var t := After(states[i], [ReaderDone(true), ReaderGet]);
            t.Some? && t.value == states[i].(reader := Reading(states[i].conn.value))
  {
    AfterTwo(states[i], ReaderDone(true), ReaderGet);
  }

  // Closing.

  lemma StepChannels(t: Transport, e: Step)
    requires Inv(t) && Enabled(t, e)
    ensures Apply(t, e).doneCloses == if e.Close? then 1 else t.doneCloses
    ensures Apply(t, e).chCloses == if e.Cleanup? then 1 else t.chCloses
  {
  }

  /** Close was called, or the cleanup was done, in the first `n` steps. */
  predicate Taken(steps: seq<Step>, n: nat, close: bool)
    requires n <= |steps|
  {
    exists k :: 0 <= k < n && if close then steps[k].Close? else steps[k].Cleanup?
  }

  lemma TakenStep(steps: seq<Step>, n: nat, close: bool)
    requires n < |steps|
    ensures Taken(steps, n + 1, close)
       <==> Taken(steps, n, close) || if close then steps[n].Close? else steps[n].Cleanup?
  {
  }

  /** The done signal is closed by the first Close and the wake-up channel by the cleanup, and by nothing else. */
  lemma {:induction false} ChannelsClosedBy(states: seq<Transport>, steps: seq<Step>, i: nat)
    requires Run(states, steps) && states[0] == NEW && i < |states|
    ensures states[i].doneCloses == if Taken(steps, i, true) then 1 else 0
    ensures states[i].chCloses == if Taken(steps, i, false) then 1 else 0
  {
    hide Inv, Apply, Enabled;
    if i > 0 {
      ChannelsClosedBy(states, steps, i - 1);
      RunInv(states, steps, i - 1);
      TakenStep(steps, i - 1, true);
      TakenStep(steps, i - 1, false);
      hide Taken;
      assert Enabled(states[i - 1], steps[i - 1]);
      StepChannels(states[i - 1], steps[i - 1]);
    }
  }

  lemma StepKeepsDone(t: Transport, e: Step)
    requires Enabled(t, e)
    ensures t.doneCloses <= Apply(t, e).doneCloses && (t.closeCalled ==> Apply(t, e).closeCalled)
  {
  }

  /** Once Close was called the transport never serves again: dials and writes do nothing, and accepts close. */
  lemma {:induction false} CloseIsFinal(states: seq<Transport>, steps: seq<Step>, i: nat, j: nat)
    requires Run(states, steps) && states[0] == NEW && i < j < |states| && steps[i].Close?
    ensures !states[j].IsServing() && states[j].closeCalled
    ensures j < |steps| && (steps[j].DialBegin? || steps[j].WriteBegin?) ==> states[j + 1] == states[j]
    ensures j < |steps| && steps[j] == AcceptBegin(true) ==> states[j].next in states[j + 1].shut
  {
    assert Enabled(states[j - 1], steps[j - 1]) && (j < |steps| ==> Enabled(states[j], steps[j]));
    RunInv(states, steps, j);
    if i < j - 1 {
      CloseIsFinal(states, steps, i, j - 1);
      StepKeepsDone(states[j - 1], steps[j - 1]);
    }
  }

  /** A way for whoever holds the mutex to let go of it. */
  function Release(t: Transport): seq<Step> {
    match t.lock
    case Free => []
    case Accepting(_) => [AcceptEnd(false)]
    case Dialing => [DialEnd(false)]
    case Redialing => [TickEnd(false)]
    case WriteDialing => [WriteDialEnd(false)]
    case Writing => [WriteEnd(false)]
  }

  /** A way for the read loop of a closed transport to end. */
  function Drain(r: Reader): seq<Step> {
    match r
    case AtTop => [ReaderGet, ReaderStop]
    case Waiting => [ReaderStop]
    case Reading(_) => [ReaderDone(false), ReaderClear, ReaderGet, ReaderStop]
    case Clearing(_) => [ReaderClear, ReaderGet, ReaderStop]
    case Exited => []
  }

  function ShutDown(t: Transport): seq<Step> {
    Release(t) + [Close] + (if t.cleaned then [] else [Cleanup]) + Drain(t.reader)
  }

  lemma {:induction false} AfterAppend(t: Transport, first: seq<Step>, second: seq<Step>)
    requires After(t, first).Some?
    ensures After(t, first + second) == After(After(t, first).value, second)
    decreases |first|
  {
    if first == [] {
      assert first + second == second;
    } else {
      assert (first + second)[1..] == first[1..] + second;
      AfterAppend(Apply(t, first[0]), first[1..], second);
    }
  }

  lemma ReleaseFrees(t: Transport)
    requires Inv(t)
    ensures var u := After(t, Release(t));
            u.Some? && Inv(u.value) && u.value.lock.Free? && u.value.reader == t.reader && u.value.cleaned == t.cleaned
  {
    if t.lock != Free {
      assert Release(t)[1..] == [];
    }
  }

  lemma CloseThenCleanup(t: Transport)
    requires Inv(t) && t.lock.Free?
    ensures var u := After(t, [Close] + (if t.cleaned then [] else [Cleanup]));
            && u.Some? && Inv(u.value) && u.value.lock.Free? && u.value.cleaned
            && u.value.reader == t.reader
  {
    if t.cleaned {
      assert [Close] + [] == [Close] && [Close][1..] == [];
      StepInv(t, Close);
    } else {
      AfterTwo(t, Close, Cleanup);
      StepInv(t, Close);
      StepInv(Apply(t, Close), Cleanup);
      assert [Close] + [Cleanup] == [Close, Cleanup];
    }
  }

  lemma DrainStops(t: Transport)
    requires Inv(t) && t.lock.Free? && t.cleaned
    ensures var u := After(t, Drain(t.reader)); u.Some? && Inv(u.value) && u.value.cleaned && u.value.reader.Exited?
  {
    match t.reader {
      case AtTop => AfterTwo(t, ReaderGet, ReaderStop);
      case Waiting => assert [ReaderStop][1..] == [];
      case Reading(_) =>
        var t' := Apply(t, ReaderDone(false));
        AfterTwo(t, ReaderDone(false), ReaderClear);
        AfterTwo(Apply(t', ReaderClear), ReaderGet, ReaderStop);
        AfterAppend(t, [ReaderDone(false), ReaderClear], [ReaderGet, ReaderStop]);
        assert Drain(t.reader) == [ReaderDone(false), ReaderClear] + [ReaderGet, ReaderStop];
      case Clearing(_) =>
        AfterTwo(Apply(t, ReaderClear), ReaderGet, ReaderStop);
        assert Drain(t.reader)[1..] == [ReaderGet, ReaderStop];
      case Exited =>
    }
  }

  /** From every reachable state a transport can be shut down: nobody is stuck, and every connection gets closed. */
  lemma CanShutDown(states: seq<Transport>, steps: seq<Step>, i: nat)
    requires Run(states, steps) && states[0] == NEW && i < |states|
    ensures var u := After(states[i], ShutDown(states[i]));
            && u.Some? && u.value.cleaned && u.value.reader.Exited? && u.value.conn.None?
            && u.value.settled <= u.value.shut
  {
    RunInv(states, steps, i);
    var t := states[i];
    hide Enabled, Apply, Release, Drain;
    ReleaseFrees(t);
    var u := After(t, Release(t)).value;
    CloseThenCleanup(u);
    var closing := [Close] + (if t.cleaned then [] else [Cleanup]);
    var v := After(u, closing).value;
    DrainStops(v);
    AfterAppend(t, Release(t), closing);
    AfterAppend(t, Release(t) + closing, Drain(t.reader));
    assert ShutDown(t) == Release(t) + closing + Drain(t.reader);
  }

  lemma StepKeepsCleaned(t: Transport, e: Step)
    requires Enabled(t, e) && t.cleaned
    ensures Apply(t, e).cleaned
  {
  }

  lemma {:induction false} CleanedForGood(states: seq<Transport>, steps: seq<Step>, i: nat, j: nat)
    requires Run(states, steps) && i <= j < |states| && states[i].cleaned
    ensures states[j].cleaned
  {
    hide Enabled, Apply;
    if i < j {
      CleanedForGood(states, steps, i, j - 1);
      assert Enabled(states[j - 1], steps[j - 1]);
      StepKeepsCleaned(states[j - 1], steps[j - 1]);
    }
  }

  /** After the serve loop's cleanup the slot stays empty, and every settled connection is closed. */
  lemma EmptyAfterCleanup(states: seq<Transport>, steps: seq<Step>, i: nat, j: nat)
    requires Run(states, steps) && states[0] == NEW && i <= j < |states| && states[i].cleaned
    ensures states[j].conn.None? && states[j].settled <= states[j].shut
  {
    CleanedForGood(states, steps, i, j);
    RunInv(states, steps, j);
  }

  /** No wake-up is lost: while a connection is in the slot, a waiting read loop can go on. */
  lemma NoLostWakeup(states: seq<Transport>, steps: seq<Step>, i: nat)
    requires Run(states, steps) && states[0] == NEW && i < |states|
    requires states[i].reader.Waiting? && (states[i].conn.Some? || states[i].doneCloses > 0)
    ensures Enabled(states[i], ReaderWake) || Enabled(states[i], ReaderStop)
  {
    RunInv(states, steps, i);
  }

  // What the transport does not promise.

  lemma StepKeepsShut(t: Transport, e: Step)
    requires Enabled(t, e)
    ensures t.shut <= Apply(t, e).shut
  {
  }

  lemma StepKeepsSettled(t: Transport, e: Step)
    requires Enabled(t, e)
    ensures t.settled <= Apply(t, e).settled
  {
  }

  lemma SlotChangesThroughEmpty(t: Transport, e: Step)
    requires Inv(t) && Enabled(t, e)
    ensures t.conn.Some? && Apply(t, e).conn.Some? ==> Apply(t, e).conn == t.conn
  {
  }

  /** While no other connection is fetched the read loop is busy with this one, or done with it. */
  predicate BusyWith(r: Reader, c: Conn) {
    r == Reading(c) || r == Clearing(c) || r.AtTop?
  }

  lemma StepBusy(t: Transport, e: Step, c: Conn)
    requires Enabled(t, e) && BusyWith(t.reader, c) && !e.ReaderGet?
    ensures BusyWith(Apply(t, e).reader, c)
  {
  }

  lemma JustGot(t: Transport, e: Step, c: Conn)
    requires Enabled(t, e) && e.ReaderGet? && t.conn == Some(c)
    ensures BusyWith(Apply(t, e).reader, c) && Apply(t, e).conn == t.conn
  {
  }

  lemma EmptyMeansShut(t: Transport, c: Conn)
    requires Inv(t) && t.conn.None? && c in t.settled
    ensures c in t.shut
  {
  }

  lemma CurrentIsSettled(t: Transport, c: Conn)
    requires Inv(t) && t.conn == Some(c)
    ensures c in t.settled
  {
  }

  lemma {:induction false} SettledStays(states: seq<Transport>, steps: seq<Step>, i: nat, j: nat, c: Conn)
    requires Run(states, steps) && states[0] == NEW && i <= j < |states| && states[i].conn == Some(c)
    ensures c in states[j].settled
  {
    hide Inv, Enabled, Apply;
    if i == j {
      RunInv(states, steps, i);
      CurrentIsSettled(states[i], c);
    } else {
      SettledStays(states, steps, i, j - 1, c);
      assert Enabled(states[j - 1], steps[j - 1]);
      StepKeepsSettled(states[j - 1], steps[j - 1]);
    }
  }

  lemma {:induction false} ReadGoesOn(states: seq<Transport>, steps: seq<Step>, i: nat, j: nat, c: Conn)
    requires Run(states, steps) && states[0] == NEW && i < j < |states|
    requires steps[i].ReaderGet? && states[i].conn == Some(c)
    requires forall k :: i < k < j ==> !steps[k].ReaderGet?
    ensures BusyWith(states[j].reader, c)
    ensures (forall k :: i <= k <= j ==> states[k].conn.Some?) ==> states[j].conn == Some(c)
    ensures (exists k :: i <= k <= j && states[k].conn.None?) ==> c in states[j].shut
  {
    hide Inv, Enabled, Apply, BusyWith;
    RunInv(states, steps, j - 1);
    RunInv(states, steps, j);
    SettledStays(states, steps, i, j, c);
    assert Enabled(states[j - 1], steps[j - 1]);
    SlotChangesThroughEmpty(states[j - 1], steps[j - 1]);
    StepKeepsShut(states[j - 1], steps[j - 1]);
    if j == i + 1 {
      JustGot(states[i], steps[i], c);
    } else {
      ReadGoesOn(states, steps, i, j - 1, c);
      StepBusy(states[j - 1], steps[j - 1], c);
    }
    if states[j].conn.None? {
      EmptyMeansShut(states[j], c);
    }
  }

  lemma ClearCloses(t: Transport, e: Step, c: Conn)
    requires Inv(t) && Enabled(t, e) && e.ReaderClear? && BusyWith(t.reader, c)
    ensures t.reader == Clearing(c)
    ensures Apply(t, e).shut == t.shut + (if t.conn.Some? then {t.conn.value} else {})
    ensures t.conn.Some? ==> t.conn.value !in t.shut
  {
  }

  /**
   * Exactly when a read that fails late closes a connection it did not read from: a read of connection `c`, fetched
   * at step `i`, whose failure is dealt with at step `j`, closes another one if and only if the slot is full at that
   * moment and was empty at some time since.
   */
  lemma LateClearIff(states: seq<Transport>, steps: seq<Step>, i: nat, j: nat, c: Conn)
    requires Run(states, steps) && states[0] == NEW && i < j < |steps|
    requires steps[i].ReaderGet? && states[i].conn == Some(c)
    requires steps[j].ReaderClear? && forall k :: i < k < j ==> !steps[k].ReaderGet?
    ensures states[j].reader == Clearing(c)
    ensures (exists d :: d != c && d in states[j + 1].shut && d !in states[j].shut)
       <==> states[j].conn.Some? && exists k :: i <= k <= j && states[k].conn.None?
  {
    hide Inv, Enabled, Apply, BusyWith;
    ReadGoesOn(states, steps, i, j, c);
    RunInv(states, steps, j);
    assert Enabled(states[j], steps[j]);
    ClearCloses(states[j], steps[j], c);
    var t := states[j];
    if t.conn.Some? && exists k :: i <= k <= j && states[k].conn.None? {
      assert t.conn.value != c && t.conn.value in states[j + 1].shut;
    }
  }

  const LATE_READ := [DialBegin, DialEnd(true), ReaderGet, WriteBegin, WriteEnd(false), DialBegin, DialEnd(true),
                      ReaderDone(false), ReaderClear]

  function LateReadStates(): seq<Transport> {
    var dialed := NEW.(conn := Some(0), token := true, next := 1, settled := {0});
    var reading := dialed.(reader := Reading(0));
    var cleared := reading.(conn := None, shut := {0});
    var redialed := cleared.(conn := Some(1), next := 2, settled := {0, 1});
    [NEW, NEW.(lock := Dialing), dialed, reading, reading.(lock := Writing), cleared, cleared.(lock := Dialing),
     redialed, redialed.(reader := Clearing(0)), redialed.(conn := None, shut := {0, 1}, reader := AtTop)]
  }

  lemma LateReadSteps(i: nat)
    requires i < 9
    ensures var states := LateReadStates();
            Enabled(states[i], LATE_READ[i]) && states[i + 1] == Apply(states[i], LATE_READ[i])
  {
    assert i == 0 || i == 1 || i == 2 || i == 3 || i == 4 || i == 5 || i == 6 || i == 7 || i == 8;
  }

  /** Such runs exist: here connection 1 is closed by the failed read of connection 0. */
  lemma LateReadClosesSuccessor()
    ensures var states := LateReadStates();
            && Run(states, LATE_READ) && states[0] == NEW
            && states[7].reader == Reading(0) && states[7].conn == Some(1) && 1 !in states[7].shut
            && states[9].conn == None && 1 in states[9].shut
  {
    hide Enabled, Apply;
    var states := LateReadStates();
    forall i | 0 <= i < |LATE_READ|
      ensures Enabled(states[i], LATE_READ[i]) && states[i + 1] == Apply(states[i], LATE_READ[i])
    {
      LateReadSteps(i);
    }
  }
}
