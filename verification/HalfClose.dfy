/**
 One relayed TCP stream: the task that carries backend bytes to the tunnel, the
 task that carries tunnel bytes to the backend, and the one that waits for them.
 An EOF from the far side closes only the second, after what is queued.
 */
module HalfClose {
  import opened Common

  /** A queued frame; `plain` is what it opens to, None when it will not open. */
  datatype Chunk = Chunk(plain: Option<Bytes>)

  // ---- The parts ------------------------------------------------------------------------

  /**
   The registry entry with its senders, and the byte channel behind it. `lost`:
   the read loop took the entry out, and its abort sender went with it.
   */
  datatype Line = Line(registered: bool, eof: bool, lost: bool, queue: seq<Chunk>, rxClosed: bool, accepted: seq<Chunk>)

  datatype DownAt = Looping | Writing(rest: Bytes) | Ending | Done | Killed

  /** Tunnel to backend. `signal`: it subscribed to the EOF watch. */
  datatype Down = Down(at: DownAt, signal: bool, graceful: bool, taken: seq<Chunk>, written: Bytes,
                       openFailed: bool, writeFailed: bool)

  datatype UpAt = UpLooping | Sending(chunk: Bytes) | UpEnding | UpDone | UpKilled

  /** Backend to tunnel. `closes` counts the TcpClose frames it sent. */
  datatype Up = Up(at: UpAt, read: seq<Bytes>, relayed: seq<Bytes>, sendFailed: bool, closes: nat)

  datatype Stage = Setup | Running | Draining | Stopping | Refused | Finished

  datatype Task = DownTask | UpTask

  /** The waiting task. `first`: the relay task that finished first. */
  datatype Waiter = Waiter(stage: Stage, first: Option<Task>, aborted: bool, timedOut: bool)

  datatype State = State(line: Line, down: Down, up: Up, waiter: Waiter)

  const OPENED := State(Line(true, false, false, [], false, []),
                        Down(Looping, false, false, [], [], false, false),
                        Up(UpLooping, [], [], false, 0),
                        Waiter(Setup, None, false, false))

  // ---- The read loop of the connection ---------------------------------------------------

  datatype LineEvent = Frame(chunk: Chunk) | Eof | PeerClose | Stall

  function Lose(l: Line): Line {
    l.(registered := false, lost := true)
  }

  function LineNext(l: Line, e: LineEvent): Line {
    if !l.registered then l
    else
      match e
      // a frame for a closed channel takes the entry out of the registry
      case Frame(chunk) =>
        if l.rxClosed then Lose(l)
        else l.(queue := l.queue + [chunk], accepted := l.accepted + [chunk])
      case Eof => l.(eof := true)
      case PeerClose => Lose(l)
      // a consumer that took nothing for the stall budget loses its entry
      case Stall => Lose(l)
  }

  // ---- Tunnel to backend ------------------------------------------------------------------

  datatype DownEvent = NoticeEof | Receive | ReceiveNone | WriteSome(n: nat) | WriteDone | WriteFails | Shutdown

  predicate DownEnabled(l: Line, d: Down, e: DownEvent) {
    match e
    // the watch fires on EOF, and also when its sender is dropped with the entry
    case NoticeEof => d.at.Looping? && !d.graceful && d.signal && (l.eof || !l.registered)
    case Receive => d.at.Looping? && l.queue != []
    case ReceiveNone => d.at.Looping? && l.queue == [] && (l.rxClosed || !l.registered)
    case WriteSome(n) => d.at.Writing? && n <= |d.at.rest|
    case WriteDone => d.at == Writing([])
    case WriteFails => d.at.Writing?
    case Shutdown => d.at.Ending?
  }

  function DownNext(l: Line, d: Down, e: DownEvent): (Line, Down)
    requires DownEnabled(l, d, e)
  {
    match e
    case NoticeEof => (l.(rxClosed := true), d.(graceful := true))
    case Receive =>
      var chunk := l.queue[0];
      var d' := d.(taken := d.taken + [chunk]);
      (l.(queue := l.queue[1..]),
       if chunk.plain.None? then d'.(at := Ending, openFailed := true) else d'.(at := Writing(chunk.plain.value)))
    case ReceiveNone => (l, d.(at := Ending))
    case WriteSome(n) => (l, d.(at := Writing(d.at.rest[n..]), written := d.written + d.at.rest[..n]))
    case WriteDone => (l, d.(at := Looping))
    case WriteFails => (l, d.(at := Ending, writeFailed := true))
    // the task ends, and the receiver with it
    case Shutdown => (l.(rxClosed := true), d.(at := Done))
  }

  // ---- Backend to tunnel --------------------------------------------------------------------

  datatype UpEvent = BackendData(bytes: Bytes) | BackendEnd | Send | SendFails | SendTcpClose

  predicate UpEnabled(u: Up, e: UpEvent) {
    match e
    case BackendData(_) => u.at.UpLooping?
    case BackendEnd => u.at.UpLooping?
    case Send => u.at.Sending?
    case SendFails => u.at.Sending?
    case SendTcpClose => u.at.UpEnding?
  }

  function UpNext(u: Up, e: UpEvent): Up
    requires UpEnabled(u, e)
  {
    match e
    case BackendData(bytes) => u.(at := Sending(bytes), read := u.read + [bytes])
    case BackendEnd => u.(at := UpEnding)
    case Send => u.(at := UpLooping, relayed := u.relayed + [u.at.chunk])
    case SendFails => u.(at := UpEnding, sendFailed := true)
    case SendTcpClose => u.(at := UpDone, closes := u.closes + 1)
  }

  // ---- The waiting task ----------------------------------------------------------------------

  datatype WaiterEvent =
    SetupFails | SetupDone | JoinFirst | Abort | JoinSecond | Ceiling | KillDown | KillUp | Unregister

  predicate WaiterEnabled(s: State, e: WaiterEvent) {
    match e
    case SetupFails => s.waiter.stage.Setup?
    case SetupDone => s.waiter.stage.Setup?
    case JoinFirst => s.waiter.stage.Running? && s.waiter.first.Some?
    // on a TcpClose, and also when the abort sender is dropped with the entry
    case Abort => s.waiter.stage in {Running, Draining} && s.line.lost
    case JoinSecond => s.waiter.stage.Draining? && s.up.at.UpDone?
    case Ceiling => s.waiter.stage.Draining?
    case KillDown => s.waiter.stage.Stopping? && s.down.at !in {Done, Killed}
    case KillUp => s.waiter.stage.Stopping? && s.up.at !in {UpDone, UpKilled}
    case Unregister => s.waiter.stage.Stopping? && s.down.at in {Done, Killed} && s.up.at in {UpDone, UpKilled}
  }

  function At(s: State, stage: Stage): State {
    s.(waiter := s.waiter.(stage := stage))
  }

  function WaiterNext(s: State, e: WaiterEvent): State
    requires WaiterEnabled(s, e)
  {
    match e
    // the handshake, the connect or the PROXY header failed: unregister, send TcpClose, return
    case SetupFails => At(s, Refused).(line := s.line.(registered := false), up := s.up.(closes := s.up.closes + 1))
    case SetupDone => At(s, Running).(down := s.down.(signal := s.line.registered))
    case JoinFirst => At(s, if s.waiter.first == Some(DownTask) && s.down.graceful then Draining else Stopping)
    case Abort => s.(waiter := s.waiter.(stage := Stopping, aborted := true))
    case JoinSecond => At(s, Stopping)
    case Ceiling => s.(waiter := s.waiter.(stage := Stopping, timedOut := true))
    case KillDown => s.(down := s.down.(at := Killed), line := s.line.(rxClosed := true))
    case KillUp => s.(up := s.up.(at := UpKilled))
    case Unregister => At(s, Finished).(line := s.line.(registered := false))
  }

  // ---- All of it -------------------------------------------------------------------------------

  datatype Event = OnLine(l: LineEvent) | OnDown(d: DownEvent) | OnUp(u: UpEvent) | OnWaiter(w: WaiterEvent)

  predicate Relaying(w: Waiter) {
    w.stage in {Running, Draining, Stopping}
  }

  predicate Enabled(s: State, e: Event) {
    match e
    case OnLine(_) => true
    case OnDown(d) => Relaying(s.waiter) && DownEnabled(s.line, s.down, d)
    case OnUp(u) => Relaying(s.waiter) && UpEnabled(s.up, u)
    case OnWaiter(w) => WaiterEnabled(s, w)
  }

  /** The first task to finish is remembered as such. */
  function Finishing(w: Waiter, task: Task, done: bool): Waiter {
    if done && w.first.None? then w.(first := Some(task)) else w
  }

  function Next(s: State, e: Event): State
    requires Enabled(s, e)
  {
    match e
    case OnLine(l) => s.(line := LineNext(s.line, l))
    case OnDown(d) =>
      var (line, down) := DownNext(s.line, s.down, d);
      s.(line := line, down := down, waiter := Finishing(s.waiter, DownTask, down.at.Done?))
    case OnUp(u) =>
      var up := UpNext(s.up, u);
      s.(up := up, waiter := Finishing(s.waiter, UpTask, up.at.UpDone?))
    case OnWaiter(w) => WaiterNext(s, w)
  }

  function Exec(s: State, es: seq<Event>): Option<State>
    decreases |es|
  {
    if es == [] then Some(s)
    else if Enabled(s, es[0]) then Exec(Next(s, es[0]), es[1..])
    else None
  }

  // ---- Order ---------------------------------------------------------------------------------------

  /** What a list of frames opens to, up to the first that does not open. */
  function Plain(chunks: seq<Chunk>): Bytes {
    if chunks == [] || chunks[0].plain.None? then [] else chunks[0].plain.value + Plain(chunks[1..])
  }

  ghost predicate AllOpen(chunks: seq<Chunk>) {
    forall i :: 0 <= i < |chunks| ==> chunks[i].plain.Some?
  }

  lemma {:induction false} PlainAppend(xs: seq<Chunk>, ys: seq<Chunk>)
    requires AllOpen(xs)
    ensures Plain(xs + ys) == Plain(xs) + Plain(ys)
  {
    if xs == [] {
      assert xs + ys == ys;
    } else {
      assert (xs + ys)[1..] == xs[1..] + ys;
      PlainAppend(xs[1..], ys);
    }
  }

  lemma {:induction false} PlainPrefix(xs: seq<Chunk>, ys: seq<Chunk>)
    ensures Plain(xs) <= Plain(xs + ys)
  {
    if xs != [] && xs[0].plain.Some? {
      assert (xs + ys)[1..] == xs[1..] + ys;
      PlainPrefix(xs[1..], ys);
    }
  }

  lemma PlainOne(taken: seq<Chunk>, chunk: Chunk)
    requires AllOpen(taken)
    ensures Plain(taken + [chunk]) == Plain(taken) + (if chunk.plain.Some? then chunk.plain.value else [])
  {
    PlainAppend(taken, [chunk]);
    assert [chunk][1..] == [];
  }

  /** The bytes taken from the queue but not yet written. */
  function Pending(d: Down): Bytes {
    if d.at.Writing? then d.at.rest else []
  }

  /** Frames leave the queue in the order they entered it, and are written whole, in that order. */
  ghost predicate InOrder(l: Line, d: Down) {
    && l.accepted == d.taken + l.queue
    && d.written <= Plain(d.taken)
    && (!d.at.Killed? && !d.writeFailed ==> d.written + Pending(d) == Plain(d.taken))
    && (!d.openFailed ==> AllOpen(d.taken))
    && (d.at.Looping? || d.at.Writing? ==> !d.openFailed && !d.writeFailed)
  }

  /** The write side ends cleanly only with the queue empty and shut; EOF and shutting go together. */
  ghost predicate Drained(l: Line, d: Down) {
    && (d.at in {Ending, Done} && !d.openFailed && !d.writeFailed ==> l.queue == [] && (l.rxClosed || !l.registered))
    && (d.graceful ==> l.rxClosed) && (l.rxClosed ==> d.graceful || d.at in {Done, Killed})
  }

  lemma ReceiveKeeps(l: Line, d: Down)
    requires InOrder(l, d) && DownEnabled(l, d, Receive)
    ensures var (l', d') := DownNext(l, d, Receive); InOrder(l', d')
  {
    assert d.taken + l.queue == (d.taken + [l.queue[0]]) + l.queue[1..];
    PlainOne(d.taken, l.queue[0]);
  }

  lemma WriteKeeps(l: Line, d: Down, n: nat)
    requires InOrder(l, d) && DownEnabled(l, d, WriteSome(n))
    ensures var (l', d') := DownNext(l, d, WriteSome(n)); InOrder(l', d')
  {
    var rest := d.at.rest;
    assert (d.written + rest[..n]) + rest[n..] == d.written + rest;
  }

  lemma DownKeeps(l: Line, d: Down, e: DownEvent)
    requires InOrder(l, d) && Drained(l, d) && DownEnabled(l, d, e)
    ensures var (l', d') := DownNext(l, d, e); InOrder(l', d') && Drained(l', d')
  {
    if e.Receive? {
      ReceiveKeeps(l, d);
    } else if e.WriteSome? {
      WriteKeeps(l, d, e.n);
    }
  }

  lemma LineKeeps(l: Line, d: Down, e: LineEvent)
    requires InOrder(l, d) && Drained(l, d)
    ensures InOrder(LineNext(l, e), d) && Drained(LineNext(l, e), d)
  {
    if e.Frame? {
      assert d.taken + (l.queue + [e.chunk]) == (d.taken + l.queue) + [e.chunk];
    }
  }

  /** What is read from the backend is sent to the tunnel in order, one chunk at most behind. */
  ghost predicate Relayed(u: Up) {
    && u.relayed <= u.read
    && (u.at.Sending? ==> u.read == u.relayed + [u.at.chunk])
    && (!u.at.Sending? && !u.at.UpKilled? && !u.sendFailed ==> u.relayed == u.read)
    && (u.sendFailed ==> u.at in {UpEnding, UpDone, UpKilled})
  }

  // ---- Endings -------------------------------------------------------------------------------------

  /** Which task finished first, and why a task was killed when one was. */
  ghost predicate Explained(s: State) {
    var w := s.waiter;
    && (w.first == Some(DownTask) ==> s.down.at.Done?) && (w.first == Some(UpTask) ==> s.up.at.UpDone?)
    && (w.first.None? ==> !s.down.at.Done? && !s.up.at.UpDone?)
    && (w.stage in {Setup, Refused} ==> s.down.at.Looping? && s.up.at.UpLooping?)
    && (w.stage.Draining? ==> w.first == Some(DownTask) && s.down.graceful)
    && (w.timedOut ==> w.first == Some(DownTask) && s.down.graceful)
    && (w.stage in {Stopping, Finished} && !w.aborted && !w.timedOut ==>
          w.first == Some(UpTask) || (w.first == Some(DownTask) && (!s.down.graceful || s.up.at.UpDone?)))
    && (s.down.at.Killed? ==> w.aborted || w.first == Some(UpTask))
    && (s.up.at.UpKilled? ==> w.aborted || w.timedOut || (w.first == Some(DownTask) && !s.down.graceful))
    && (s.down.at.Killed? || s.up.at.UpKilled? ==> w.stage in {Stopping, Finished})
  }

  /** What the registry and the far side were told. */
  ghost predicate Told(s: State) {
    && (s.waiter.stage in {Refused, Finished} || s.line.lost ==> !s.line.registered)
    && (s.waiter.aborted ==> s.line.lost)
    && (s.waiter.stage.Finished? ==> s.down.at in {Done, Killed} && s.up.at in {UpDone, UpKilled})
    && s.up.closes == (if s.up.at.UpDone? || s.waiter.stage.Refused? then 1 else 0)
  }

  ghost predicate Inv(s: State) {
    InOrder(s.line, s.down) && Drained(s.line, s.down) && Relayed(s.up) && Explained(s) && Told(s)
  }

  lemma WaiterKeeps(s: State, e: WaiterEvent)
    requires Inv(s) && WaiterEnabled(s, e)
    ensures Inv(WaiterNext(s, e))
  {
    assert s.waiter.first.Some? ==> s.waiter.first.value.DownTask? || s.waiter.first.value.UpTask?;
  }

  lemma StepKeeps(s: State, e: Event)
    requires Inv(s) && Enabled(s, e)
    ensures Inv(Next(s, e))
  {
    match e {
      case OnLine(l) => LineKeeps(s.line, s.down, l);
      case OnDown(d) => DownKeeps(s.line, s.down, d);
      case OnUp(_) =>
      case OnWaiter(w) => WaiterKeeps(s, w);
    }
  }

  lemma {:induction false} RunKeeps(s: State, es: seq<Event>)
    requires Inv(s) && Exec(s, es).Some?
    ensures Inv(Exec(s, es).value)
    decreases |es|
  {
    if es != [] {
      StepKeeps(s, es[0]);
      RunKeeps(Next(s, es[0]), es[1..]);
    }
  }

  // ---- What every run guarantees -----------------------------------------------------------------------

  /** The bytes at the backend are always a prefix of what the accepted frames open to. */
  lemma NeverOutOfOrder(es: seq<Event>)
    requires Exec(OPENED, es).Some?
    ensures var s := Exec(OPENED, es).value;
            s.down.written <= Plain(s.line.accepted) && s.up.relayed <= s.up.read
  {
    RunKeeps(OPENED, es);
    var s := Exec(OPENED, es).value;
    PlainPrefix(s.down.taken, s.line.queue);
  }

  /** Once the write side is shut without a failed open or write, every accepted frame was written. */
  lemma ShutdownAfterEverything(es: seq<Event>)
    requires Exec(OPENED, es).Some?
    ensures var s := Exec(OPENED, es).value;
            s.down.at.Done? && !s.down.openFailed && !s.down.writeFailed ==>
              AllOpen(s.line.accepted) && s.down.written == Plain(s.line.accepted)
  {
    RunKeeps(OPENED, es);
    var s := Exec(OPENED, es).value;
    if s.down.at.Done? && !s.down.openFailed && !s.down.writeFailed {
      assert s.line.accepted == s.down.taken + [] == s.down.taken;
    }
  }

  /** The abort arm is taken only after a TcpClose, a stalled frame or a late one took the entry out. */
  lemma AbortMeansLost(es: seq<Event>)
    requires Exec(OPENED, es).Some?
    ensures var s := Exec(OPENED, es).value; s.waiter.aborted ==> s.line.lost && !s.line.registered
  {
    RunKeeps(OPENED, es);
  }

  /**
   A stream that ends with no abort, no failed open or write and no backend
   that closed first: the write side was drained and shut. If the ending was
   the EOF's, and the ceiling was not reached, the backend's own data was
   relayed to its end and the far side told with TcpClose.
   */
  lemma HalfCloseIsWhole(es: seq<Event>)
    requires Exec(OPENED, es).Some?
    ensures var s := Exec(OPENED, es).value;
            && s.waiter.stage.Finished? && !s.waiter.aborted && s.waiter.first != Some(UpTask)
            && !s.down.openFailed && !s.down.writeFailed ==>
              && s.down.at.Done? && s.down.written == Plain(s.line.accepted)
              && (s.down.graceful && !s.waiter.timedOut ==>
                    s.up.at.UpDone? && s.up.closes == 1 && (!s.up.sendFailed ==> s.up.relayed == s.up.read))
  {
    RunKeeps(OPENED, es);
    ShutdownAfterEverything(es);
  }

  /** What the write side does next, while nothing fails. */
  function Onward(l: Line, d: Down): DownEvent {
    match d.at
    case Writing(rest) => if rest == [] then WriteDone else WriteSome(|rest|)
    case Ending => Shutdown
    case _ => if !d.graceful then NoticeEof else if l.queue == [] then ReceiveNone else Receive
  }

  function ToGo(d: Down): nat {
    match d.at
    case Writing(rest) => if rest == [] then 3 else 4
    case Looping => 2
    case Ending => 1
    case _ => 0
  }

  /** With the EOF arrived or noticed, everything queued openable and nothing failed so far. */
  ghost predicate Drainable(s: State) {
    && Relaying(s.waiter) && !s.down.at.Killed? && !s.down.openFailed && !s.down.writeFailed
    && AllOpen(s.line.queue) && (s.down.graceful || (s.line.eof && s.down.signal))
  }

  lemma DrainableStep(s: State, e: DownEvent)
    requires Inv(s) && Drainable(s) && !s.down.at.Done? && e == Onward(s.line, s.down)
    ensures DownEnabled(s.line, s.down, e)
    ensures var t := Next(s, OnDown(e));
            && Inv(t) && Drainable(t) && t.line.accepted == s.line.accepted && |t.line.queue| <= |s.line.queue|
            && (s.down.graceful ==> t.down.graceful)
            && (t.down.graceful == s.down.graceful ==>
                  |t.line.queue| < |s.line.queue| || ToGo(t.down) < ToGo(s.down))
  {
    StepKeeps(s, OnDown(e));
  }

  /** The write side can always go on to its shutdown, with every accepted frame written. */
  lemma {:induction false} DrainsOut(s: State) returns (es: seq<Event>, t: State)
    requires Inv(s) && Drainable(s)
    ensures Exec(s, es) == Some(t) && (forall i :: 0 <= i < |es| ==> es[i].OnDown?)
    ensures Inv(t) && t.down.at.Done? && t.line.accepted == s.line.accepted && t.down.written == Plain(s.line.accepted)
    decreases !s.down.graceful, |s.line.queue|, ToGo(s.down)
  {
    if s.down.at.Done? {
      es, t := [], s;
      assert s.line.accepted == s.down.taken + [] == s.down.taken;
    } else {
      var e := Onward(s.line, s.down);
      DrainableStep(s, e);
      var rest;
      rest, t := DrainsOut(Next(s, OnDown(e)));
      es := [OnDown(e)] + rest;
      assert es[1..] == rest;
    }
  }

  /** From every reachable state, then: an EOF never leaves the write side stuck short of what was queued. */
  lemma EofDrainsOut(es: seq<Event>) returns (more: seq<Event>, t: State)
    requires Exec(OPENED, es).Some? && Drainable(Exec(OPENED, es).value)
    ensures Exec(Exec(OPENED, es).value, more) == Some(t) && (forall i :: 0 <= i < |more| ==> more[i].OnDown?)
    ensures t.down.at.Done? && t.line.accepted == Exec(OPENED, es).value.line.accepted
    ensures t.down.written == Plain(t.line.accepted)
  {
    RunKeeps(OPENED, es);
    more, t := DrainsOut(Exec(OPENED, es).value);
  }

  /** After the EOF's shutdown the other direction goes on: its next chunk can still be read and sent. */
  lemma BackendOutlivesEof(es: seq<Event>, bytes: Bytes)
    requires Exec(OPENED, es).Some?
    requires var s := Exec(OPENED, es).value; s.waiter.stage.Draining? && s.up.at.UpLooping?
    ensures var s := Exec(OPENED, es).value;
            var t := Exec(s, [OnUp(BackendData(bytes)), OnUp(Send)]);
            && s.down.at.Done? && s.down.graceful
            && t.Some? && t.value.waiter.stage.Draining? && t.value.up.relayed == s.up.relayed + [bytes]
  {
    RunKeeps(OPENED, es);
    var s := Exec(OPENED, es).value;
    var events := [OnUp(BackendData(bytes)), OnUp(Send)];
    assert events[1..] == [OnUp(Send)] && events[1..][1..] == [];
    var s1 := Next(s, events[0]);
    assert Exec(s, events) == Exec(s1, events[1..]) == Exec(Next(s1, OnUp(Send)), []);
  }

  /** Every exit takes the stream out of the registry; the far side hears TcpClose unless that task was killed. */
  lemma EveryExitUnregisters(es: seq<Event>)
    requires Exec(OPENED, es).Some?
    ensures var s := Exec(OPENED, es).value;
            s.waiter.stage in {Refused, Finished} ==>
              && !s.line.registered && s.up.closes <= 1
              && (s.up.closes == 0 <==> s.up.at.UpKilled?)
              && (s.up.at.UpKilled? ==>
                    || (s.waiter.aborted && s.line.lost) || s.waiter.timedOut
                    || (s.waiter.first == Some(DownTask) && !s.down.graceful))
  {
    RunKeeps(OPENED, es);
  }

  /** One more step at the end of a run. */
  lemma {:induction false} Append(s: State, es: seq<Event>, e: Event)
    requires Exec(s, es).Some? && Enabled(Exec(s, es).value, e)
    ensures Exec(s, es + [e]) == Some(Next(Exec(s, es).value, e))
    decreases |es|
  {
    if es == [] {
      assert es + [e] == [e] && [e][1..] == [];
    } else {
      assert (es + [e])[0] == es[0] && (es + [e])[1..] == es[1..] + [e];
      Append(Next(s, es[0]), es[1..], e);
    }
  }

  lemma Then(es: seq<Event>, t: State, e: Event) returns (es': seq<Event>, t': State)
    requires Exec(OPENED, es) == Some(t) && Enabled(t, e)
    ensures t' == Next(t, e) && Exec(OPENED, es') == Some(t') && es' == es + [e]
  {
    Append(OPENED, es, e);
    es', t' := es + [e], Next(t, e);
  }

  /** One frame behind the EOF takes the entry out, and what was queued before the EOF is not written. */
  lemma LateFrameAborts(chunk: Chunk, late: Chunk) returns (es: seq<Event>)
    requires chunk.plain.Some? && chunk.plain.value != []
    ensures Exec(OPENED, es).Some? && forall i :: 0 <= i < |es| ==> es[i] != OnLine(PeerClose)
    ensures var s := Exec(OPENED, es).value;
            && s.waiter.stage.Finished? && s.waiter.first.None? && !s.down.openFailed && !s.down.writeFailed
            && s.line.eof && s.line.accepted == [chunk] && s.down.written == []
  {
    var s := OPENED;
    es := [];
    es, s := Then(es, s, OnWaiter(SetupDone));
    es, s := Then(es, s, OnLine(Frame(chunk)));
    es, s := Then(es, s, OnLine(Eof));
    es, s := Then(es, s, OnDown(NoticeEof));
    es, s := Then(es, s, OnLine(Frame(late)));
    es, s := Then(es, s, OnWaiter(Abort));
    es, s := Then(es, s, OnWaiter(KillDown));
    es, s := Then(es, s, OnWaiter(KillUp));
    es, s := Then(es, s, OnWaiter(Unregister));
  }

  /** A frame that does not open ends the stream without a TcpClose. */
  lemma FailedOpenSendsNoClose() returns (es: seq<Event>)
    ensures Exec(OPENED, es).Some? && Exec(OPENED, es).value.waiter.stage.Finished?
    ensures Exec(OPENED, es).value.up.closes == 0
  {
    var s := OPENED;
    es := [];
    es, s := Then(es, s, OnWaiter(SetupDone));
    es, s := Then(es, s, OnLine(Frame(Chunk(None))));
    es, s := Then(es, s, OnDown(Receive));
    es, s := Then(es, s, OnDown(Shutdown));
    es, s := Then(es, s, OnWaiter(JoinFirst));
    es, s := Then(es, s, OnWaiter(KillUp));
    es, s := Then(es, s, OnWaiter(Unregister));
  }

  /** A TcpClose, a stall and a frame for a closed channel each take the entry out: the waiting task can leave. */
  lemma LosingTheEntryAborts(s: State, e: LineEvent)
    requires s.line.registered && s.waiter.stage in {Running, Draining}
    requires e in {PeerClose, Stall} || (e.Frame? && s.line.rxClosed)
    ensures var t := Next(s, OnLine(e)); !t.line.registered && Enabled(t, OnWaiter(Abort))
    ensures var t := Next(Next(s, OnLine(e)), OnWaiter(Abort)); t.waiter.stage.Stopping? && t.waiter.aborted
  {
  }

  /** A drain that outlasts its ceiling is ended. */
  lemma CeilingEndsTheDrain(s: State)
    requires s.waiter.stage.Draining?
    ensures Enabled(s, OnWaiter(Ceiling))
    ensures var t := Next(s, OnWaiter(Ceiling)); t.waiter.stage.Stopping? && t.waiter.timedOut
  {
  }

  /** The frames that arrived, in order. */
  function Arrived(es: seq<Event>): seq<Chunk> {
    if es == [] then []
    else (match es[0] case OnLine(Frame(chunk)) => [chunk] case _ => []) + Arrived(es[1..])
  }

  /** The chunks the backend sent, in order. */
  function FromBackend(es: seq<Event>): seq<Bytes> {
    if es == [] then []
    else (match es[0] case OnUp(BackendData(bytes)) => [bytes] case _ => []) + FromBackend(es[1..])
  }

  /** While the entry is there and the channel open, every frame that arrives is accepted. */
  lemma {:induction false} ArrivedIsAccepted(s: State, es: seq<Event>)
    requires Exec(s, es).Some? && Exec(s, es).value.line.registered && !Exec(s, es).value.line.rxClosed
    ensures s.line.registered && !s.line.rxClosed
    ensures Exec(s, es).value.line.accepted == s.line.accepted + Arrived(es)
    decreases |es|
  {
    if es != [] {
      ArrivedIsAccepted(Next(s, es[0]), es[1..]);
    }
  }

  /** What the relay reads is what the backend sent. */
  lemma {:induction false} ReadIsSent(s: State, es: seq<Event>)
    requires Exec(s, es).Some?
    ensures Exec(s, es).value.up.read == s.up.read + FromBackend(es)
    decreases |es|
  {
    if es != [] {
      ReadIsSent(Next(s, es[0]), es[1..]);
    }
  }

  /** What can go wrong can go wrong at any time: the setup, a write, a send, or the backend closing. */
  lemma FailuresCanHappen(s: State)
    ensures s.waiter.stage.Setup? ==>
              && Enabled(s, OnWaiter(SetupFails))
              && var t := Next(s, OnWaiter(SetupFails));
                 t.waiter.stage.Refused? && !t.line.registered && t.up.closes == s.up.closes + 1
    ensures Relaying(s.waiter) && s.down.at.Writing? ==>
              Enabled(s, OnDown(WriteFails)) && Next(s, OnDown(WriteFails)).down.at.Ending?
    ensures Relaying(s.waiter) && s.up.at.Sending? ==>
              Enabled(s, OnUp(SendFails)) && Next(s, OnUp(SendFails)).up.at.UpEnding?
    ensures Relaying(s.waiter) && s.up.at.UpLooping? ==>
              Enabled(s, OnUp(BackendEnd)) && Next(s, OnUp(BackendEnd)).up.at.UpEnding?
  {
  }

  /** The channel is closed early only on an EOF heard of, or when the entry it would come by is gone. */
  lemma {:induction false} NoticedOnlyOnEof(s: State, es: seq<Event>)
    requires Exec(s, es).Some? && (s.waiter.stage.Setup? ==> !s.down.graceful)
    requires s.down.graceful ==> s.down.signal && (s.line.eof || !s.line.registered)
    ensures var t := Exec(s, es).value; t.down.graceful ==> t.down.signal && (t.line.eof || !t.line.registered)
    decreases |es|
  {
    if es != [] {
      NoticedOnlyOnEof(Next(s, es[0]), es[1..]);
    }
  }

  /** The tunnel-to-backend task ends by shutting its write side, or killed; its receiver goes with it. */
  lemma ReceiverGoes(s: State)
    ensures Relaying(s.waiter) && s.down.at.Ending? ==>
              var t := Next(s, OnDown(Shutdown)); t.down.at.Done? && t.line.rxClosed
    ensures s.waiter.stage.Stopping? && s.down.at !in {Done, Killed} ==>
              var t := Next(s, OnWaiter(KillDown)); t.down.at.Killed? && t.line.rxClosed
    ensures s.down.graceful ==> !DownEnabled(s.line, s.down, NoticeEof)
  {
  }

  /** The waiting task goes through its stages in order. */
  lemma StagesInOrder(s: State, e: Event)
    requires Enabled(s, e)
    ensures var from, to := s.waiter.stage, Next(s, e).waiter.stage;
            || from == to || (from.Setup? && to in {Running, Refused}) || (from.Running? && to in {Draining, Stopping})
            || (from.Draining? && to.Stopping?) || (from.Stopping? && to.Finished?)
    ensures e == OnWaiter(JoinSecond) ==> s.waiter.stage.Draining?
  {
  }

  /** Once stopping it can always finish, and leaves no entry. */
  lemma StoppingFinishes(s: State) returns (es: seq<Event>, t: State)
    requires s.waiter.stage.Stopping?
    ensures Exec(s, es) == Some(t) && t.waiter.stage.Finished? && !t.line.registered
  {
    var s1 := if s.down.at in {Done, Killed} then s else Next(s, OnWaiter(KillDown));
    var a := if s.down.at in {Done, Killed} then [] else [OnWaiter(KillDown)];
    var s2 := if s1.up.at in {UpDone, UpKilled} then s1 else Next(s1, OnWaiter(KillUp));
    var b := if s1.up.at in {UpDone, UpKilled} then [] else [OnWaiter(KillUp)];
    t := Next(s2, OnWaiter(Unregister));
    es := a + (b + [OnWaiter(Unregister)]);
    assert [OnWaiter(Unregister)][1..] == [];
    Prepend(s1, b, [OnWaiter(Unregister)], s2, t);
    Prepend(s, a, b + [OnWaiter(Unregister)], s1, t);
  }

  lemma Prepend(s: State, a: seq<Event>, b: seq<Event>, mid: State, end: State)
    requires (a == [] && mid == s) || (|a| == 1 && Enabled(s, a[0]) && mid == Next(s, a[0]))
    requires Exec(mid, b) == Some(end)
    ensures Exec(s, a + b) == Some(end)
  {
    if a == [] {
      assert a + b == b;
    } else {
      assert (a + b)[0] == a[0] && (a + b)[1..] == b;
    }
  }

  /** A drained stream whose backend has ended tells the far side, once, and finishes. */
  lemma DrainedFinishes(s: State) returns (es: seq<Event>, t: State)
    requires Inv(s) && s.waiter.stage.Draining? && s.up.at.UpEnding?
    ensures Exec(s, es) == Some(t) && t.waiter.stage.Finished? && t.up.closes == 1 && t.up.at.UpDone?
  {
    var s1 := Next(s, OnUp(SendTcpClose));
    var s2 := Next(s1, OnWaiter(JoinSecond));
    t := Next(s2, OnWaiter(Unregister));
    es := [OnUp(SendTcpClose), OnWaiter(JoinSecond), OnWaiter(Unregister)];
    assert es[1..] == [OnWaiter(JoinSecond), OnWaiter(Unregister)] && es[1..][1..] == [OnWaiter(Unregister)];
    assert es[1..][1..][1..] == [];
    assert Exec(s2, es[1..][1..]) == Exec(t, []);
    assert Exec(s1, es[1..]) == Exec(s2, es[1..][1..]);
  }
}
