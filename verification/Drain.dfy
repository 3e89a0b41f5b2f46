/**
 Closing a connection on purpose: Draining, a Ping behind it, the Pong that
 proves the server has read both, and the wait for what is in flight. Client
 and server are joined by two ordered channels.
 */
module Drain {
  import opened Common

  /** `own` marks the drain's own heartbeat and its answer; nothing in the code looks at it. */
  datatype ToServer = Draining | Ping(own: bool) | Response(id: nat) | Close

  datatype ToClient = Request(id: nat) | Pong(own: bool)

  /** Where the heartbeat task is. */
  datatype Phase =
    | Beating                    // not cancelled: heartbeats
    | Announced                  // Draining queued
    | Asked                      // the clock read, the drain's own Ping not queued yet
    | Waiting                    // its Ping queued: waiting for a later Pong
    | Counting                   // the wait is over: waiting for nothing in flight
    | Idle                       // nothing was in flight
    | Closed                     // Close queued

  datatype State = State(
    up: seq<ToServer>, down: seq<ToClient>,   // the two channels, oldest first
    drained: bool,                            // the server has read the Draining
    dispatched: set<nat>,                     // every request it ever dispatched here
    working: set<nat>, responded: set<nat>,   // received: still working, or responded with the guard still held
    finished: set<nat>,                       // received and finished: the guard dropped
    phase: Phase,
    clock: nat, lastPong: nat, asked: nat,
    onTime: bool,                             // neither wait was cut short by its deadline
    ownRead: bool, endedOnOwn: bool,          // the own Pong was read; it had been when the wait ended
    queued: seq<ToServer>)                    // every frame ever put on the up channel

  datatype Event =
    | Tick
    | Beat                     // a heartbeat is queued
    | Dispatch(id: nat)        // the server dispatches a request
    | ServerRead               // the server reads its next frame
    | ClientRead               // the dispatch loop reads its next frame
    | Respond(id: nat)         // a request task queues its response
    | Finish(id: nat)          // and drops its in-flight guard
    | Cancel                   // Draining is queued
    | ReadClock                // `asked`
    | SendPing
    | SeePong                  // `wait_for_pong_after` returns true
    | PongTimeout              // or gives up
    | SeeIdle                  // `drain_connection_inflight` reads zero
    | DrainTimeout             // or gives up
    | SendClose

  const INITIAL := State([], [], false, {}, {}, {}, {}, Beating, 0, 0, 0, true, false, false, [])

  predicate Enabled(s: State, e: Event) {
    match e
    case Tick => true
    case Beat => s.phase.Beating?
    case Dispatch(id) => !s.drained && id !in s.dispatched
    case ServerRead => s.up != []
    case ClientRead => s.down != []
    case Respond(id) => id in s.working
    case Finish(id) => id in s.responded
    case Cancel => s.phase.Beating?
    case ReadClock => s.phase.Announced?
    case SendPing => s.phase.Asked?
    case SeePong => s.phase.Waiting? && s.lastPong > s.asked
    case PongTimeout => s.phase.Waiting?
    case SeeIdle => s.phase.Counting? && s.working + s.responded == {}
    case DrainTimeout => s.phase.Counting?
    case SendClose => s.phase.Idle?
  }

  function ServerReads(s: State): State
    requires s.up != []
  {
    var rest := s.(up := s.up[1..]);
    match s.up[0]
    case Draining => rest.(drained := true)
    case Ping(own) => rest.(down := s.down + [Pong(own)])
    case Response(_) => rest
    case Close => rest
  }

  function ClientReads(s: State): State
    requires s.down != []
  {
    var rest := s.(down := s.down[1..]);
    match s.down[0]
    case Request(id) => rest.(working := s.working + {id})
    case Pong(own) => rest.(lastPong := s.clock, ownRead := s.ownRead || own)
  }

  function Queue(s: State, m: ToServer): State {
    s.(up := s.up + [m], queued := s.queued + [m])
  }

  function Next(s: State, e: Event): State
    requires Enabled(s, e)
  {
    match e
    case Tick => s.(clock := s.clock + 1)
    case Beat => Queue(s, Ping(false))
    case Dispatch(id) => s.(dispatched := s.dispatched + {id}, down := s.down + [Request(id)])
    case ServerRead => ServerReads(s)
    case ClientRead => ClientReads(s)
    case Respond(id) => Queue(s, Response(id)).(working := s.working - {id}, responded := s.responded + {id})
    case Finish(id) => s.(responded := s.responded - {id}, finished := s.finished + {id})
    case Cancel => Queue(s, Draining).(phase := Announced)
    case ReadClock => s.(phase := Asked, asked := s.clock)
    case SendPing => Queue(s, Ping(true)).(phase := Waiting)
    case SeePong => s.(phase := Counting, endedOnOwn := s.ownRead)
    case PongTimeout => s.(phase := Counting, onTime := false)
    case SeeIdle => s.(phase := Idle)
    case DrainTimeout => s.(phase := Idle, onTime := false)
    case SendClose => Queue(s, Close).(phase := Closed)
  }

  /** A run, as far as its events are enabled. */
  function Exec(s: State, es: seq<Event>): Option<State>
    decreases |es|
  {
    if es == [] then Some(s)
    else if Enabled(s, es[0]) then Exec(Next(s, es[0]), es[1..])
    else None
  }

  lemma {:induction false} ExecSplit(s: State, a: seq<Event>, b: seq<Event>)
    requires Exec(s, a).Some?
    ensures Exec(s, a + b) == Exec(Exec(s, a).value, b)
    decreases |a|
  {
    if a == [] {
      assert a + b == b;
    } else {
      assert (a + b)[0] == a[0] && (a + b)[1..] == a[1..] + b;
      ExecSplit(Next(s, a[0]), a[1..], b);
    }
  }

  lemma {:induction false} ExecPrefix(s: State, a: seq<Event>, b: seq<Event>)
    requires Exec(s, a + b).Some?
    ensures Exec(s, a).Some?
    decreases |a|
  {
    if a != [] {
      assert (a + b)[0] == a[0] && (a + b)[1..] == a[1..] + b;
      ExecPrefix(Next(s, a[0]), a[1..], b);
    }
  }

  lemma ExecOne(s: State, e: Event)
    requires Enabled(s, e)
    ensures Exec(s, [e]) == Some(Next(s, e))
  {
    assert [e][1..] == [];
  }

  // ---- What always holds --------------------------------------------------------------

  ghost predicate InTransit(down: seq<ToClient>, id: nat) {
    exists k :: 0 <= k < |down| && down[k] == Request(id)
  }

  function Received(s: State): set<nat> {
    s.working + s.responded + s.finished
  }

  /** No request is on the wire twice. */
  ghost predicate Once(down: seq<ToClient>) {
    forall j, k :: 0 <= j < k < |down| && down[j].Request? && down[k].Request? ==> down[j].id != down[k].id
  }

  /** Every dispatched request is in exactly one place; its response precedes its end. */
  ghost predicate Placed(down: seq<ToClient>, queued: seq<ToServer>, dispatched: set<nat>,
                         working: set<nat>, responded: set<nat>, finished: set<nat>)
  {
    var received := working + responded + finished;
    && working !! responded !! finished
    && (forall id :: id in dispatched <==> InTransit(down, id) || id in received)
    && (forall id :: InTransit(down, id) ==> id !in received)
    && Once(down)
    && (forall id :: id in responded + finished ==> Response(id) in queued)
  }

  /** The clock only grows, and the Draining is sent once, at the cancel. */
  ghost predicate Timed(s: State) {
    && s.lastPong <= s.clock && s.asked <= s.clock
    && (!s.phase.Beating? ==> s.drained || Draining in s.up)
    && (s.phase.Beating? ==> !s.drained && Draining !in s.up)
    && (!s.phase.Closed? ==> Close !in s.queued)
  }

  ghost predicate Sound(s: State) {
    Placed(s.down, s.queued, s.dispatched, s.working, s.responded, s.finished) && Timed(s)
  }

  lemma TransitAppend(down: seq<ToClient>, m: ToClient, id: nat)
    ensures InTransit(down + [m], id) <==> InTransit(down, id) || m == Request(id)
  {
    var t := down + [m];
    if k :| 0 <= k < |down| && down[k] == Request(id) {
      assert t[k] == down[k];
    }
    if m == Request(id) {
      assert t[|down|] == m;
    }
  }

  lemma TransitTail(down: seq<ToClient>, id: nat)
    requires down != []
    ensures InTransit(down, id) <==> InTransit(down[1..], id) || down[0] == Request(id)
    ensures Once(down) && down[0] == Request(id) ==> !InTransit(down[1..], id)
  {
    var t := down[1..];
    if k :| 0 <= k < |t| && t[k] == Request(id) {
      assert down[k + 1] == t[k];
    }
    if k :| 0 <= k < |down| && down[k] == Request(id) {
      assert k > 0 ==> t[k - 1] == down[k];
    }
  }

  lemma SoundDispatch(s: State, id: nat)
    requires Sound(s) && Enabled(s, Dispatch(id))
    ensures Sound(Next(s, Dispatch(id)))
  {
    forall x ensures InTransit(s.down + [Request(id)], x) <==> InTransit(s.down, x) || x == id {
      TransitAppend(s.down, Request(id), x);
    }
    forall k | 0 <= k < |s.down| && s.down[k].Request? ensures s.down[k].id != id {
      assert InTransit(s.down, s.down[k].id);
    }
  }

  /** A Pong on the wire moves no request. */
  lemma PlacedBehindPong(s: State, own: bool)
    requires Placed(s.down, s.queued, s.dispatched, s.working, s.responded, s.finished)
    ensures Placed(s.down + [Pong(own)], s.queued, s.dispatched, s.working, s.responded, s.finished)
  {
    forall id ensures InTransit(s.down + [Pong(own)], id) <==> InTransit(s.down, id) {
      TransitAppend(s.down, Pong(own), id);
    }
  }

  lemma SoundServerRead(s: State)
    requires Sound(s) && Enabled(s, ServerRead)
    ensures Sound(Next(s, ServerRead))
  {
    if s.up[0].Ping? {
      PlacedBehindPong(s, s.up[0].own);
    }
    assert s.up == [s.up[0]] + s.up[1..];
  }

  lemma SoundClientRead(s: State)
    requires Sound(s) && Enabled(s, ClientRead)
    ensures Sound(Next(s, ClientRead))
  {
    forall id ensures InTransit(s.down, id) <==> InTransit(s.down[1..], id) || s.down[0] == Request(id) {
      TransitTail(s.down, id);
    }
    if s.down[0].Request? {
      TransitTail(s.down, s.down[0].id);
    }
  }

  lemma SoundStep(s: State, e: Event)
    requires Sound(s) && Enabled(s, e)
    ensures Sound(Next(s, e))
  {
    match e {
      case Dispatch(id) => SoundDispatch(s, id);
      case ServerRead => SoundServerRead(s);
      case ClientRead => SoundClientRead(s);
      case Respond(id) => assert Response(id) in (s.queued + [Response(id)]);
      case Cancel => assert Draining in (s.up + [Draining]);
      case _ =>
    }
  }

  lemma {:induction false} SoundRun(s: State, es: seq<Event>)
    requires Sound(s) && Exec(s, es).Some?
    ensures Sound(Exec(s, es).value)
    decreases |es|
  {
    if es != [] {
      SoundStep(s, es[0]);
      SoundRun(Next(s, es[0]), es[1..]);
    }
  }

  /** Once the server has read the Draining it dispatches nothing more. */
  lemma {:induction false} DispatchStops(s: State, es: seq<Event>)
    requires s.drained && Exec(s, es).Some?
    ensures Exec(s, es).value.drained && Exec(s, es).value.dispatched == s.dispatched
    decreases |es|
  {
    if es != [] {
      DispatchStops(Next(s, es[0]), es[1..]);
    }
  }

  // ---- When the handshake is safe ---------------------------------------------------------

  // The argument is the same for every heartbeat and for the drain's own alone:
  // `every` says which Pings and Pongs are spoken of.

  /** Those Pings still on their way up are behind the Draining. */
  ghost predicate PingsBehind(s: State, every: bool) {
    forall k :: 0 <= k < |s.up| && s.up[k].Ping? && (every || s.up[k].own) ==> s.drained || Draining in s.up[..k]
  }

  /** Those Pongs on their way down were sent after the Draining was read, behind every request. */
  ghost predicate PongsBehind(s: State, every: bool) {
    forall k :: 0 <= k < |s.down| && s.down[k].Pong? && (every || s.down[k].own) ==>
      s.drained && forall j :: k < j < |s.down| ==> s.down[j].Pong?
  }

  /** No heartbeat older than the drain is still unanswered in a way that could mislead it. */
  ghost predicate Guarded(s: State) {
    PingsBehind(s, true) && PongsBehind(s, true)
  }

  predicate Heard(s: State, every: bool) {
    if every then s.lastPong > s.asked else s.ownRead
  }

  /** Having heard means that the server is drained and every request is here. */
  ghost predicate Conclusive(s: State, every: bool) {
    Heard(s, every) ==> s.drained && forall k :: 0 <= k < |s.down| ==> s.down[k].Pong?
  }

  predicate Committed(s: State) {
    !s.phase.Beating? && !s.phase.Announced?
  }

  /** The waits that ended on their condition still have it. */
  ghost predicate Waited(s: State, every: bool) {
    s.onTime && (every || s.endedOnOwn) ==>
      && (s.phase in {Counting, Idle, Closed} ==> Heard(s, every))
      && (s.phase in {Idle, Closed} ==> s.working + s.responded == {})
  }

  /** A Close queued once the waits have ended on their condition is the last frame there is. */
  ghost predicate CloseIsLast(s: State, every: bool) {
    s.phase.Closed? && s.onTime && (every || s.endedOnOwn) ==>
      s.queued != [] && s.queued[|s.queued| - 1] == Close && Close !in s.queued[..|s.queued| - 1]
  }

  ghost predicate Safe(s: State, every: bool) {
    && Sound(s) && (every ==> Committed(s)) && CloseIsLast(s, every)
    && PingsBehind(s, every) && PongsBehind(s, every) && Conclusive(s, every) && Waited(s, every)
  }

  /** Reading the first frame leaves every later Ping behind the Draining, or the Draining read. */
  lemma TailBehind(up: seq<ToServer>, k: nat)
    requires k + 1 < |up| && Draining in up[..k + 1]
    ensures up[0] == Draining || Draining in up[1..][..k]
  {
    assert up[..k + 1] == [up[0]] + up[1..][..k];
  }

  lemma PingsAfterRead(s: State, every: bool)
    requires PingsBehind(s, every) && s.up != []
    ensures PingsBehind(ServerReads(s), every)
    ensures s.up[0].Ping? && (every || s.up[0].own) ==> s.drained
  {
    var t := ServerReads(s);
    assert s.up[..0] == [];
    forall k | 0 <= k < |t.up| && t.up[k].Ping? && (every || t.up[k].own)
      ensures t.drained || Draining in t.up[..k]
    {
      assert s.up[k + 1] == t.up[k];
      if !s.drained {
        TailBehind(s.up, k);
      }
    }
  }

  lemma PongsAfterRead(s: State, every: bool)
    requires PongsBehind(s, every) && Conclusive(s, every) && s.up != []
    requires s.up[0].Ping? && (every || s.up[0].own) ==> s.drained
    ensures PongsBehind(ServerReads(s), every) && Conclusive(ServerReads(s), every)
  {
  }

  lemma SafeServerRead(s: State, every: bool)
    requires Safe(s, every) && Enabled(s, ServerRead)
    ensures Safe(Next(s, ServerRead), every)
  {
    SoundServerRead(s);
    PingsAfterRead(s, every);
    PongsAfterRead(s, every);
  }

  lemma SafeClientRead(s: State, every: bool)
    requires Safe(s, every) && Enabled(s, ClientRead)
    ensures Safe(Next(s, ClientRead), every)
  {
    SoundClientRead(s);
    var t := Next(s, ClientRead);
    assert forall k :: 0 <= k < |t.down| ==> t.down[k] == s.down[k + 1];
  }

  lemma SafeQueue(s: State, m: ToServer, every: bool)
    requires PingsBehind(s, every) && (m.Ping? && (every || m.own) ==> s.drained || Draining in s.up)
    ensures PingsBehind(Queue(s, m), every)
  {
    var up := s.up + [m];
    forall k | 0 <= k < |up| && up[k].Ping? && (every || up[k].own) ensures s.drained || Draining in up[..k] {
      assert k < |s.up| ==> up[..k] == s.up[..k];
      assert k == |s.up| ==> up[..k] == s.up;
    }
  }

  lemma SafeStep(s: State, e: Event, every: bool)
    requires Safe(s, every) && Enabled(s, e)
    ensures Safe(Next(s, e), every)
  {
    SoundStep(s, e);
    match e {
      case ServerRead => SafeServerRead(s, every);
      case ClientRead => SafeClientRead(s, every);
      case Beat => SafeQueue(s, Ping(false), every);
      case Cancel => SafeQueue(s, Draining, every);
      case Respond(id) => SafeQueue(s, Response(id), every);
      case SendPing => SafeQueue(s, Ping(true), every);
      case SendClose => SafeQueue(s, Close, every);
      case _ =>
    }
  }

  lemma {:induction false} SafeRun(s: State, es: seq<Event>, every: bool)
    requires Safe(s, every) && Exec(s, es).Some?
    ensures Safe(Exec(s, es).value, every)
    decreases |es|
  {
    if es != [] {
      SafeStep(s, es[0], every);
      SafeRun(Next(s, es[0]), es[1..], every);
    }
  }

  /**
   Everything dispatched has been received and finished; the Close is the last
   frame queued, and every response is ahead of it.
   */
  ghost predicate Complete(s: State) {
    && s.dispatched == s.finished
    && s.queued != [] && s.queued[|s.queued| - 1] == Close && Close !in s.queued[..|s.queued| - 1]
    && forall id :: id in s.dispatched ==> Response(id) in s.queued[..|s.queued| - 1]
  }

  /** In every continuation that closes on time, nothing the server dispatched is lost. */
  ghost predicate ClosesComplete(s: State) {
    forall es: seq<Event> :: Exec(s, es).Some? && Exec(s, es).value.phase.Closed? && Exec(s, es).value.onTime ==>
      Complete(Exec(s, es).value)
  }

  lemma ClosedIsComplete(s: State, every: bool)
    requires Safe(s, every) && s.phase.Closed? && s.onTime && (every || s.endedOnOwn)
    ensures Complete(s)
  {
    assert forall id :: !InTransit(s.down, id);
    assert Received(s) == s.finished;
    assert s.queued == s.queued[..|s.queued| - 1] + [Close];
  }

  /**
   The source's own argument, over every run: when the wait ended with the Pong
   to the drain's own Ping read, and both waits were on time, nothing the server
   ever dispatched is lost, whatever other heartbeats were about.
   */
  lemma OwnPongCloses(es: seq<Event>)
    requires Exec(INITIAL, es).Some?
    ensures var t := Exec(INITIAL, es).value; t.phase.Closed? && t.onTime && t.endedOnOwn ==> Complete(t)
  {
    assert Safe(INITIAL, false);
    SafeRun(INITIAL, es, false);
    var t := Exec(INITIAL, es).value;
    if t.phase.Closed? && t.onTime && t.endedOnOwn {
      ClosedIsComplete(t, false);
    }
  }

  /** With no misleading heartbeat about, any Pong that ends the wait will do. */
  lemma GuardedCloses(s: State)
    requires Sound(s) && s.phase.Asked? && s.asked == s.clock && Guarded(s)
    ensures ClosesComplete(s)
  {
    forall es: seq<Event> | Exec(s, es).Some? && Exec(s, es).value.phase.Closed? && Exec(s, es).value.onTime
      ensures Complete(Exec(s, es).value)
    {
      SafeRun(s, es, true);
      ClosedIsComplete(Exec(s, es).value, true);
    }
  }

  // ---- And when it is not ---------------------------------------------------------------------

  /** The server reads its next `n` frames, none of them the Draining. */
  lemma {:induction false} ServerReadsMany(s: State, n: nat) returns (es: seq<Event>, t: State)
    requires n <= |s.up| && Draining !in s.up[..n]
    ensures Exec(s, es) == Some(t) && t == s.(up := s.up[n..], down := t.down) && s.down <= t.down
    ensures n > 0 && s.up[n - 1].Ping? ==> t.down != [] && t.down[|t.down| - 1].Pong?
  {
    if n == 0 {
      es, t := [], s;
      assert s.up[0..] == s.up;
    } else {
      var es0, t0 := ServerReadsMany(s, n - 1) by {
        assert forall i :: 0 <= i < n - 1 ==> s.up[..n - 1][i] == s.up[..n][i];
      }
      assert t0.up[0] == s.up[n - 1] && s.up[n - 1] == s.up[..n][n - 1];
      es, t := es0 + [ServerRead], Next(t0, ServerRead);
      ExecOne(t0, ServerRead);
      ExecSplit(s, es0, [ServerRead]);
    }
  }

  lemma ClientReadMoves(s: State)
    requires s.down != []
    ensures var t := ClientReads(s);
            && t == s.(down := s.down[1..], working := t.working, lastPong := t.lastPong, ownRead := t.ownRead)
            && (s.down[0].Pong? ==> t.lastPong == s.clock)
  {
  }

  /** The client reads its next `n` frames. */
  lemma {:induction false} ClientReadsMany(s: State, n: nat) returns (es: seq<Event>, t: State)
    requires n <= |s.down|
    ensures Exec(s, es) == Some(t)
    ensures t == s.(down := s.down[n..], working := t.working, lastPong := t.lastPong, ownRead := t.ownRead)
    ensures n > 0 && s.down[n - 1].Pong? ==> t.lastPong == s.clock
  {
    if n == 0 {
      es, t := [], s;
      assert s.down[0..] == s.down;
    } else {
      var es0, t0 := ClientReadsMany(s, n - 1);
      assert t0.down[0] == s.down[n - 1] && t0.down[1..] == s.down[n..];
      ClientReadMoves(t0);
      es, t := Append(s, es0, t0, ClientRead);
    }
  }

  /** Every request received so far runs to its end. */
  lemma {:induction false} FinishAll(s: State) returns (es: seq<Event>, t: State)
    ensures Exec(s, es) == Some(t) && t.working == {} && t.responded == {}
    ensures t.down == s.down && t.phase == s.phase && t.onTime == s.onTime
    ensures t.lastPong == s.lastPong && t.asked == s.asked
    decreases |s.working|, |s.responded|
  {
    if id :| id in s.working {
      var s1 := Next(s, Respond(id));
      var rest, end := FinishAll(s1);
      es, t := [Respond(id)] + rest, end;
      ExecOne(s, Respond(id));
      ExecSplit(s, [Respond(id)], rest);
    } else if id :| id in s.responded {
      var s1 := Next(s, Finish(id));
      var rest, end := FinishAll(s1);
      es, t := [Finish(id)] + rest, end;
      ExecOne(s, Finish(id));
      ExecSplit(s, [Finish(id)], rest);
    } else {
      es, t := [], s;
    }
  }

  /** The run closes, on time, with a request still unfinished. */
  ghost predicate LosesOne(s: State, es: seq<Event>) {
    && Exec(s, es).Some?
    && var t := Exec(s, es).value; t.phase.Closed? && t.onTime && !(t.dispatched <= t.finished)
  }

  lemma Append(s: State, es: seq<Event>, t: State, e: Event) returns (es': seq<Event>, t': State)
    requires Exec(s, es) == Some(t) && Enabled(t, e)
    ensures t' == Next(t, e) && Exec(s, es') == Some(t')
  {
    es', t' := es + [e], Next(t, e);
    ExecOne(t, e);
    ExecSplit(s, es, [e]);
  }

  /** With the wait over, the client finishes what it has and closes, whatever is still on its way. */
  lemma CountAndClose(s: State) returns (es: seq<Event>, t: State)
    requires s.phase.Counting? && s.onTime
    ensures Exec(s, es) == Some(t) && t.phase.Closed? && t.onTime && t.down == s.down
  {
    es, t := FinishAll(s);
    es, t := Append(s, es, t, SeeIdle);
    es, t := Append(s, es, t, SendClose);
  }

  /** The client asks, reads up to a Pong that was already on its way, and takes it for the answer. */
  lemma TakeEarlyPong(s: State, k: nat) returns (es: seq<Event>, t: State)
    requires s.phase.Asked? && s.asked <= s.clock && s.onTime && k < |s.down| && s.down[k].Pong?
    ensures Exec(s, es) == Some(t) && t.phase.Counting? && t.onTime && t.down == s.down[k + 1..]
  {
    es, t := Append(s, [], s, Tick);
    es, t := Append(s, es, t, SendPing);
    var b, u := ClientReadsMany(t, k + 1);
    ExecSplit(s, es, b);
    es, t := Append(s, es + b, u, SeePong);
  }

  /** A Pong ahead of a request satisfies the wait too early. */
  lemma RequestBehindPong(s: State, k: nat, j: nat) returns (es: seq<Event>)
    requires Sound(s) && s.phase.Asked? && s.asked <= s.clock && s.onTime
    requires k < j < |s.down| && s.down[k].Pong? && s.down[j].Request?
    ensures LosesOne(s, es)
  {
    var a, t := TakeEarlyPong(s, k);
    var b, v := CountAndClose(t);
    ExecSplit(s, a, b);
    es := a + b;
    SoundRun(s, es);
    assert v.down[j - k - 1] == s.down[j];
    assert InTransit(v.down, s.down[j].id);
  }

  lemma {:induction false} BoundedBy(xs: set<nat>) returns (n: nat)
    ensures forall x :: x in xs ==> x < n
  {
    if x :| x in xs {
      var m := BoundedBy(xs - {x});
      n := if x < m then m else x + 1;
      assert forall y :: y in xs ==> y == x || y in xs - {x};
    } else {
      n := 0;
    }
  }

  /** A Pong on the wire while the server may still dispatch: let it dispatch one more. */
  lemma PongBeforeDraining(s: State, k: nat) returns (es: seq<Event>)
    requires Sound(s) && s.phase.Asked? && s.onTime
    requires k < |s.down| && s.down[k].Pong? && !s.drained
    ensures LosesOne(s, es)
  {
    var id := BoundedBy(s.dispatched);
    var a, t := Append(s, [], s, Dispatch(id));
    SoundStep(s, Dispatch(id));
    var b := RequestBehindPong(t, k, |s.down|);
    ExecSplit(s, a, b);
    es := a + b;
  }

  /** A heartbeat ahead of the Draining: let the server answer it first. */
  lemma PingBeforeDraining(s: State, k: nat) returns (es: seq<Event>)
    requires Sound(s) && s.phase.Asked? && s.onTime
    requires k < |s.up| && s.up[k].Ping? && !s.drained && Draining !in s.up[..k]
    ensures LosesOne(s, es)
  {
    assert s.up[..k + 1] == s.up[..k] + [s.up[k]];
    var a, t := ServerReadsMany(s, k + 1);
    SoundRun(s, a);
    var b := PongBeforeDraining(t, |t.down| - 1);
    ExecSplit(s, a, b);
    es := a + b;
  }

  lemma UnguardedLoses(s: State) returns (es: seq<Event>)
    requires Sound(s) && s.phase.Asked? && s.onTime && !Guarded(s)
    ensures LosesOne(s, es)
  {
    if !PingsBehind(s, true) {
      var k :| 0 <= k < |s.up| && s.up[k].Ping? && !(s.drained || Draining in s.up[..k]);
      es := PingBeforeDraining(s, k);
    } else {
      var k :| && 0 <= k < |s.down| && s.down[k].Pong?
               && !(s.drained && forall j :: k < j < |s.down| ==> s.down[j].Pong?);
      if !s.drained {
        es := PongBeforeDraining(s, k);
      } else {
        var j :| k < j < |s.down| && !s.down[j].Pong?;
        es := RequestBehindPong(s, k, j);
      }
    }
  }

  lemma {:induction false} OnTimeUntilWaits(s: State, es: seq<Event>)
    requires Exec(s, es).Some? && s.onTime && s.phase in {Beating, Announced, Asked}
    ensures Exec(s, es).value.phase in {Beating, Announced, Asked} ==> Exec(s, es).value.onTime
    decreases |es|
  {
    if es != [] && Next(s, es[0]).phase in {Beating, Announced, Asked} {
      OnTimeUntilWaits(Next(s, es[0]), es[1..]);
    } else if es != [] {
      PhaseStaysPast(Next(s, es[0]), es[1..]);
    }
  }

  lemma {:induction false} PhaseStaysPast(s: State, es: seq<Event>)
    requires Exec(s, es).Some? && s.phase !in {Beating, Announced, Asked}
    ensures Exec(s, es).value.phase !in {Beating, Announced, Asked}
    decreases |es|
  {
    if es != [] {
      PhaseStaysPast(Next(s, es[0]), es[1..]);
    }
  }

  /**
   From any reachable moment at which the drain reads the clock: every
   continuation that closes on time is complete if and only if no older
   heartbeat's answer can be mistaken for the drain's own.
   */
  lemma DrainIsSafeExactlyWhen(before: seq<Event>, s: State)
    requires Exec(INITIAL, before + [ReadClock]) == Some(s)
    ensures ClosesComplete(s) <==> Guarded(s)
  {
    assert Sound(INITIAL);
    ExecPrefix(INITIAL, before, [ReadClock]);
    ExecSplit(INITIAL, before, [ReadClock]);
    ExecOne(Exec(INITIAL, before).value, ReadClock) by {
      assert [ReadClock][0] == ReadClock;
    }
    SoundRun(INITIAL, before + [ReadClock]);
    OnTimeUntilWaits(INITIAL, before + [ReadClock]);
    if Guarded(s) {
      GuardedCloses(s);
    } else {
      var es := UnguardedLoses(s);
      assert !Complete(Exec(s, es).value);
    }
  }

  /** An old heartbeat is still unread when the drain reads the clock. */
  const AT_CLOCK := INITIAL.(phase := Asked, up := [Ping(false), Draining], queued := [Ping(false), Draining])

  /** The server has answered it, read the Draining, and answered the drain's own. */
  const ANSWERED := AT_CLOCK.(phase := Waiting, clock := 1, drained := true,
                              up := [], down := [Pong(false), Pong(true)],
                              queued := [Ping(false), Draining, Ping(true)])

  lemma ReachClock() returns (es: seq<Event>)
    ensures Exec(INITIAL, es) == Some(AT_CLOCK)
  {
    var t;
    es, t := Append(INITIAL, [], INITIAL, Beat);
    es, t := Append(INITIAL, es, t, Cancel);
    assert t.up == [Ping(false), Draining] && t.queued == t.up;
    es, t := Append(INITIAL, es, t, ReadClock);
  }

  lemma ReachAnswered() returns (es: seq<Event>)
    ensures Exec(AT_CLOCK, es) == Some(ANSWERED)
  {
    var t;
    es, t := Append(AT_CLOCK, [], AT_CLOCK, Tick);
    es, t := Append(AT_CLOCK, es, t, SendPing);
    assert t.up == [Ping(false), Draining, Ping(true)] && t.queued == t.up;
    es, t := Append(AT_CLOCK, es, t, ServerRead);
    es, t := Append(AT_CLOCK, es, t, ServerRead);
    es, t := Append(AT_CLOCK, es, t, ServerRead);
    assert t.up == [] && t.down == [Pong(false), Pong(true)];
  }

  lemma ReachClosed() returns (es: seq<Event>, t: State)
    ensures Exec(ANSWERED, es) == Some(t) && t.phase.Closed? && t.onTime && t.endedOnOwn
  {
    es, t := Append(ANSWERED, [], ANSWERED, ClientRead);
    es, t := Append(ANSWERED, es, t, ClientRead);
    es, t := Append(ANSWERED, es, t, SeePong);
    es, t := Append(ANSWERED, es, t, SeeIdle);
    es, t := Append(ANSWERED, es, t, SendClose);
  }

  /** A wait that ends on the drain's own Pong is not only a wait without older heartbeats. */
  lemma OwnPongBehindOldHeartbeat() returns (es: seq<Event>, more: seq<Event>)
    ensures Exec(INITIAL, es) == Some(AT_CLOCK) && !Guarded(AT_CLOCK)
    ensures Exec(AT_CLOCK, more).Some?
    ensures var t := Exec(AT_CLOCK, more).value; t.phase.Closed? && t.onTime && t.endedOnOwn
  {
    es := ReachClock();
    assert AT_CLOCK.up[0].Ping? && AT_CLOCK.up[..0] == [];
    var a := ReachAnswered();
    var b, t := ReachClosed();
    ExecSplit(AT_CLOCK, a, b);
    more := a + b;
  }

  /** The race the comment admits is reachable: one heartbeat still unread when the drain starts. */
  lemma OldHeartbeatBreaks() returns (es: seq<Event>)
    ensures LosesOne(INITIAL, es)
  {
    var a, t := Append(INITIAL, [], INITIAL, Beat);
    a, t := Append(INITIAL, a, t, Cancel);
    a, t := Append(INITIAL, a, t, ReadClock);
    assert Sound(INITIAL);
    SoundRun(INITIAL, a);
    var b := PingBeforeDraining(t, 0);
    ExecSplit(INITIAL, a, b);
    es := a + b;
  }

  /** Neither wait can hold the connection open past its deadline, and only the deadline makes it late. */
  lemma DeadlinesEndTheWaits(s: State)
    ensures s.phase.Waiting? ==>
              Enabled(s, PongTimeout) && Next(s, PongTimeout) == s.(phase := Counting, onTime := false)
    ensures s.phase.Counting? ==>
              Enabled(s, DrainTimeout) && Next(s, DrainTimeout) == s.(phase := Idle, onTime := false)
    ensures s.phase.Idle? ==> Enabled(s, SendClose) && Next(s, SendClose).phase.Closed?
    ensures forall e :: Enabled(s, e) && e != PongTimeout && e != DrainTimeout ==> Next(s, e).onTime == s.onTime
  {
  }
}
