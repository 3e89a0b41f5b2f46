/**
 Two relay ends joined by a middle that may drop, reorder, replay, reflect,
 alter and invent frames. Each end seals what it reads and writes what it can
 open, and stops at the first frame it cannot.
 */
module SealedRelay {
  import opened Common
  import opened E2e

  /** `sent` and `written` are the plaintext chunks, in order; the flags are the two loops. */
  datatype End = End(
    keys: Session,
    sealCounter: nat, sent: seq<Bytes>, sealing: bool,
    openCounter: nat, written: seq<Bytes>, opening: bool)

  /** One honest use of the AEAD. */
  datatype Record = Record(key: Key, nonce: Bytes, plain: Bytes, cipher: Bytes)

  datatype World = World(initiator: End, responder: End, log: seq<Record>)

  datatype Event =
    | Relay(from: Role, plain: Bytes)
    | Deliver(to: Role, frame: Bytes)

  function Get(w: World, r: Role): End {
    if r.Initiator? then w.initiator else w.responder
  }

  function With(w: World, r: Role, e: End): World {
    if r.Initiator? then w.(initiator := e) else w.(responder := e)
  }

  function Peer(r: Role): Role {
    if r.Initiator? then Responder else Initiator
  }

  /** The backend-to-tunnel loop reads one chunk. */
  function Sealing(c: Crypto, w: World, r: Role, plain: Bytes): World {
    var e := Get(w, r);
    if !e.sealing then w
    else
      var next := e.(sealCounter := NextCounter(e.sealCounter));
      match SealAt(c, e.keys.sendKey, e.sealCounter, plain)
      case None => With(w, r, next.(sealing := false))
      case Some(cipher) =>
        With(w, r, next.(sent := e.sent + [plain]))
        .(log := w.log + [Record(e.keys.sendKey, CounterNonce(e.sealCounter), plain, cipher)])
  }

  /** The tunnel-to-backend loop receives one frame, whatever it is. */
  function Opening(c: Crypto, w: World, r: Role, frame: Bytes): World {
    var e := Get(w, r);
    if !e.opening then w
    else
      var next := e.(openCounter := NextCounter(e.openCounter));
      match OpenAt(c, e.keys.recvKey, e.openCounter, frame)
      case None => With(w, r, next.(opening := false))
      case Some(plain) => With(w, r, next.(written := e.written + [plain]))
  }

  function Step(c: Crypto, w: World, e: Event): World {
    match e
    case Relay(r, plain) => Sealing(c, w, r, plain)
    case Deliver(r, frame) => Opening(c, w, r, frame)
  }

  function Run(c: Crypto, w: World, es: seq<Event>): World
    decreases |es|
  {
    if es == [] then w else Run(c, Step(c, w, es[0]), es[1..])
  }

  function Fresh(keys: Session): End {
    End(keys, 0, [], true, 0, [], true)
  }

  function Start(i: Session, r: Session): World {
    World(Fresh(i), Fresh(r), [])
  }

  /**
   Ciphertext integrity of the AEAD: a frame that opens under an end's receive
   key and its current nonce was sealed under that key and nonce by an honest
   end. It is all that is asked of the middle.
   */
  ghost predicate Unforged(c: Crypto, w: World, e: Event) {
    e.Deliver? ==>
      var end := Get(w, e.to);
      OpenAt(c, end.keys.recvKey, end.openCounter, e.frame).Some? ==>
        exists i :: 0 <= i < |w.log| && Sealed(w.log[i], end, e.frame)
  }

  ghost predicate Sealed(r: Record, end: End, frame: Bytes) {
    r.key == end.keys.recvKey && r.nonce == CounterNonce(end.openCounter) && r.cipher == frame
  }

  ghost predicate UnforgedRun(c: Crypto, w: World, es: seq<Event>)
    decreases |es|
  {
    es != [] ==> Unforged(c, w, es[0]) && UnforgedRun(c, Step(c, w, es[0]), es[1..])
  }

  // ---- What every step keeps ------------------------------------------------------------

  /** Counters and chunk lists move together while the loops run. */
  ghost predicate Counted(e: End) {
    && e.sealCounter < U64 && e.openCounter < U64
    && |e.sent| <= e.sealCounter && |e.written| <= e.openCounter
    && (e.sealing ==> e.sealCounter == |e.sent|)
    && (e.opening ==> e.openCounter == |e.written|)
  }

  /** The record is the `i`-th chunk that end `e` sealed. */
  ghost predicate IsChunk(c: Crypto, r: Record, e: End, i: nat) {
    && i < |e.sent| && r.key == e.keys.sendKey && r.nonce == CounterNonce(i) && r.plain == e.sent[i]
    && c.seal(r.key, r.nonce, r.plain) == Some(r.cipher)
  }

  ghost predicate Honest(c: Crypto, w: World, r: Record) {
    exists role, i :: IsChunk(c, r, Get(w, role), i)
  }

  /**
   What `to` has written is a prefix of what the end sealing under its receive
   key sent, and nothing when neither end seals under it.
   */
  ghost predicate WrittenFrom(to: End, a: End, b: End) {
    && (to.keys.recvKey == a.keys.sendKey ==> to.written <= a.sent)
    && (to.keys.recvKey == b.keys.sendKey ==> to.written <= b.sent)
    && (to.keys.recvKey != a.keys.sendKey && to.keys.recvKey != b.keys.sendKey ==> to.written == [])
  }

  ghost predicate AllWritten(w: World) {
    WrittenFrom(w.initiator, w.initiator, w.responder) && WrittenFrom(w.responder, w.initiator, w.responder)
  }

  ghost predicate NoncesOnce(log: seq<Record>) {
    forall i, j :: 0 <= i < j < |log| && log[i].key == log[j].key ==> log[i].nonce != log[j].nonce
  }

  ghost predicate AllHonest(c: Crypto, w: World) {
    forall i :: 0 <= i < |w.log| ==> Honest(c, w, w.log[i])
  }

  ghost predicate Inv(c: Crypto, w: World) {
    && Counted(w.initiator) && Counted(w.responder)
    && w.initiator.keys.sendKey != w.responder.keys.sendKey
    && AllHonest(c, w) && NoncesOnce(w.log)
    && AllWritten(w)
  }

  /** Nothing but more chunks sent, and perhaps a chunk written, between two states. */
  ghost predicate Extends(w: World, w': World, role: Role) {
    Get(w, role).sent <= Get(w', role).sent && Get(w, role).keys == Get(w', role).keys
  }

  /** More chunks sent at one end never unsettle what was true of the records. */
  lemma HonestStays(c: Crypto, w: World, w': World, r: Record)
    requires Honest(c, w, r) && Extends(w, w', Initiator) && Extends(w, w', Responder)
    ensures Honest(c, w', r)
  {
    var role, i :| IsChunk(c, r, Get(w, role), i);
    assert Extends(w, w', role);
    assert IsChunk(c, r, Get(w', role), i);
  }

  lemma WrittenStays(w: World, w': World)
    requires AllWritten(w) && Extends(w, w', Initiator) && Extends(w, w', Responder)
    requires w.initiator.written == w'.initiator.written && w.responder.written == w'.responder.written
    ensures AllWritten(w')
  {
  }

  /** The nonce an end is about to use is on no record of its key. */
  lemma NextNonceIsNew(c: Crypto, w: World, r: Role)
    requires Inv(c, w) && Get(w, r).sealing
    ensures forall i :: 0 <= i < |w.log| && w.log[i].key == Get(w, r).keys.sendKey ==>
              w.log[i].nonce != CounterNonce(Get(w, r).sealCounter)
  {
    var e := Get(w, r);
    forall i | 0 <= i < |w.log| && w.log[i].key == e.keys.sendKey
      ensures w.log[i].nonce != CounterNonce(e.sealCounter)
    {
      assert Honest(c, w, w.log[i]);
      var role, k :| IsChunk(c, w.log[i], Get(w, role), k);
      assert role == r;
      NoncesDiffer(k, e.sealCounter);
    }
  }

  lemma RelayKeepsLog(c: Crypto, w: World, r: Role, plain: Bytes)
    requires Inv(c, w)
    ensures AllHonest(c, Sealing(c, w, r, plain)) && NoncesOnce(Sealing(c, w, r, plain).log)
  {
    var e, w' := Get(w, r), Sealing(c, w, r, plain);
    assert Extends(w, w', Initiator) && Extends(w, w', Responder);
    forall i | 0 <= i < |w.log| ensures Honest(c, w', w.log[i]) {
      HonestStays(c, w, w', w.log[i]);
    }
    if |w'.log| > |w.log| {
      NextNonceIsNew(c, w, r);
      var last := w'.log[|w.log|];
      assert w'.log == w.log + [last];
      assert IsChunk(c, last, Get(w', r), |e.sent|);
      assert Honest(c, w', last);
    }
  }

  lemma RelayKeeps(c: Crypto, w: World, r: Role, plain: Bytes)
    requires Inv(c, w)
    ensures Inv(c, Sealing(c, w, r, plain))
  {
    RelayKeepsLog(c, w, r, plain);
    WrittenStays(w, Sealing(c, w, r, plain));
  }

  /** What opens at an end's n-th turn is the n-th chunk of the one end that could have sealed it. */
  lemma OpenedIsNextChunk(c: Crypto, w: World, to: Role, frame: Bytes) returns (from: Role)
    requires Opens(c) && Inv(c, w) && Unforged(c, w, Deliver(to, frame))
    requires Get(w, to).opening && OpenAt(c, Get(w, to).keys.recvKey, Get(w, to).openCounter, frame).Some?
    ensures Get(w, from).keys.sendKey == Get(w, to).keys.recvKey
    ensures var n := |Get(w, to).written|;
            n < |Get(w, from).sent| &&
            OpenAt(c, Get(w, to).keys.recvKey, Get(w, to).openCounter, frame) == Some(Get(w, from).sent[n])
  {
    var end := Get(w, to);
    var i :| 0 <= i < |w.log| && Sealed(w.log[i], end, frame);
    assert Honest(c, w, w.log[i]);
    var role, k :| IsChunk(c, w.log[i], Get(w, role), k);
    from := role;
    NoncesDiffer(k, end.openCounter);
  }

  lemma WrittenGrows(to: End, from: End, a: End, b: End, to': End)
    requires WrittenFrom(to, a, b) && a.keys.sendKey != b.keys.sendKey && from in {a, b}
    requires from.keys.sendKey == to.keys.recvKey && |to.written| < |from.sent|
    requires to'.keys == to.keys && to'.written == to.written + [from.sent[|to.written|]]
    ensures WrittenFrom(to', a, b)
  {
    assert to.written <= from.sent;
  }

  lemma DeliverKeepsWritten(c: Crypto, w: World, to: Role, frame: Bytes)
    requires Opens(c) && Inv(c, w) && Unforged(c, w, Deliver(to, frame))
    ensures AllWritten(Opening(c, w, to, frame))
  {
    var end, w' := Get(w, to), Opening(c, w, to, frame);
    if end.opening && OpenAt(c, end.keys.recvKey, end.openCounter, frame).Some? {
      var from := OpenedIsNextChunk(c, w, to, frame);
      WrittenGrows(end, Get(w, from), w.initiator, w.responder, Get(w', to));
    } else {
      WrittenStays(w, w');
    }
  }

  lemma DeliverKeeps(c: Crypto, w: World, to: Role, frame: Bytes)
    requires Opens(c) && Inv(c, w) && Unforged(c, w, Deliver(to, frame))
    ensures Inv(c, Opening(c, w, to, frame))
  {
    var w' := Opening(c, w, to, frame);
    assert Extends(w, w', Initiator) && Extends(w, w', Responder);
    forall i | 0 <= i < |w.log| ensures Honest(c, w', w.log[i]) {
      HonestStays(c, w, w', w.log[i]);
    }
    assert w'.log == w.log;
    DeliverKeepsWritten(c, w, to, frame);
  }

  lemma {:induction false} RunKeeps(c: Crypto, w: World, es: seq<Event>)
    requires Opens(c) && Inv(c, w) && UnforgedRun(c, w, es)
    ensures Inv(c, Run(c, w, es))
    decreases |es|
  {
    if es != [] {
      match es[0] {
        case Relay(r, plain) => RelayKeeps(c, w, r, plain);
        case Deliver(r, frame) => DeliverKeeps(c, w, r, frame);
      }
      RunKeeps(c, Step(c, w, es[0]), es[1..]);
    }
  }

  lemma {:induction false} KeysStay(c: Crypto, w: World, es: seq<Event>, r: Role)
    ensures Get(Run(c, w, es), r).keys == Get(w, r).keys
    decreases |es|
  {
    if es != [] {
      KeysStay(c, Step(c, w, es[0]), es[1..], r);
    }
  }

  // ---- The guarantees --------------------------------------------------------------------

  /**
   Whatever the middle does, the bytes each end writes are a prefix of the bytes
   the other end sealed, and no nonce is used twice under one key. The keys need
   not have crossed: an end whose receive key is nobody's writes nothing.
   */
  lemma WrittenIsPrefix(c: Crypto, i: Session, r: Session, es: seq<Event>)
    requires Opens(c) && UnforgedRun(c, Start(i, r), es)
    requires i.sendKey != r.sendKey && i.sendKey != i.recvKey && r.sendKey != r.recvKey
    ensures var w := Run(c, Start(i, r), es);
            && w.responder.written <= w.initiator.sent && w.initiator.written <= w.responder.sent
            && Flatten(w.responder.written) <= Flatten(w.initiator.sent)
            && Flatten(w.initiator.written) <= Flatten(w.responder.sent)
            && NoncesOnce(w.log)
  {
    var w0 := Start(i, r);
    RunKeeps(c, w0, es);
    KeysStay(c, w0, es, Initiator);
    KeysStay(c, w0, es, Responder);
    var w := Run(c, w0, es);
    FlattenPrefix(w.responder.written, w.initiator.sent);
    FlattenPrefix(w.initiator.written, w.responder.sent);
  }

  /**
   From the handshakes on, whatever frames the middle hands each end as the
   other's, and whatever pre-shared keys the two hold: the labels keep the
   directions apart, and that is enough.
   */
  lemma HandshakeThenPrefix(c: Crypto, a: Secret, b: Secret, pskI: Bytes, pskR: Bytes, toI: Bytes, toR: Bytes,
                            i: Session, r: Session, es: seq<Event>)
    requires Opens(c) && LabelsApart(c)
    requires Complete(c, Initiator, a, pskI, toI) == Some(i) && Complete(c, Responder, b, pskR, toR) == Some(r)
    requires UnforgedRun(c, Start(i, r), es)
    ensures var w := Run(c, Start(i, r), es);
            && Flatten(w.responder.written) <= Flatten(w.initiator.sent)
            && Flatten(w.initiator.written) <= Flatten(w.responder.sent)
            && NoncesOnce(w.log)
  {
    DirectionsApart(c, a, b, pskI, pskR, toI, toR);
    WrittenIsPrefix(c, i, r, es);
  }

  /** Ends whose keys do not match, as after a wrong pre-shared key, write nothing at all. */
  lemma MismatchWritesNothing(c: Crypto, i: Session, r: Session, es: seq<Event>)
    requires Opens(c) && UnforgedRun(c, Start(i, r), es) && i.sendKey != r.sendKey
    requires i.recvKey !in {i.sendKey, r.sendKey} && r.recvKey !in {i.sendKey, r.sendKey}
    ensures Run(c, Start(i, r), es).initiator.written == [] && Run(c, Start(i, r), es).responder.written == []
  {
    var w0 := Start(i, r);
    RunKeeps(c, w0, es);
    KeysStay(c, w0, es, Initiator);
    KeysStay(c, w0, es, Responder);
    var w := Run(c, w0, es);
  }

  /** And an honest middle gets through: the next frame in order is written as the next chunk. */
  lemma InOrderIsWritten(c: Crypto, w: World, to: Role, k: nat)
    requires Opens(c) && Inv(c, w) && Get(w, to).keys.recvKey == Get(w, Peer(to)).keys.sendKey
    requires Get(w, to).opening && k < |w.log|
    requires IsChunk(c, w.log[k], Get(w, Peer(to)), |Get(w, to).written|)
    ensures var after := Opening(c, w, to, w.log[k].cipher);
            && Get(after, to).opening
            && Get(after, to).written == Get(w, to).written + [Get(w, Peer(to)).sent[|Get(w, to).written|]]
  {
    var e, n := Get(w, to), |Get(w, to).written|;
    assert n < |Get(w, Peer(to)).sent| <= Get(w, Peer(to)).sealCounter < U64;
  }

  /** From the handshakes on: with different pre-shared keys nothing is ever written at either end. */
  lemma WrongPskWritesNothing(c: Crypto, a: Secret, b: Secret, pskI: Bytes, pskR: Bytes, toI: Bytes, toR: Bytes,
                              i: Session, r: Session, es: seq<Event>)
    requires Opens(c) && LabelsApart(c) && PsksApart(c, pskI, pskR)
    requires Complete(c, Initiator, a, pskI, toI) == Some(i) && Complete(c, Responder, b, pskR, toR) == Some(r)
    requires UnforgedRun(c, Start(i, r), es)
    ensures Run(c, Start(i, r), es).initiator.written == [] && Run(c, Start(i, r), es).responder.written == []
  {
    DirectionsApart(c, a, b, pskI, pskR, toI, toR);
    WrongPskMismatches(c, a, b, pskI, pskR, toI, toR);
    MismatchWritesNothing(c, i, r, es);
  }

  /** A chunk read is sealed and counted, and delivered in turn it is written at the other end. */
  lemma RelayedIsWritten(c: Crypto, w: World, from: Role, plain: Bytes)
    requires Opens(c) && Get(w, Peer(from)).keys.recvKey == Get(w, from).keys.sendKey
    requires Get(w, from).sealing && Get(w, Peer(from)).opening
    requires Get(w, from).sealCounter == Get(w, Peer(from)).openCounter < U64 - 1
    requires c.seal(Get(w, from).keys.sendKey, CounterNonce(Get(w, from).sealCounter), plain).Some?
    ensures var w1 := Step(c, w, Relay(from, plain));
            && |w1.log| == |w.log| + 1 && Get(w1, from).sent == Get(w, from).sent + [plain]
            && Get(w1, from).sealing && Get(w1, from).sealCounter == Get(w, from).sealCounter + 1
            && var w2 := Step(c, w1, Deliver(Peer(from), w1.log[|w.log|].cipher));
               && Get(w2, Peer(from)).written == Get(w, Peer(from)).written + [plain]
               && Get(w2, Peer(from)).opening && Get(w2, Peer(from)).openCounter == Get(w2, from).sealCounter
  {
    var e := Get(w, from);
    var cipher := c.seal(e.keys.sendKey, CounterNonce(e.sealCounter), plain).value;
    assert c.open(e.keys.sendKey, CounterNonce(e.sealCounter), cipher) == Some(plain);
    var w1 := Step(c, w, Relay(from, plain));
    assert w1.log[|w.log|].cipher == cipher && Get(w1, Peer(from)) == Get(w, Peer(from));
  }

  /** One frame that does not open ends that direction for good. */
  lemma {:induction false} FailedOpenStops(c: Crypto, w: World, to: Role, es: seq<Event>)
    requires !Get(w, to).opening
    ensures !Get(Run(c, w, es), to).opening && Get(Run(c, w, es), to).written == Get(w, to).written
    decreases |es|
  {
    if es != [] {
      FailedOpenStops(c, Step(c, w, es[0]), to, es[1..]);
    }
  }

  lemma FailedOpenIsNoticed(c: Crypto, w: World, to: Role, frame: Bytes)
    requires Get(w, to).opening && Get(w, to).openCounter < U64 - 1
    requires c.open(Get(w, to).keys.recvKey, CounterNonce(Get(w, to).openCounter), frame).None?
    ensures var t := Step(c, w, Deliver(to, frame));
            && !Get(t, to).opening && Get(t, to).written == Get(w, to).written
            && Get(t, to).openCounter == Get(w, to).openCounter + 1
  {
  }

  /** A chunk that cannot be sealed, as at the counter's end, ends the sending side. */
  lemma FailedSealStops(c: Crypto, w: World, from: Role, plain: Bytes)
    requires Get(w, from).sealing && SealAt(c, Get(w, from).keys.sendKey, Get(w, from).sealCounter, plain).None?
    ensures var t := Step(c, w, Relay(from, plain));
            !Get(t, from).sealing && Get(t, from).sent == Get(w, from).sent && t.log == w.log
    ensures var t := Step(c, w, Relay(from, plain)); forall more :: Step(c, t, Relay(from, more)) == t
  {
  }
}
