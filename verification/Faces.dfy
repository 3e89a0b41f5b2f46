/**
 The faces over the bus, as one machine: MQTT sessions, event streams, reloads
 and connections coming and going, in any order. Each handler is one step.
 */
module Faces {
  import opened Filters
  import opened Bus

  datatype Session = Session(mqtt: bool, live: bool, mine: seq<string>)

  /** `leaked` lists the holds of sessions whose face was stopped under them. */
  datatype World = World(bus: State, sessions: seq<Session>, leaked: seq<string>)

  datatype Event =
    | OpenMqtt
    | OpenStream(filter: string)
    | Subscribe(session: nat, paths: seq<string>)
    | Unsubscribe(session: nat, topics: seq<string>)
    | End(session: nat)
    | StopFace(session: nat)
    | Reconfigured(topics: seq<string>)
    | ConnectionUp(id: string)
    | ConnectionDown(id: string)

  predicate IsLive(w: World, i: nat) {
    i < |w.sessions| && w.sessions[i].live
  }

  function Ended(s: Session): Session {
    s.(live := false, mine := [])
  }

  /** One handler; an event for a session that is not there changes nothing. */
  function Step(w: World, e: Event): World {
    match e
    case OpenMqtt => w.(sessions := w.sessions + [Session(true, true, [])])
    case OpenStream(p) =>
      if ValidTopicFilter(p)
      then w.(bus := TakeHold(w.bus, p), sessions := w.sessions + [Session(false, true, [p])])
      else w
    case Subscribe(i, paths) =>
      if IsLive(w, i) && w.sessions[i].mqtt then
        var (bus, mine) := SubscribeAll(w.bus, w.sessions[i].mine, paths);
        w.(bus := bus, sessions := w.sessions[i := w.sessions[i].(mine := mine)])
      else w
    case Unsubscribe(i, topics) =>
      if IsLive(w, i) && w.sessions[i].mqtt then
        var (bus, mine) := UnsubscribeAll(w.bus, w.sessions[i].mine, topics);
        w.(bus := bus, sessions := w.sessions[i := w.sessions[i].(mine := mine)])
      else w
    case End(i) =>
      if IsLive(w, i)
      then w.(bus := DropAll(w.bus, w.sessions[i].mine), sessions := w.sessions[i := Ended(w.sessions[i])])
      else w
    case StopFace(i) =>
      if IsLive(w, i)
      then w.(sessions := w.sessions[i := Ended(w.sessions[i])], leaked := w.leaked + w.sessions[i].mine)
      else w
    case Reconfigured(topics) => w.(bus := Reconfigure(w.bus, topics))
    case ConnectionUp(id) => w.(bus := w.bus.(ws := Attached(w.bus.ws, id, w.bus.fs)))
    case ConnectionDown(id) => w.(bus := w.bus.(ws := Detached(w.bus.ws, id)))
  }

  function Run(w: World, es: seq<Event>): World
    decreases |es|
  {
    if es == [] then w else Run(Step(w, es[0]), es[1..])
  }

  function Start(patterns: seq<string>): World {
    World(State(Fresh(patterns), []), [], [])
  }

  // ---- Accounting ---------------------------------------------------------------

  /** How many sessions hold `p`. */
  function Holding(sessions: seq<Session>, p: string): nat {
    if sessions == [] then 0 else (if p in sessions[0].mine then 1 else 0) + Holding(sessions[1..], p)
  }

  function Occurrences(xs: seq<string>, p: string): nat {
    if xs == [] then 0 else (if xs[0] == p then 1 else 0) + Occurrences(xs[1..], p)
  }

  /** Every hold on the bus is a live session's or a leaked one, and no session holds twice. */
  ghost predicate Accounted(w: World) {
    && Valid(w.bus.fs)
    && (forall i :: 0 <= i < |w.sessions| ==> NoRepeats(w.sessions[i].mine))
    && (forall i :: 0 <= i < |w.sessions| && !w.sessions[i].live ==> w.sessions[i].mine == [])
    && (forall p :: Holds(w.bus.fs, p) == Holding(w.sessions, p) + Occurrences(w.leaked, p))
  }

  lemma {:induction false} HoldingAppend(sessions: seq<Session>, s: Session, p: string)
    ensures Holding(sessions + [s], p) == Holding(sessions, p) + (if p in s.mine then 1 else 0)
  {
    if sessions == [] {
      assert sessions + [s] == [s];
    } else {
      assert (sessions + [s])[1..] == sessions[1..] + [s];
      HoldingAppend(sessions[1..], s, p);
    }
  }

  lemma {:induction false} HoldingUpdate(sessions: seq<Session>, i: nat, s: Session, p: string)
    requires i < |sessions|
    ensures Holding(sessions[i := s], p)
         == Holding(sessions, p) - (if p in sessions[i].mine then 1 else 0) + (if p in s.mine then 1 else 0)
    ensures p in sessions[i].mine ==> Holding(sessions, p) >= 1
  {
    if i == 0 {
      assert sessions[i := s][1..] == sessions[1..];
    } else {
      assert sessions[i := s][1..] == sessions[1..][i - 1 := s];
      HoldingUpdate(sessions[1..], i - 1, s, p);
    }
  }

  lemma {:induction false} OccurrencesAppend(xs: seq<string>, ys: seq<string>, p: string)
    ensures Occurrences(xs + ys, p) == Occurrences(xs, p) + Occurrences(ys, p)
  {
    if xs == [] {
      assert xs + ys == ys;
    } else {
      assert (xs + ys)[1..] == xs[1..] + ys;
      OccurrencesAppend(xs[1..], ys, p);
    }
  }

  lemma {:induction false} OccurrencesOnce(xs: seq<string>, p: string)
    requires NoRepeats(xs)
    ensures Occurrences(xs, p) == if p in xs then 1 else 0
  {
    if xs != [] {
      OccurrencesOnce(xs[1..], p);
    }
  }

  lemma AccountedOpenStream(w: World, p: string)
    requires Accounted(w) && ValidTopicFilter(p)
    ensures Accounted(Step(w, OpenStream(p)))
  {
    HoldRefines(w.bus.fs, p);
    forall q
      ensures Holds(Hold(w.bus.fs, p), q) == Holding(Step(w, OpenStream(p)).sessions, q) + Occurrences(w.leaked, q)
    {
      HoldingAppend(w.sessions, Session(false, true, [p]), q);
    }
  }

  lemma AccountedSubscribe(w: World, i: nat, paths: seq<string>)
    requires Accounted(w) && IsLive(w, i) && w.sessions[i].mqtt
    ensures Accounted(Step(w, Subscribe(i, paths)))
  {
    var after := Step(w, Subscribe(i, paths));
    SubscribeAllCounts(w.bus, w.sessions[i].mine, paths, "");
    forall q ensures Holds(after.bus.fs, q) == Holding(after.sessions, q) + Occurrences(w.leaked, q) {
      SubscribeAllCounts(w.bus, w.sessions[i].mine, paths, q);
      HoldingUpdate(w.sessions, i, after.sessions[i], q);
    }
  }

  /** Session `i` keeps `kept` and gives the rest, `dropped`, back to the bus. */
  lemma AccountedDrop(w: World, i: nat, dropped: seq<string>, s: Session)
    requires Accounted(w) && IsLive(w, i) && NoRepeats(dropped) && NoRepeats(s.mine) && (s.live || s.mine == [])
    requires forall p :: p in w.sessions[i].mine <==> p in dropped || p in s.mine
    requires forall p :: p in dropped ==> p !in s.mine
    ensures Accounted(w.(bus := DropAll(w.bus, dropped), sessions := w.sessions[i := s]))
  {
    var bus, sessions := DropAll(w.bus, dropped), w.sessions[i := s];
    forall q | q in dropped ensures Holds(w.bus.fs, q) > 0 {
      HoldingUpdate(w.sessions, i, s, q);
    }
    DropAllCounts(w.bus, dropped, "");
    forall q ensures Holds(bus.fs, q) == Holding(sessions, q) + Occurrences(w.leaked, q) {
      DropAllCounts(w.bus, dropped, q);
      HoldingUpdate(w.sessions, i, s, q);
    }
  }

  lemma AccountedStop(w: World, i: nat)
    requires Accounted(w) && IsLive(w, i)
    ensures Accounted(Step(w, StopFace(i)))
  {
    var after := Step(w, StopFace(i));
    forall q ensures Holds(w.bus.fs, q) == Holding(after.sessions, q) + Occurrences(after.leaked, q) {
      HoldingUpdate(w.sessions, i, after.sessions[i], q);
      OccurrencesAppend(w.leaked, w.sessions[i].mine, q);
      OccurrencesOnce(w.sessions[i].mine, q);
    }
  }

  lemma AccountedStep(w: World, e: Event)
    requires Accounted(w)
    ensures Accounted(Step(w, e))
  {
    match e {
      case OpenMqtt =>
        forall q ensures Holding(Step(w, e).sessions, q) == Holding(w.sessions, q) {
          HoldingAppend(w.sessions, Session(true, true, []), q);
        }
      case OpenStream(p) =>
        if ValidTopicFilter(p) { AccountedOpenStream(w, p); }
      case Subscribe(i, paths) =>
        if IsLive(w, i) && w.sessions[i].mqtt { AccountedSubscribe(w, i, paths); }
      case Unsubscribe(i, topics) =>
        if IsLive(w, i) && w.sessions[i].mqtt {
          ChosenSplits(w.sessions[i].mine, topics, true);
          ChosenSplits(w.sessions[i].mine, topics, false);
          AccountedDrop(w, i, Chosen(w.sessions[i].mine, topics, true), Step(w, e).sessions[i]);
        }
      case End(i) =>
        if IsLive(w, i) { AccountedDrop(w, i, w.sessions[i].mine, Ended(w.sessions[i])); }
      case StopFace(i) =>
        if IsLive(w, i) { AccountedStop(w, i); }
      case Reconfigured(topics) =>
        ReloadRefines(w.bus.fs, topics);
      case ConnectionUp(_) =>
      case ConnectionDown(_) =>
    }
  }

  /** Over every run: the hold count of a pattern is its live holders plus its leaked ones. */
  lemma {:induction false} RunIsAccounted(w: World, es: seq<Event>)
    requires Accounted(w)
    ensures Accounted(Run(w, es))
    decreases |es|
  {
    if es != [] {
      AccountedStep(w, es[0]);
      RunIsAccounted(Step(w, es[0]), es[1..]);
    }
  }

  lemma StartIsAccounted(patterns: seq<string>)
    ensures Accounted(Start(patterns))
  {
    FreshRefines(patterns);
  }

  /** At some moment of the run a face was stopped under a live session that held `p`. */
  predicate StoppedUnder(w: World, es: seq<Event>, p: string)
    decreases |es|
  {
    if es == [] then false
    else
      || (es[0].StopFace? && IsLive(w, es[0].session) && p in w.sessions[es[0].session].mine)
      || StoppedUnder(Step(w, es[0]), es[1..], p)
  }

  lemma LeakedBy(w: World, e: Event, p: string)
    requires Accounted(w)
    ensures Occurrences(Step(w, e).leaked, p) == Occurrences(w.leaked, p)
         + (if e.StopFace? && IsLive(w, e.session) && p in w.sessions[e.session].mine then 1 else 0)
  {
    if e.StopFace? && IsLive(w, e.session) {
      OccurrencesAppend(w.leaked, w.sessions[e.session].mine, p);
      OccurrencesOnce(w.sessions[e.session].mine, p);
    }
  }

  /** A leak is never taken back, and comes from nothing else. */
  lemma {:induction false} LeaksExactlyBy(w: World, es: seq<Event>, p: string)
    requires Accounted(w)
    ensures Occurrences(Run(w, es).leaked, p) >= Occurrences(w.leaked, p)
    ensures Occurrences(Run(w, es).leaked, p) > Occurrences(w.leaked, p) <==> StoppedUnder(w, es, p)
    decreases |es|
  {
    if es != [] {
      AccountedStep(w, es[0]);
      LeakedBy(w, es[0], p);
      LeaksExactlyBy(Step(w, es[0]), es[1..], p);
    }
  }

  /**
   From a fresh bus: never too few holds, and for each pattern exactly its
   live holders if and only if no face was stopped under a session holding it.
   */
  lemma HoldsAreSessions(patterns: seq<string>, es: seq<Event>, p: string)
    ensures var w := Run(Start(patterns), es);
            && Holds(w.bus.fs, p) >= Holding(w.sessions, p)
            && (Holds(w.bus.fs, p) == Holding(w.sessions, p) <==> !StoppedUnder(Start(patterns), es, p))
  {
    StartIsAccounted(patterns);
    RunIsAccounted(Start(patterns), es);
    LeaksExactlyBy(Start(patterns), es, p);
  }

  /** The leak is real: a stopped stream's hold outlives it for good. */
  lemma StopLeaks()
    ensures var w := Run(Start([]), [OpenStream("a"), StopFace(0)]);
            Holds(w.bus.fs, "a") == 1 && Holding(w.sessions, "a") == 0
  {
    assert ValidTopicFilter("a") by {
      assert "a"[1..] == "" && Text.Split("", '/') == [""];
      assert Text.Split("a", '/') == [['a'] + ""] + [""][1..];
      assert ['a'] + "" == "a";
      assert Utf8.Encode("a") == Utf8.EncodeChar('a') + Utf8.Encode("");
    }
    var w := Start([]);
    var w1 := Step(w, OpenStream("a"));
    var w2 := Step(w1, StopFace(0));
    var es := [OpenStream("a"), StopFace(0)];
    assert es[1..] == [StopFace(0)] && es[1..][1..] == [];
    assert Run(w, es) == Run(w1, es[1..]) == Run(w2, es[1..][1..]) == w2;
    assert Hold([], "a") == [Filter("a", false, 1)];
  }

  predicate IsFor(e: Event, s: Session, i: nat) {
    e == End(i) || e == StopFace(i) || (s.mqtt && (e.Subscribe? || e.Unsubscribe?) && e.session == i)
  }

  /** What each event does to a session that is there. */
  lemma SessionAfter(w: World, e: Event, i: nat, p: string)
    requires i < |w.sessions|
    ensures var s, t := w.sessions[i], Step(w, e);
            && i < |t.sessions| && t.sessions[i].mqtt == s.mqtt
            && (t.sessions[i].live <==> s.live && e != End(i) && e != StopFace(i))
            && (s.live && (e == End(i) || e == StopFace(i)) ==> t.sessions[i].mine == [])
            && (s.live && s.mqtt && e.Subscribe? && e.session == i ==>
                  (p in t.sessions[i].mine <==> p in s.mine || (p in e.paths && ValidTopicFilter(p))))
            && (s.live && s.mqtt && e.Unsubscribe? && e.session == i ==>
                  (p in t.sessions[i].mine <==> p in s.mine && p !in e.topics))
            && (!(s.live && IsFor(e, s, i)) ==> t.sessions[i] == s)
  {
    if e.Subscribe? {
      SubscribedAre(w.bus, w.sessions[i].mine, e.paths, p);
    } else if e.Unsubscribe? {
      UnsubscribedAre(w.bus, w.sessions[i].mine, e.topics, p);
    }
  }

  /** And what is there afterwards: a session for each opening, a writer for each connection that is up. */
  lemma OpenedAfter(w: World, e: Event, id: string)
    ensures var t := Step(w, e);
            && (e == OpenMqtt ==> t.sessions == w.sessions + [Session(true, true, [])])
            && (e.OpenStream? && ValidTopicFilter(e.filter) ==>
                  t.sessions == w.sessions + [Session(false, true, [e.filter])])
            && (e.OpenStream? && !ValidTopicFilter(e.filter) ==> t == w)
            && (e == ConnectionUp(id) ==> exists x :: x in t.bus.ws && x.id == id)
            && (e == ConnectionDown(id) ==> forall x :: x in t.bus.ws ==> x.id != id)
  {
    if e == ConnectionUp(id) {
      assert Step(w, e).bus.ws[|Detached(w.bus.ws, id)|].id == id;
    } else if e == ConnectionDown(id) {
      DetachedAreAttached(w.bus.ws, id);
    }
  }
}
