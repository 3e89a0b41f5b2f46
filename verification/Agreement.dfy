/**
 Whether the server's filter set for each connection is the bus's own. It is,
 as long as every handler runs whole and the file is not reloaded.
 */
module Agreement {
  import opened Filters
  import opened Bus
  import opened Faces

  /** Every attached connection is subscribed to exactly what the bus wants. */
  ghost predicate Agrees(b: State) {
    forall i :: 0 <= i < |b.ws| ==> b.ws[i].subscribed == PatternSet(b.fs)
  }

  /** Every attached connection is subscribed to at least what the bus wants. */
  ghost predicate Covers(b: State) {
    forall i :: 0 <= i < |b.ws| ==> b.ws[i].subscribed >= PatternSet(b.fs)
  }

  lemma PatternSetIsWanted(fs: seq<Filter>)
    requires Valid(fs)
    ensures forall p :: p in PatternSet(fs) <==> Wanted(fs, p)
  {
    forall p ensures p in PatternSet(fs) <==> Wanted(fs, p) {
      ListedIsWanted(fs, p);
    }
  }

  lemma PatternSetOfHold(fs: seq<Filter>, p: string)
    requires Valid(fs)
    ensures Valid(Hold(fs, p)) && PatternSet(Hold(fs, p)) == PatternSet(fs) + {p}
    ensures Position(fs, p).Some? ==> p in PatternSet(fs)
  {
    HoldKeepsValid(fs, p);
    ListedIsWanted(fs, p);
    forall q ensures q in PatternSet(Hold(fs, p)) <==> q in PatternSet(fs) || q == p {
      HoldCounts(fs, p, q);
      ListedIsWanted(fs, q);
      ListedIsWanted(Hold(fs, p), q);
    }
  }

  lemma PatternSetOfReload(fs: seq<Filter>, topics: seq<string>)
    requires Valid(fs)
    ensures Valid(Reload(fs, topics))
    ensures forall p :: p in PatternSet(Reload(fs, topics)) <==> p in topics || Holds(fs, p) > 0
  {
    ReloadRefines(fs, topics);
    forall p ensures p in PatternSet(Reload(fs, topics)) <==> p in topics || Holds(fs, p) > 0 {
      ListedIsWanted(Reload(fs, topics), p);
    }
  }

  lemma PatternSetOfRelease(fs: seq<Filter>, p: string)
    requires Valid(fs)
    ensures Valid(Release(fs, p))
    ensures PatternSet(Release(fs, p)) == if |Release(fs, p)| < |fs| then PatternSet(fs) - {p} else PatternSet(fs)
  {
    ReleaseRefines(fs, p);
    PatternSetIsWanted(fs);
    PatternSetIsWanted(Release(fs, p));
  }

  /** A property of the bus that both kinds of handler keep, in either sense of agreement. */
  lemma HoldKeeps(b: State, p: string)
    requires Valid(b.fs)
    ensures Valid(TakeHold(b, p).fs)
    ensures Agrees(b) ==> Agrees(TakeHold(b, p))
    ensures Covers(b) ==> Covers(TakeHold(b, p))
  {
    PatternSetOfHold(b.fs, p);
  }

  lemma DropKeeps(b: State, p: string)
    requires Valid(b.fs)
    ensures Valid(DropHold(b, p).fs)
    ensures Agrees(b) ==> Agrees(DropHold(b, p))
    ensures Covers(b) ==> Covers(DropHold(b, p))
  {
    PatternSetOfRelease(b.fs, p);
  }

  lemma {:induction false} DropAllKeeps(b: State, ps: seq<string>)
    requires Valid(b.fs)
    ensures Valid(DropAll(b, ps).fs)
    ensures Agrees(b) ==> Agrees(DropAll(b, ps))
    ensures Covers(b) ==> Covers(DropAll(b, ps))
    decreases |ps|
  {
    if ps != [] {
      DropKeeps(b, ps[0]);
      DropAllKeeps(DropHold(b, ps[0]), ps[1..]);
    }
  }

  lemma {:induction false} SubscribeAllKeeps(b: State, mine: seq<string>, paths: seq<string>)
    requires Valid(b.fs)
    ensures Valid(SubscribeAll(b, mine, paths).0.fs)
    ensures Agrees(b) ==> Agrees(SubscribeAll(b, mine, paths).0)
    ensures Covers(b) ==> Covers(SubscribeAll(b, mine, paths).0)
    decreases |paths|
  {
    if paths != [] {
      if ValidTopicFilter(paths[0]) && paths[0] !in mine {
        HoldKeeps(b, paths[0]);
        SubscribeAllKeeps(TakeHold(b, paths[0]), mine + [paths[0]], paths[1..]);
      } else {
        SubscribeAllKeeps(b, mine, paths[1..]);
      }
    }
  }

  /**
   A reload that changes the file agrees exactly when it drops no pattern the
   process was subscribed to: the server is told what to add, never what to drop.
   */
  lemma ReloadAgreesWhen(b: State, topics: seq<string>)
    requires Valid(b.fs)
    ensures Covers(b) ==> Covers(Reconfigure(b, topics))
    ensures Agrees(b) && b.ws != [] ==>
              (Agrees(Reconfigure(b, topics)) <==> forall p :: Wanted(b.fs, p) ==> p in topics || Holds(b.fs, p) > 0)
  {
    PatternSetOfReload(b.fs, topics);
    var after := Reconfigure(b, topics);
    if Agrees(b) && b.ws != [] {
      PatternSetIsWanted(b.fs);
      assert after.ws[0].subscribed == b.ws[0].subscribed + PatternSet(after.fs);
      assert Agrees(after) <==> PatternSet(b.fs) <= PatternSet(after.fs);
    }
  }

  /** One connection more, told everything, or one fewer. */
  lemma ConnectionKeeps(b: State, id: string)
    ensures Agrees(b) ==> Agrees(b.(ws := Detached(b.ws, id))) && Agrees(b.(ws := Attached(b.ws, id, b.fs)))
    ensures Covers(b) ==> Covers(b.(ws := Detached(b.ws, id))) && Covers(b.(ws := Attached(b.ws, id, b.fs)))
  {
    DetachedAreAttached(b.ws, id);
    assert forall i :: 0 <= i < |Detached(b.ws, id)| ==> Detached(b.ws, id)[i] in b.ws;
  }

  lemma StepKeeps(w: World, e: Event)
    requires Valid(w.bus.fs)
    ensures Valid(Step(w, e).bus.fs)
    ensures Agrees(w.bus) && !e.Reconfigured? ==> Agrees(Step(w, e).bus)
    ensures Covers(w.bus) ==> Covers(Step(w, e).bus)
  {
    match e {
      case OpenMqtt =>
      case OpenStream(p) => HoldKeeps(w.bus, p);
      case Subscribe(i, paths) =>
        if IsLive(w, i) { SubscribeAllKeeps(w.bus, w.sessions[i].mine, paths); }
      case Unsubscribe(i, topics) =>
        if IsLive(w, i) { DropAllKeeps(w.bus, Chosen(w.sessions[i].mine, topics, true)); }
      case End(i) =>
        if IsLive(w, i) { DropAllKeeps(w.bus, w.sessions[i].mine); }
      case StopFace(_) =>
      case Reconfigured(topics) =>
        ReloadRefines(w.bus.fs, topics);
        ReloadAgreesWhen(w.bus, topics);
      case ConnectionUp(id) => ConnectionKeeps(w.bus, id);
      case ConnectionDown(id) => ConnectionKeeps(w.bus, id);
    }
  }

  /** Over every run of whole handlers: exact without a reload, and never deaf with one. */
  lemma {:induction false} RunKeeps(w: World, es: seq<Event>)
    requires Valid(w.bus.fs)
    ensures Covers(w.bus) ==> Covers(Run(w, es).bus)
    ensures Agrees(w.bus) && (forall i :: 0 <= i < |es| ==> !es[i].Reconfigured?) ==> Agrees(Run(w, es).bus)
    decreases |es|
  {
    if es != [] {
      StepKeeps(w, es[0]);
      RunKeeps(Step(w, es[0]), es[1..]);
    }
  }

  /** From a fresh bus. */
  lemma ServerAgrees(patterns: seq<string>, es: seq<Event>)
    ensures Covers(Run(Start(patterns), es).bus)
    ensures (forall i :: 0 <= i < |es| ==> !es[i].Reconfigured?) ==> Agrees(Run(Start(patterns), es).bus)
  {
    FreshRefines(patterns);
    RunKeeps(Start(patterns), es);
  }

  /** A reload that forgets a filter leaves the server subscribed to it. */
  lemma ReloadForgets()
    ensures var w := Run(Start(["a"]), [ConnectionUp("c"), Reconfigured([])]);
            w.bus.fs == [] && w.bus.ws == [Writer("c", {"a"})] && !Agrees(w.bus)
  {
    var w := Start(["a"]);
    var w1 := Step(w, ConnectionUp("c"));
    var w2 := Step(w1, Reconfigured([]));
    var es := [ConnectionUp("c"), Reconfigured([])];
    assert es[1..] == [Reconfigured([])] && es[1..][1..] == [];
    assert Run(w, es) == Run(w1, es[1..]) == Run(w2, es[1..][1..]) == w2;
    var fs := w.bus.fs;
    assert fs == [Filter("a", true, 0)] && Patterns(fs) == ["a"];
    assert PatternSet(fs) == {"a"};
    assert w1.bus.ws == [Writer("c", {"a"})];
    assert Configured(fs) == ["a"] + Configured(fs[1..]) && fs[1..] == [];
    assert Claims([], fs) == ([], fs) && Kept(fs) == [] + Kept(fs[1..]);
    assert Reload(fs, []) == [] && Patterns([]) == [] && PatternSet([]) == {};
    assert {"a"} + {} == {"a"};
    assert w2.bus.ws == [Writer("c", {"a"})];
    assert w2.bus.ws[0].subscribed == {"a"} != PatternSet([]);
  }
}
