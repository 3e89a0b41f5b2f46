/**
 Every schedule of the interleaved handlers: the server is in step once no
 handler is under way, exactly when no step went astray.
 */
module Schedules {
  import opened Common
  import opened Filters
  import opened Bus
  import opened Agreement
  import opened Interleaved

  // ---- Every schedule -----------------------------------------------------------------------------

  /** Some step of the run leads some filter astray on some connection. */
  ghost predicate StraysIn(s: Net, es: seq<Event>)
    requires Exec(s, es).Some?
    decreases |es|
  {
    es != [] && ((exists c, p :: Strays(s, es[0], c, p)) || StraysIn(Next(s, es[0]), es[1..]))
  }

  lemma StepOnCourse(s: Net, e: Event)
    requires Valid(s.fs) && Enabled(s, e) && OnCourse(s)
    ensures Valid(Next(s, e).fs)
    ensures OnCourse(Next(s, e)) <==> !exists c, p :: Strays(s, e, c, p)
  {
    forall c, p ensures Astray(Next(s, e), c, p) <==> Strays(s, e, c, p) {
      StepStraysExactly(s, e, c, p);
    }
    StepStraysExactly(s, e, 0, "");
  }

  lemma {:induction false} RunOnCourse(s: Net, es: seq<Event>)
    requires Valid(s.fs) && OnCourse(s) && Exec(s, es).Some? && !StraysIn(s, es)
    ensures Valid(Exec(s, es).value.fs) && OnCourse(Exec(s, es).value)
    decreases |es|
  {
    if es != [] {
      StepOnCourse(s, es[0]);
      RunOnCourse(Next(s, es[0]), es[1..]);
    }
  }

  lemma {:induction false} AstrayToTheEnd(s: Net, es: seq<Event>, c: nat, p: string)
    requires Astray(s, c, p) && Exec(s, es).Some? && forall i :: 0 <= i < |es| ==> UnderWay(es[i])
    ensures Astray(Exec(s, es).value, c, p)
    decreases |es|
  {
    if es != [] {
      AstrayStays(s, es[0], c, p);
      AstrayToTheEnd(Next(s, es[0]), es[1..], c, p);
    }
  }

  lemma NothingLeft(jobs: seq<Job>, c: nat, p: string, subscribe: bool)
    requires forall j :: 0 <= j < |jobs| ==> Idle(jobs[j])
    ensures !Pending(jobs, c, p, subscribe)
  {
  }

  /** With nothing under way, being in step is being on course. */
  lemma QuietIsAgreed(s: Net)
    requires Quiet(s)
    ensures Agreed(s) <==> OnCourse(s)
  {
    if OnCourse(s) {
      forall c | c in s.attached ensures Heard(s, c) == PatternSet(s.fs) {
        forall p ensures p in Heard(s, c) <==> p in PatternSet(s.fs) {
          NothingLeft(s.jobs, c, p, Wants(s, p));
          assert !Astray(s, c, p);
        }
      }
    }
  }

  /** Once a step has strayed, however the handlers under way finish or are stopped, the server is left wrong. */
  lemma {:induction false} FinishingAgreesExactlyWhen(s: Net, es: seq<Event>)
    requires Valid(s.fs) && OnCourse(s) && Exec(s, es).Some? && Quiet(Exec(s, es).value)
    requires forall i :: 0 <= i < |es| ==> UnderWay(es[i])
    ensures Agreed(Exec(s, es).value) <==> !StraysIn(s, es)
    decreases |es|
  {
    QuietIsAgreed(Exec(s, es).value);
    if es != [] {
      var t := Next(s, es[0]);
      StepOnCourse(s, es[0]);
      if OnCourse(t) {
        FinishingAgreesExactlyWhen(t, es[1..]);
      } else {
        var c, p :| Astray(t, c, p);
        AstrayToTheEnd(t, es[1..], c, p);
      }
    }
  }

  /**
   From a fresh bus, over every schedule: while no step strays, the server is
   in step whenever no handler is under way.
   */
  lemma AgreedWhenQuiet(patterns: seq<string>, es: seq<Event>)
    requires Exec(Start(patterns), es).Some? && !StraysIn(Start(patterns), es)
    ensures OnCourse(Exec(Start(patterns), es).value)
    ensures Quiet(Exec(Start(patterns), es).value) ==> Agreed(Exec(Start(patterns), es).value)
  {
    FreshRefines(patterns);
    RunOnCourse(Start(patterns), es);
    if Quiet(Exec(Start(patterns), es).value) {
      QuietIsAgreed(Exec(Start(patterns), es).value);
    }
  }

  /**
   And exactly: start any handlers with no step straying, then let those under
   way finish or be stopped. The server is in step at the end if and only if
   none of these steps strays.
   */
  lemma AgreedExactlyWhen(patterns: seq<string>, before: seq<Event>, mid: Net, after: seq<Event>, end: Net)
    requires Exec(Start(patterns), before) == Some(mid) && !StraysIn(Start(patterns), before)
    requires Exec(mid, after) == Some(end) && Quiet(end) && forall i :: 0 <= i < |after| ==> UnderWay(after[i])
    ensures Agreed(end) <==> !StraysIn(mid, after)
  {
    FreshRefines(patterns);
    RunOnCourse(Start(patterns), before);
    FinishingAgreesExactlyWhen(mid, after);
  }

  // ---- The schedules that stray are there ----------------------------------------------------------

  ghost predicate AllForward(es: seq<Event>) {
    forall i :: 0 <= i < |es| ==> Forward(es[i])
  }

  lemma {:induction false} ExecSplit(s: Net, a: seq<Event>, b: seq<Event>)
    requires Exec(s, a).Some?
    ensures Exec(s, a + b) == Exec(Exec(s, a).value, b)
    decreases |a|
  {
    if a == [] {
      assert a + b == b;
    } else {
      assert (a + b)[0] == a[0] && (a + b)[1..] == a[1..] + b;
      ExecSplit(Next(s, a[0]), a[1..], b);
    }
  }

  lemma Front(s: Net, e: Event, es: seq<Event>)
    requires Enabled(s, e)
    ensures Exec(s, [e] + es) == Exec(Next(s, e), es)
  {
    assert ([e] + es)[1..] == es;
  }

  /** The next step of a handler. */
  function Onward(job: Job, j: nat): Event {
    if job.Telling? then CopyWriters(j)
    else if job.Sending? && job.topic.None? then ReadFilters(j)
    else SendFrame(j)
  }

  function Left(job: Job): nat {
    if job.Telling? then 0 else |job.left|
  }

  /** One handler can always go on to its end, and moves nothing but itself and what the server heard. */
  lemma {:induction false} FinishJob(s: Net, j: nat) returns (es: seq<Event>, t: Net)
    requires j < |s.jobs|
    ensures Exec(s, es) == Some(t) && AllForward(es) && t.fs == s.fs && t.attached == s.attached
    ensures |t.jobs| == |s.jobs| && Idle(t.jobs[j]) && t.jobs == s.jobs[j := t.jobs[j]]
    decreases s.jobs[j].Telling?, Left(s.jobs[j]), s.jobs[j].Sending?
  {
    if Idle(s.jobs[j]) {
      es, t := [], s;
    } else {
      var e := Onward(s.jobs[j], j);
      var rest;
      rest, t := FinishJob(Next(s, e), j);
      es := [e] + rest;
      Front(s, e, rest);
    }
  }

  /** So all of them can. */
  lemma {:induction false} FinishAll(s: Net, k: nat) returns (es: seq<Event>, t: Net)
    requires k <= |s.jobs| && forall j :: 0 <= j < k ==> Idle(s.jobs[j])
    ensures Exec(s, es) == Some(t) && AllForward(es) && t.fs == s.fs && t.attached == s.attached && Quiet(t)
    decreases |s.jobs| - k
  {
    if k == |s.jobs| {
      es, t := [], s;
    } else {
      var a, u := FinishJob(s, k);
      var b;
      b, t := FinishAll(u, k + 1);
      es := a + b;
      ExecSplit(s, a, b);
    }
  }

  /** From a state astray, letting every handler finish leaves the server wrong. */
  lemma EndsWrong(s: Net, c: nat, p: string) returns (es: seq<Event>, t: Net)
    requires Astray(s, c, p)
    ensures Exec(s, es) == Some(t) && Quiet(t) && !Agreed(t) && t.fs == s.fs && Astray(t, c, p)
  {
    es, t := FinishAll(s, 0);
    AstrayToTheEnd(s, es, c, p);
    QuietIsAgreed(t);
  }

  lemma GivenBackAndHeld(s: Net, p: string) returns (t: Net)
    requires Valid(s.fs) && |Release(s.fs, p)| < |s.fs|
    ensures Exec(s, [GivenBack(p), Held(p)]) == Some(t) && Wants(t, p) && t.attached == s.attached
    ensures t.jobs == s.jobs + [Telling(Some(p)), Telling(None)]
  {
    PatternSetOfRelease(s.fs, p);
    PatternSetOfHold(Release(s.fs, p), p);
    ReleaseRefines(s.fs, p);
    ListedIsWanted(Release(s.fs, p), p);
    t := Next(Next(s, GivenBack(p)), Held(p));
    TwoSteps(s, GivenBack(p), Held(p));
  }

  /** The last hold on `p` is given back and taken again; the new holder's Subscribes all go first. */
  lemma OvertakenUnsubscribe(s: Net, p: string) returns (es: seq<Event>, t: Net, c: nat)
    requires Valid(s.fs) && Quiet(s) && s.attached != [] && |Release(s.fs, p)| < |s.fs|
    ensures Exec(s, es) == Some(t) && Wants(t, p) && Astray(t, c, p)
  {
    var n := |s.jobs|;
    var s2 := GivenBackAndHeld(s, p);
    var a, s3 := FinishJob(s2, n + 1);
    c := s.attached[0];
    t := UnsubscribeFirst(s3, n, p);
    es := [GivenBack(p), Held(p)] + (a + [CopyWriters(n), SendFrame(n)]);
    ExecSplit(s, [GivenBack(p), Held(p)], a + [CopyWriters(n), SendFrame(n)]);
    ExecSplit(s2, a, [CopyWriters(n), SendFrame(n)]);
    NothingPending(t.jobs, s.jobs, Sending(Some(p), s.attached[1..]), s3.jobs[n + 1], c, p, true);
  }

  /** A handler that is to unsubscribe `p` copies the connections and tells the first. */
  lemma UnsubscribeFirst(s: Net, n: nat, p: string) returns (t: Net)
    requires n < |s.jobs| && s.jobs[n] == Telling(Some(p)) && s.attached != []
    ensures Exec(s, [CopyWriters(n), SendFrame(n)]) == Some(t) && t.fs == s.fs && t.attached == s.attached
    ensures t.jobs == s.jobs[n := Sending(Some(p), s.attached[1..])] && p !in Heard(t, s.attached[0])
  {
    t := Next(Next(s, CopyWriters(n)), SendFrame(n));
    TwoSteps(s, CopyWriters(n), SendFrame(n));
  }

  lemma TwoSteps(s: Net, e: Event, f: Event)
    requires Enabled(s, e) && Enabled(Next(s, e), f)
    ensures Exec(s, [e, f]) == Some(Next(Next(s, e), f))
  {
    assert [e, f] == [e] + [f] && [f] == [f] + [];
    Front(s, e, [f]);
    Front(Next(s, e), f, []);
  }

  lemma NothingPending(jobs: seq<Job>, idle: seq<Job>, x: Job, y: Job, c: nat, p: string, subscribe: bool)
    requires jobs == idle + [x, y] && (forall j :: 0 <= j < |idle| ==> Idle(idle[j]))
    requires !Will(x, c, p, subscribe) && !Will(y, c, p, subscribe)
    ensures !Pending(jobs, c, p, subscribe)
  {
    forall j | 0 <= j < |jobs| ensures !Will(jobs[j], c, p, subscribe) {
      assert j < |idle| ==> jobs[j] == idle[j];
    }
  }

  lemma GivenUpBehind(fs: seq<Filter>, p: string, q: string)
    requires Valid(fs) && |Release(fs, p)| < |fs| && q !in PatternSet(fs)
    ensures Position(fs, q).None? && p in PatternSet(Hold(fs, q))
    ensures var held := Hold(fs, q); |Release(held, p)| < |held| && p !in PatternSet(Release(held, p))
  {
    ListedIsWanted(fs, q);
    PatternSetIsWanted(fs);
    ReleaseRefines(fs, p);
    HoldRefines(fs, q);
    PatternSetOfHold(fs, q);
    var held := Hold(fs, q);
    ReleaseRefines(held, p);
    PatternSetOfRelease(held, p);
    PatternSetIsWanted(held);
    PatternSetIsWanted(Release(held, p));
  }

  /** A handler that starts for a new filter reads the filters for its first connection. */
  lemma ReadForNew(s: Net, q: string) returns (es: seq<Event>, t: Net)
    requires Valid(s.fs) && s.attached != [] && !Wants(s, q)
    ensures Exec(s, es) == Some(t) && t.fs == Hold(s.fs, q) && t.attached == s.attached
    ensures t.jobs == s.jobs + [Loaded(PatternSet(t.fs), s.attached)]
  {
    var n := |s.jobs|;
    ListedIsWanted(s.fs, q);
    PatternSetOfHold(s.fs, q);
    var s1 := Next(s, Held(q));
    assert s1.jobs == s.jobs + [Telling(None)];
    var s2 := Next(s1, CopyWriters(n));
    assert s2.jobs == s.jobs + [Sending(None, s.attached)];
    t := Next(s2, ReadFilters(n));
    es := [Held(q)] + [CopyWriters(n), ReadFilters(n)];
    Front(s, Held(q), [CopyWriters(n), ReadFilters(n)]);
    TwoSteps(s1, CopyWriters(n), ReadFilters(n));
  }

  /** And then `p` is given up. */
  lemma ReadThenGivenUp(s: Net, p: string, q: string) returns (es: seq<Event>, t: Net, topics: set<string>)
    requires Valid(s.fs) && s.attached != [] && |Release(s.fs, p)| < |s.fs| && !Wants(s, q)
    ensures Exec(s, es) == Some(t) && !Wants(t, p) && t.attached == s.attached
    ensures p in topics && t.jobs == s.jobs + [Loaded(topics, s.attached), Telling(Some(p))]
  {
    GivenUpBehind(s.fs, p, q);
    var a, s1 := ReadForNew(s, q);
    topics := PatternSet(s1.fs);
    t := Next(s1, GivenBack(p));
    es := a + [GivenBack(p)];
    ExecSplit(s, a, [GivenBack(p)]);
    Front(s1, GivenBack(p), []);
    assert [GivenBack(p)] + [] == [GivenBack(p)];
  }

  /** What it read is sent after the Unsubscribe. */
  lemma StaleSubscribe(s: Net, p: string, q: string) returns (es: seq<Event>, t: Net, c: nat)
    requires Valid(s.fs) && Quiet(s) && s.attached != [] && |Release(s.fs, p)| < |s.fs| && !Wants(s, q)
    ensures Exec(s, es) == Some(t) && !Wants(t, p) && Astray(t, c, p)
  {
    var n := |s.jobs|;
    var a, s1, topics := ReadThenGivenUp(s, p, q);
    var b, s2 := FinishJob(s1, n + 1);
    t, c := Next(s2, SendFrame(n)), s.attached[0];
    es := a + (b + [SendFrame(n)]);
    ExecSplit(s, a, b + [SendFrame(n)]);
    ExecSplit(s1, b, [SendFrame(n)]);
    Front(s2, SendFrame(n), []);
    assert [SendFrame(n)] + [] == [SendFrame(n)];
    NothingPending(t.jobs, s.jobs, Sending(None, s.attached[1..]), s2.jobs[n + 1], c, p, false);
  }

  /** Both start from states that are there: one hold, one connection, everything told. */
  lemma ReachInStep() returns (es: seq<Event>, s: Net)
    ensures Exec(Start([]), es) == Some(s) && Valid(s.fs) && Quiet(s) && s.attached != []
    ensures |Release(s.fs, "a")| < |s.fs| && !Wants(s, "b")
  {
    var s0 := Start([]);
    var s1 := Next(s0, Held("a"));
    var s2 := Next(s1, Attach);
    var rest;
    rest, s := FinishAll(s2, 0);
    es := [Held("a")] + ([Attach] + rest);
    Front(s0, Held("a"), [Attach] + rest);
    Front(s1, Attach, rest);
    assert s.fs == [Filter("a", false, 1)] && Patterns(s.fs) == ["a"];
  }

  /** A run from the start that ends with nothing under way and the process deaf to a filter it wants. */
  lemma WantedButUnsubscribed() returns (es: seq<Event>, t: Net, c: nat)
    ensures Exec(Start([]), es) == Some(t) && Quiet(t) && c in t.attached
    ensures Wants(t, "a") && "a" !in Heard(t, c)
  {
    var a, s := ReachInStep();
    var b, s1, d := OvertakenUnsubscribe(s, "a");
    var e, s2 := EndsWrong(s1, d, "a");
    es, t, c := a + (b + e), s2, d;
    ExecSplit(Start([]), a, b + e);
    ExecSplit(s, b, e);
  }

  /** And one that ends with the server still subscribed to a filter nobody wants. */
  lemma UnwantedButSubscribed() returns (es: seq<Event>, t: Net, c: nat)
    ensures Exec(Start([]), es) == Some(t) && Quiet(t) && c in t.attached
    ensures !Wants(t, "a") && "a" in Heard(t, c)
  {
    var a, s := ReachInStep();
    var b, s1, d := StaleSubscribe(s, "a", "b");
    var e, s2 := EndsWrong(s1, d, "a");
    es, t, c := a + (b + e), s2, d;
    ExecSplit(Start([]), a, b + e);
    ExecSplit(s, b, e);
  }

  /** A new holder's face is stopped before it has told anybody. */
  lemma StoppedBeforeTelling(s: Net, p: string, c: nat) returns (es: seq<Event>, t: Net)
    requires Valid(s.fs) && Quiet(s) && c in s.attached && !Wants(s, p) && p !in Heard(s, c)
    ensures Exec(s, es) == Some(t) && Valid(t.fs) && Quiet(t) && Wants(t, p) && Astray(t, c, p)
  {
    var n := |s.jobs|;
    ListedIsWanted(s.fs, p);
    PatternSetOfHold(s.fs, p);
    var s1 := Next(s, Held(p));
    t := Next(s1, Stopped(n));
    es := [Held(p), Stopped(n)];
    TwoSteps(s, Held(p), Stopped(n));
    NothingLeft(t.jobs, c, p, true);
  }

  /** From the start: one connection up with nothing to tell it, and the first holder's face stopped. */
  lemma StoppedAndDeaf() returns (es: seq<Event>, t: Net, c: nat)
    ensures Exec(Start([]), es) == Some(t) && Valid(t.fs) && Quiet(t) && c in t.attached
    ensures Wants(t, "a") && "a" !in Heard(t, c) && Astray(Next(t, Held("a")), c, "a")
  {
    var s0 := Start([]);
    assert s0.fs == [] && Patterns(s0.fs) == [] && PatternSet(s0.fs) == {};
    var s1 := Next(s0, Attach);
    var s2 := Next(s1, ReadFilters(0));
    TwoSteps(s0, Attach, ReadFilters(0));
    var b;
    c := 0;
    b, t := StoppedBeforeTelling(s2, "a", c);
    es := [Attach, ReadFilters(0)] + b;
    ExecSplit(s0, [Attach, ReadFilters(0)], b);
    LaterHoldersStayDeaf(t, c, "a");
  }
}
