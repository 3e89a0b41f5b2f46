/**
 The handlers that hold and release filters, taken apart: one event per lock
 section and per frame, any number of handlers and connections, in any order.
 A step goes astray when it leaves the server wrong about a filter and nothing
 still to be sent will put that right.
 */
module Interleaved {
  import opened Common
  import opened Filters
  import opened Bus
  import opened Agreement

  /** What a handler still has to send; `topic` is the filter to unsubscribe, None to subscribe to all. */
  datatype Job =
    | Telling(topic: Option<string>)                      // the list of connections not copied yet
    | Sending(topic: Option<string>, left: seq<nat>)      // copied: these are left
    | Loaded(topics: set<string>, left: seq<nat>)         // the filters read for the first of them

  /** Connections are numbered as they come up; `heard` is what the server holds for each. */
  datatype Net = Net(fs: seq<Filter>, heard: map<nat, set<string>>, made: nat, attached: seq<nat>, jobs: seq<Job>)

  datatype Event =
    | Held(pattern: string)          // the lock section of each of the three,
    | GivenBack(pattern: string)       // which starts a handler
    | Reloaded(topics: seq<string>)      // when there is something to tell
    | Attach
    | Detach(c: nat)
    | CopyWriters(j: nat)
    | ReadFilters(j: nat)
    | SendFrame(j: nat)
    | Stopped(j: nat)                      // the handler is dropped where it stands, as with its face

  predicate Enabled(s: Net, e: Event) {
    match e
    case CopyWriters(j) => j < |s.jobs| && s.jobs[j].Telling?
    case ReadFilters(j) => j < |s.jobs| && s.jobs[j].Sending? && s.jobs[j].topic.None? && s.jobs[j].left != []
    case SendFrame(j) =>
      j < |s.jobs| && !s.jobs[j].Telling? && s.jobs[j].left != [] && (s.jobs[j].Sending? ==> s.jobs[j].topic.Some?)
    case Stopped(j) => j < |s.jobs|
    case _ => true
  }

  function Heard(s: Net, c: nat): set<string> {
    if c in s.heard then s.heard[c] else {}
  }

  function Started(s: Net, fs: seq<Filter>, tells: bool, topic: Option<string>): Net {
    s.(fs := fs, jobs := if tells then s.jobs + [Telling(topic)] else s.jobs)
  }

  function Without(cs: seq<nat>, c: nat): seq<nat> {
    if cs == [] then [] else (if cs[0] == c then [] else [cs[0]]) + Without(cs[1..], c)
  }

  /** `subscribe_on` sends nothing for an empty list. */
  function Reading(job: Job, topics: set<string>): Job
    requires job.Sending? && job.left != []
  {
    if topics == {} then Sending(None, job.left[1..]) else Loaded(topics, job.left)
  }

  function Sent(s: Net, j: nat): Net
    requires Enabled(s, SendFrame(j))
  {
    var job := s.jobs[j];
    var c, rest := job.left[0], job.left[1..];
    if job.Loaded? then s.(heard := s.heard[c := Heard(s, c) + job.topics], jobs := s.jobs[j := Sending(None, rest)])
    else s.(heard := s.heard[c := Heard(s, c) - {job.topic.value}], jobs := s.jobs[j := Sending(job.topic, rest)])
  }

  function Next(s: Net, e: Event): Net
    requires Enabled(s, e)
  {
    match e
    case Held(p) => Started(s, Hold(s.fs, p), Position(s.fs, p).None?, None)
    case GivenBack(p) => Started(s, Release(s.fs, p), |Release(s.fs, p)| < |s.fs|, Some(p))
    case Reloaded(topics) => Started(s, Reload(s.fs, topics), Configured(s.fs) != topics, None)
    case Attach =>
      s.(heard := s.heard[s.made := {}], made := s.made + 1, attached := s.attached + [s.made],
         jobs := s.jobs + [Sending(None, [s.made])])
    case Detach(c) => s.(attached := Without(s.attached, c))
    case CopyWriters(j) => s.(jobs := s.jobs[j := Sending(s.jobs[j].topic, s.attached)])
    case ReadFilters(j) => s.(jobs := s.jobs[j := Reading(s.jobs[j], PatternSet(s.fs))])
    case SendFrame(j) => Sent(s, j)
    case Stopped(j) => s.(jobs := s.jobs[j := Sending(None, [])])
  }

  function Exec(s: Net, es: seq<Event>): Option<Net>
    decreases |es|
  {
    if es == [] then Some(s)
    else if Enabled(s, es[0]) then Exec(Next(s, es[0]), es[1..])
    else None
  }

  function Start(patterns: seq<string>): Net {
    Net(Fresh(patterns), map[], 0, [], [])
  }

  /** A step of a handler already under way. */
  predicate Forward(e: Event) {
    e.CopyWriters? || e.ReadFilters? || e.SendFrame?
  }

  /** The same, or its being stopped. */
  predicate UnderWay(e: Event) {
    Forward(e) || e.Stopped?
  }

  predicate Idle(job: Job) {
    !job.Telling? && job.left == []
  }

  /** No handler is under way. */
  predicate Quiet(s: Net) {
    forall j :: 0 <= j < |s.jobs| ==> Idle(s.jobs[j])
  }

  /** Every attached connection is subscribed to exactly what the bus wants. */
  ghost predicate Agreed(s: Net) {
    forall c :: c in s.attached ==> Heard(s, c) == PatternSet(s.fs)
  }

  // ---- What is still to be sent -----------------------------------------------------------

  /** This handler will still subscribe `c` to `p`, `p` being wanted. */
  predicate Subscribes(job: Job, c: nat, p: string) {
    match job
    case Telling(topic) => topic.None?
    case Sending(topic, left) => topic.None? && c in left
    case Loaded(topics, left) => left != [] && ((left[0] == c && p in topics) || c in left[1..])
  }

  /** This handler will still unsubscribe `c` from `p`. */
  predicate Unsubscribes(job: Job, c: nat, p: string) {
    match job
    case Telling(topic) => topic == Some(p)
    case Sending(topic, left) => topic == Some(p) && c in left
    case Loaded(_, _) => false
  }

  predicate Will(job: Job, c: nat, p: string, subscribe: bool) {
    if subscribe then Subscribes(job, c, p) else Unsubscribes(job, c, p)
  }

  ghost predicate Pending(jobs: seq<Job>, c: nat, p: string, subscribe: bool) {
    exists j :: 0 <= j < |jobs| && Will(jobs[j], c, p, subscribe)
  }

  predicate Wants(s: Net, p: string) {
    p in PatternSet(s.fs)
  }

  /** The server is wrong about `p` on `c`, and nothing still to be sent will put it right. */
  ghost predicate Astray(s: Net, c: nat, p: string) {
    c in s.attached && Wants(s, p) != (p in Heard(s, c)) && !Pending(s.jobs, c, p, Wants(s, p))
  }

  ghost predicate OnCourse(s: Net) {
    forall c, p :: !Astray(s, c, p)
  }

  /**
   The steps that lead astray: an Unsubscribe for a filter that is wanted
   again, with no Subscribe for it still to come on that connection; a
   Subscribe read before a filter was given up, with no Unsubscribe still to
   come; a reload that drops a filter the server was told about; and the
   stopping of the one handler that was still to put the server right.
   */
  ghost predicate Strays(s: Net, e: Event, c: nat, p: string)
    requires Enabled(s, e)
  {
    c in s.attached &&
    match e
    case SendFrame(j) =>
      var job := s.jobs[j];
      job.left[0] == c &&
      if job.Loaded? then p in job.topics && !Wants(s, p) && !Pending(s.jobs, c, p, false)
      else job.topic == Some(p) && Wants(s, p) && !Pending(s.jobs, c, p, true)
    case Reloaded(topics) =>
      Wants(s, p) && p !in topics && Holds(s.fs, p) == 0 && p in Heard(s, c) && !Pending(s.jobs, c, p, false)
    case Stopped(j) =>
      && Wants(s, p) != (p in Heard(s, c)) && Will(s.jobs[j], c, p, Wants(s, p))
      && !Others(s.jobs, j, c, p, Wants(s, p))
    case _ => false
  }

  // ---- One step ---------------------------------------------------------------------------------

  lemma PendingAppend(jobs: seq<Job>, x: Job, c: nat, p: string, subscribe: bool)
    ensures Pending(jobs + [x], c, p, subscribe) <==> Pending(jobs, c, p, subscribe) || Will(x, c, p, subscribe)
  {
    var after := jobs + [x];
    if j :| 0 <= j < |jobs| && Will(jobs[j], c, p, subscribe) {
      assert after[j] == jobs[j];
    }
    if Will(x, c, p, subscribe) {
      assert after[|jobs|] == x;
    }
  }

  ghost predicate Others(jobs: seq<Job>, j: nat, c: nat, p: string, subscribe: bool) {
    exists i :: 0 <= i < |jobs| && i != j && Will(jobs[i], c, p, subscribe)
  }

  lemma PendingUpdate(jobs: seq<Job>, j: nat, x: Job, c: nat, p: string, subscribe: bool)
    requires j < |jobs|
    ensures Pending(jobs, c, p, subscribe) <==> Will(jobs[j], c, p, subscribe) || Others(jobs, j, c, p, subscribe)
    ensures Pending(jobs[j := x], c, p, subscribe) <==> Will(x, c, p, subscribe) || Others(jobs, j, c, p, subscribe)
  {
    var after := jobs[j := x];
    if i :| 0 <= i < |jobs| && i != j && Will(jobs[i], c, p, subscribe) {
      assert after[i] == jobs[i];
    }
    if Will(x, c, p, subscribe) {
      assert after[j] == x;
    }
  }

  /** A lock section on the filters: what becomes wanted is told, and so is what a release gives up. */
  lemma StartedStrays(s: Net, fs: seq<Filter>, tells: bool, topic: Option<string>, c: nat, p: string)
    requires !Astray(s, c, p)
    requires p in PatternSet(fs) && !Wants(s, p) ==> tells && topic.None?
    ensures Astray(Started(s, fs, tells, topic), c, p)
       <==> && c in s.attached && Wants(s, p) && p !in PatternSet(fs) && p in Heard(s, c)
            && !Pending(s.jobs, c, p, false) && !(tells && topic == Some(p))
  {
    var t := Started(s, fs, tells, topic);
    PendingAppend(s.jobs, Telling(topic), c, p, true);
    PendingAppend(s.jobs, Telling(topic), c, p, false);
  }

  lemma {:induction false} WithoutIs(cs: seq<nat>, c: nat)
    ensures forall d :: d in Without(cs, c) <==> d in cs && d != c
  {
    if cs != [] {
      WithoutIs(cs[1..], c);
    }
  }

  lemma CopyKeeps(s: Net, j: nat, c: nat, p: string, subscribe: bool)
    requires Enabled(s, CopyWriters(j)) && c in s.attached
    ensures Pending(Next(s, CopyWriters(j)).jobs, c, p, subscribe) <==> Pending(s.jobs, c, p, subscribe)
  {
    PendingUpdate(s.jobs, j, Sending(s.jobs[j].topic, s.attached), c, p, subscribe);
  }

  lemma ReadKeeps(s: Net, j: nat, c: nat, p: string)
    requires Enabled(s, ReadFilters(j))
    ensures Pending(Next(s, ReadFilters(j)).jobs, c, p, Wants(s, p)) <==> Pending(s.jobs, c, p, Wants(s, p))
  {
    var job := s.jobs[j];
    assert c in job.left <==> c == job.left[0] || c in job.left[1..];
    PendingUpdate(s.jobs, j, Reading(job, PatternSet(s.fs)), c, p, Wants(s, p));
  }

  lemma SendStep(s: Net, j: nat, c: nat, p: string)
    requires Enabled(s, SendFrame(j))
    ensures !Astray(s, c, p) ==> (Astray(Sent(s, j), c, p) <==> Strays(s, SendFrame(j), c, p))
    ensures Astray(s, c, p) ==> Astray(Sent(s, j), c, p)
  {
    var job := s.jobs[j];
    var rest := job.left[1..];
    assert c in job.left <==> c == job.left[0] || c in rest;
    var x := Sending(if job.Loaded? then None else job.topic, rest);
    PendingUpdate(s.jobs, j, x, c, p, true);
    PendingUpdate(s.jobs, j, x, c, p, false);
  }

  /** A pair that is in order goes astray in a step exactly when the step is one of those named. */
  lemma StepStraysExactly(s: Net, e: Event, c: nat, p: string)
    requires Valid(s.fs) && Enabled(s, e) && !Astray(s, c, p)
    ensures Valid(Next(s, e).fs)
    ensures Astray(Next(s, e), c, p) <==> Strays(s, e, c, p)
  {
    match e {
      case Held(q) =>
        PatternSetOfHold(s.fs, q);
        StartedStrays(s, Hold(s.fs, q), Position(s.fs, q).None?, None, c, p);
      case GivenBack(q) =>
        PatternSetOfRelease(s.fs, q);
        StartedStrays(s, Release(s.fs, q), |Release(s.fs, q)| < |s.fs|, Some(q), c, p);
      case Reloaded(topics) =>
        PatternSetOfReload(s.fs, topics);
        StartedStrays(s, Reload(s.fs, topics), Configured(s.fs) != topics, None, c, p);
      case Attach =>
        PendingAppend(s.jobs, Sending(None, [s.made]), c, p, Wants(s, p));
      case Detach(d) =>
        WithoutIs(s.attached, d);
      case CopyWriters(j) =>
        if c in s.attached {
          CopyKeeps(s, j, c, p, Wants(s, p));
        }
      case ReadFilters(j) =>
        ReadKeeps(s, j, c, p);
      case SendFrame(j) =>
        SendStep(s, j, c, p);
      case Stopped(j) =>
        PendingUpdate(s.jobs, j, Sending(None, []), c, p, Wants(s, p));
    }
  }

  /** And what has gone astray stays so while the handlers under way go on or are stopped. */
  lemma AstrayStays(s: Net, e: Event, c: nat, p: string)
    requires Enabled(s, e) && UnderWay(e) && Astray(s, c, p)
    ensures Astray(Next(s, e), c, p)
  {
    match e {
      case CopyWriters(j) => CopyKeeps(s, j, c, p, Wants(s, p));
      case ReadFilters(j) => ReadKeeps(s, j, c, p);
      case SendFrame(j) => SendStep(s, j, c, p);
      case Stopped(j) => PendingUpdate(s.jobs, j, Sending(None, []), c, p, Wants(s, p));
    }
  }

  /** Nor does a later holder put it right: the filter is listed, so nobody is told. */
  lemma LaterHoldersStayDeaf(s: Net, c: nat, p: string)
    requires Valid(s.fs) && Astray(s, c, p) && Wants(s, p)
    ensures var t := Next(s, Held(p)); Valid(t.fs) && Astray(t, c, p) && Wants(t, p) && t.jobs == s.jobs
  {
    ListedIsWanted(s.fs, p);
    PatternSetOfHold(s.fs, p);
  }

  /** Who is told from then on: a connection that comes up is added, one that goes is gone. */
  lemma AttachedAfter(s: Net, c: nat, d: nat)
    ensures d in Next(s, Attach).attached <==> d in s.attached || d == s.made
    ensures d in Next(s, Detach(c)).attached <==> d in s.attached && d != c
  {
    WithoutIs(s.attached, c);
  }
}
