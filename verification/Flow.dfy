/**
 Producer-side flow control: one stream's pause switch, as the interleaving of
 its memory operations, and the registry that finds the switch by stream id.
 */
module Flow {
  import opened Common

  // ---- The switch --------------------------------------------------------------------

  /** Where the one waiter is inside `wait_while_paused`. */
  datatype At =
    | Away        // not waiting
    | Checking    // about to read the flag at the loop head
    | Registering // read it as paused: about to enable the notification
    | Rechecking  // registered: about to read the flag again
    | Parked      // awaiting the notification

  /** `resuming` counts the resumes between their store and their notify. */
  datatype Switch = Switch(paused: bool, resuming: nat, at: At, notified: bool)

  datatype Event =
    | Pause | ResumeStore | ResumeNotify              // the read loop
    | Enter | Check | Register | Recheck | Wake | GiveUp // the waiter; GiveUp is the safety cap

  predicate Enabled(s: Switch, e: Event) {
    match e
    case Pause => true
    case ResumeStore => true
    case ResumeNotify => s.resuming > 0
    case Enter => s.at.Away?
    case Check => s.at.Checking?
    case Register => s.at.Registering?
    case Recheck => s.at.Rechecking?
    case Wake => s.at.Parked? && s.notified
    case GiveUp => s.at.Parked?
  }

  function Next(s: Switch, e: Event): Switch
    requires Enabled(s, e)
  {
    match e
    case Pause => s.(paused := true)
    case ResumeStore => s.(paused := false, resuming := s.resuming + 1)
    // wakes whoever is registered, and nobody who registers later
    case ResumeNotify => s.(resuming := s.resuming - 1, notified := s.notified || s.at in {Rechecking, Parked})
    case Enter => s.(at := Checking)
    case Check => s.(at := if s.paused then Registering else Away)
    case Register => s.(at := Rechecking, notified := false)
    case Recheck => s.(at := if s.paused then Parked else Away)
    case Wake => s.(at := Checking)
    case GiveUp => s.(at := Away, paused := false)
  }

  function Exec(s: Switch, es: seq<Event>): Option<Switch>
    decreases |es|
  {
    if es == [] then Some(s)
    else if Enabled(s, es[0]) then Exec(Next(s, es[0]), es[1..])
    else None
  }

  const NEW := Switch(false, 0, Away, false)

  /** A parked waiter nobody has notified is paused, or about to be notified. */
  ghost predicate NotForgotten(s: Switch) {
    s.at.Parked? && !s.notified ==> s.paused || s.resuming > 0
  }

  /** No wake-up is lost in any interleaving. */
  lemma {:induction false} NoLostWakeUp(s: Switch, es: seq<Event>)
    requires NotForgotten(s) && Exec(s, es).Some?
    ensures NotForgotten(Exec(s, es).value)
    decreases |es|
  {
    if es != [] {
      NoLostWakeUp(Next(s, es[0]), es[1..]);
    }
  }

  predicate IsOwn(e: Event) {
    e in {Check, Register, Recheck, Wake, GiveUp}
  }

  function OwnSteps(es: seq<Event>): nat {
    if es == [] then 0 else (if IsOwn(es[0]) then 1 else 0) + OwnSteps(es[1..])
  }

  /** How many of its own steps a waiter is from returning, once the stream is not paused. */
  function Distance(s: Switch): nat {
    match s.at
    case Away => 0
    case Checking => 1
    case Registering => 2
    case Rechecking => 1
    case Parked => 2
  }

  /**
   Resumed and not paused again: the waiter has at most two of its own steps
   left, and is held up only while a resume is between its store and its notify.
   */
  lemma {:induction false} ReturnsSoon(s: Switch, es: seq<Event>)
    requires NotForgotten(s) && !s.paused && Exec(s, es).Some?
    requires forall i :: 0 <= i < |es| ==> es[i] != Pause && es[i] != Enter
    ensures var t := Exec(s, es).value;
            && !t.paused && OwnSteps(es) + Distance(t) <= Distance(s) <= 2
            && (t.at.Away? || t.resuming > 0 || exists e: Event :: IsOwn(e) && e != GiveUp && Enabled(t, e))
    decreases |es|
  {
    if es == [] {
      match s.at {
        case Away =>
        case Checking => assert Enabled(s, Check) && IsOwn(Check);
        case Registering => assert Enabled(s, Register) && IsOwn(Register);
        case Rechecking => assert Enabled(s, Recheck) && IsOwn(Recheck);
        case Parked => assert s.resuming == 0 ==> Enabled(s, Wake) && IsOwn(Wake);
      }
    } else {
      ReturnsSoon(Next(s, es[0]), es[1..]);
    }
  }

  /** Without the second look at the flag, a resume between the first look and the registration is lost. */
  lemma RecheckIsNeeded()
    ensures var s := Next(Next(Next(Next(Next(NEW, Pause), Enter), Check), ResumeStore), ResumeNotify);
            var parked := Next(s, Register).(at := Parked);
            s.at.Registering? && !NotForgotten(parked)
  {
    assert Enabled(Next(Next(NEW, Pause), Enter), Check);
  }

  // ---- The registry ------------------------------------------------------------------------

  /** Guards are numbered in the order they were made; `live` holds those not dropped. */
  datatype Registry = Registry(entries: map<string, nat>, live: map<nat, string>, made: nat)

  datatype Change = Add(id: string) | Drop(guard: nat)

  function Changed(r: Registry, c: Change): Registry {
    match c
    case Add(id) => Registry(r.entries[id := r.made], r.live[r.made := id], r.made + 1)
    case Drop(g) => if g in r.live then Registry(r.entries - {r.live[g]}, r.live - {g}, r.made) else r
  }

  function ChangedBy(r: Registry, cs: seq<Change>): Registry
    decreases |cs|
  {
    if cs == [] then r else ChangedBy(Changed(r, cs[0]), cs[1..])
  }

  const NO_STREAMS := Registry(map[], map[], 0)

  /** Every entry belongs to a producer that has not finished. */
  ghost predicate EntriesLive(r: Registry) {
    && (forall id :: id in r.entries ==> r.entries[id] in r.live && r.live[r.entries[id]] == id)
    && (forall g :: g in r.live ==> g < r.made)
  }

  /** And every unfinished producer can be found by its id. */
  ghost predicate LiveFound(r: Registry) {
    forall g :: g in r.live ==> r.live[g] in r.entries && r.entries[r.live[g]] == g
  }

  /** No id is registered again while a guard with it is live. */
  ghost predicate IdsUnique(r: Registry, cs: seq<Change>)
    decreases |cs|
  {
    cs != [] ==>
      && (cs[0].Add? ==> forall g :: g in r.live ==> r.live[g] != cs[0].id)
      && IdsUnique(Changed(r, cs[0]), cs[1..])
  }

  /** At every moment of these changes every unfinished producer can be found. */
  ghost predicate FoundThroughout(r: Registry, cs: seq<Change>)
    decreases |cs|
  {
    LiveFound(r) && (cs != [] ==> FoundThroughout(Changed(r, cs[0]), cs[1..]))
  }

  /** Registering a live id again hides the older producer at once; nothing else hides one. */
  lemma FoundAfter(r: Registry, c: Change)
    requires EntriesLive(r) && LiveFound(r)
    ensures EntriesLive(Changed(r, c))
    ensures LiveFound(Changed(r, c)) <==> (c.Add? ==> forall g :: g in r.live ==> r.live[g] != c.id)
  {
    if c.Add? {
      var t := Changed(r, c);
      if g :| g in r.live && r.live[g] == c.id {
        assert g in t.live && t.entries[t.live[g]] == r.made;
      }
    }
  }

  /** A finished producer is never paused; a live one always can be, exactly while no live id is reused. */
  lemma {:induction false} RegistryRun(r: Registry, cs: seq<Change>)
    requires EntriesLive(r)
    ensures EntriesLive(ChangedBy(r, cs))
    ensures LiveFound(r) ==> (FoundThroughout(r, cs) <==> IdsUnique(r, cs))
    decreases |cs|
  {
    if cs != [] {
      RegistryRun(Changed(r, cs[0]), cs[1..]);
      if LiveFound(r) {
        FoundAfter(r, cs[0]);
        FoundNow(Changed(r, cs[0]), cs[1..]);
      }
    }
  }

  lemma FoundNow(r: Registry, cs: seq<Change>)
    ensures FoundThroughout(r, cs) ==> LiveFound(r)
  {
  }

  /** An id registered twice: dropping the older guard hides the younger producer. */
  lemma ReusedIdIsHidden(id: string)
    ensures var r := Changed(Changed(Changed(NO_STREAMS, Add(id)), Add(id)), Drop(0));
            1 in r.live && id !in r.entries
  {
  }

  // ---- What the switch is for ------------------------------------------------------------------

  /** Paused and left so, the waiter does not return; only a resume or the safety cap lets it go. */
  lemma {:induction false} HeldWhilePaused(s: Switch, es: seq<Event>)
    requires s.paused && !s.at.Away? && Exec(s, es).Some?
    requires forall i :: 0 <= i < |es| ==> es[i] != ResumeStore && es[i] != GiveUp
    ensures Exec(s, es).value.paused && !Exec(s, es).value.at.Away?
    decreases |es|
  {
    if es != [] {
      HeldWhilePaused(Next(s, es[0]), es[1..]);
    }
  }

  /** The cap ends the pause as well as the wait, so the next chunk is not held up again. */
  lemma CapEndsThePause(s: Switch)
    requires s.at.Parked?
    ensures var t := Next(s, GiveUp); t.at.Away? && !t.paused
    ensures var t := Next(s, GiveUp); Next(Next(t, Enter), Check).at.Away?
  {
    assert Enabled(Next(Next(s, GiveUp), Enter), Check);
  }

  /** A pause and a resume each take effect at once. */
  lemma PauseAndResume(s: Switch)
    ensures Next(s, Pause).paused && !Next(s, ResumeStore).paused
    ensures s.at.Registering? ==> !Next(s, Register).notified
    ensures s.at.Parked? ==>
              var t := Next(Next(s, ResumeStore), ResumeNotify);
              t.notified && Enabled(t, Wake) && Next(t, Wake).at.Checking?
  {
  }

  /** A parked waiter does nothing of its own before it is notified, but for the cap. */
  lemma ParkedSleeps(s: Switch, e: Event)
    requires s.at.Parked? && !s.notified && IsOwn(e) && Enabled(s, e)
    ensures e == GiveUp
  {
  }
}
