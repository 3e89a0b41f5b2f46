/**
 The cap on concurrent runs of one subscription: a slot is claimed with a weak
 compare-exchange before the run is spawned and given back when it ends. Any
 number of dispatches and runs interleave at their atomic operations.
 */
module RunCap {
  import opened Common

  /** One dispatch, from the message's arrival on. `seen` is the value last read. */
  datatype Attempt = Arrived | Trying(seen: nat) | Running | Finished | Dropped(seen: nat)

  datatype State = State(cap: nat, running: nat, attempts: seq<Attempt>)

  datatype Event =
    | Arrive
    | Load(i: nat)
    | Exchange(i: nat)       // succeeds: the counter still is what was read
    | ExchangeFails(i: nat)  // it is not, or the exchange failed spuriously
    | Drop(i: nat)
    | Finish(i: nat)

  predicate Is(s: State, i: nat) {
    i < |s.attempts|
  }

  predicate Enabled(s: State, e: Event) {
    match e
    case Arrive => true
    case Load(i) => Is(s, i) && s.attempts[i].Arrived?
    case Exchange(i) =>
      Is(s, i) && s.attempts[i].Trying? && s.attempts[i].seen < s.cap && s.running == s.attempts[i].seen
    case ExchangeFails(i) => Is(s, i) && s.attempts[i].Trying? && s.attempts[i].seen < s.cap
    case Drop(i) => Is(s, i) && s.attempts[i].Trying? && s.attempts[i].seen >= s.cap
    case Finish(i) => Is(s, i) && s.attempts[i].Running?
  }

  function With(s: State, i: nat, a: Attempt): State
    requires Is(s, i)
  {
    s.(attempts := s.attempts[i := a])
  }

  /** `fetch_sub` on an unsigned counter: below zero it would wrap. */
  function Minus(n: nat): nat {
    if n == 0 then 0xFFFF_FFFF else n - 1
  }

  function Next(s: State, e: Event): State
    requires Enabled(s, e)
  {
    match e
    case Arrive => s.(attempts := s.attempts + [Arrived])
    case Load(i) => With(s, i, Trying(s.running))
    case Exchange(i) => With(s, i, Running).(running := s.running + 1)
    case ExchangeFails(i) => With(s, i, Trying(s.running))
    case Drop(i) => With(s, i, Dropped(s.attempts[i].seen))
    case Finish(i) => With(s, i, Finished).(running := Minus(s.running))
  }

  /** The state a run from an idle runner leads to. */
  function After(cap: nat, es: seq<Event>): Option<State> {
    if es == [] then Some(State(cap, 0, []))
    else
      match After(cap, es[..|es| - 1])
      case None => None
      case Some(s) => if Enabled(s, es[|es| - 1]) then Some(Next(s, es[|es| - 1])) else None
  }

  /** Runs claimed and not finished. */
  function Live(attempts: seq<Attempt>): nat {
    if attempts == [] then 0
    else (if attempts[0].Running? then 1 else 0) + Live(attempts[1..])
  }

  lemma {:induction false} LiveUpdate(attempts: seq<Attempt>, i: nat, a: Attempt)
    requires i < |attempts|
    ensures Live(attempts[i := a])
         == Live(attempts) - (if attempts[i].Running? then 1 else 0) + (if a.Running? then 1 else 0)
    ensures attempts[i].Running? ==> Live(attempts) >= 1
  {
    if i == 0 {
      assert attempts[i := a][1..] == attempts[1..];
    } else {
      assert attempts[i := a][1..] == attempts[1..][i - 1 := a];
      LiveUpdate(attempts[1..], i - 1, a);
    }
  }

  lemma {:induction false} LiveAppend(attempts: seq<Attempt>, a: Attempt)
    requires !a.Running?
    ensures Live(attempts + [a]) == Live(attempts)
  {
    if attempts == [] {
      assert attempts + [a] == [a];
    } else {
      assert (attempts + [a])[1..] == attempts[1..] + [a];
      LiveAppend(attempts[1..], a);
    }
  }

  /** The counter is the number of live runs, never past the cap; so is every value read from it. */
  ghost predicate Capped(s: State) {
    && s.running == Live(s.attempts) && s.running <= s.cap
    && forall i :: 0 <= i < |s.attempts| ==>
         && (s.attempts[i].Trying? ==> s.attempts[i].seen <= s.cap)
         && (s.attempts[i].Dropped? ==> s.attempts[i].seen == s.cap)
  }

  lemma CappedStep(s: State, e: Event)
    requires Capped(s) && Enabled(s, e)
    ensures Capped(Next(s, e)) && Next(s, e).cap == s.cap
    ensures e.Finish? ==> s.running > 0
  {
    match e {
      case Arrive => LiveAppend(s.attempts, Arrived);
      case Load(i) => LiveUpdate(s.attempts, i, Trying(s.running));
      case Exchange(i) => LiveUpdate(s.attempts, i, Running);
      case ExchangeFails(i) => LiveUpdate(s.attempts, i, Trying(s.running));
      case Drop(i) => LiveUpdate(s.attempts, i, Dropped(s.attempts[i].seen));
      case Finish(i) => LiveUpdate(s.attempts, i, Finished);
    }
  }

  /** In every interleaving the cap holds and the counter never underflows. */
  lemma {:induction false} CapHolds(cap: nat, es: seq<Event>)
    requires After(cap, es).Some?
    ensures Capped(After(cap, es).value) && After(cap, es).value.cap == cap
  {
    if es != [] {
      CapHolds(cap, es[..|es| - 1]);
      CappedStep(After(cap, es[..|es| - 1]).value, es[|es| - 1]);
    }
  }

  /** At some point of the run the counter was `n` and attempt `i` had arrived. */
  ghost predicate WasAt(cap: nat, es: seq<Event>, i: nat, n: nat) {
    exists k :: 0 <= k <= |es| && After(cap, es[..k]).Some? &&
      var s := After(cap, es[..k]).value; s.running == n && i < |s.attempts|
  }

  lemma WasAtLater(cap: nat, es: seq<Event>, i: nat, n: nat)
    requires es != [] && WasAt(cap, es[..|es| - 1], i, n)
    ensures WasAt(cap, es, i, n)
  {
    var init := es[..|es| - 1];
    var k :| 0 <= k <= |init| && After(cap, init[..k]).Some? &&
      var s := After(cap, init[..k]).value; s.running == n && i < |s.attempts|;
    assert init[..k] == es[..k];
  }

  lemma WasAtNow(cap: nat, es: seq<Event>, i: nat)
    requires After(cap, es).Some? && i < |After(cap, es).value.attempts|
    ensures WasAt(cap, es, i, After(cap, es).value.running)
  {
    assert es[..|es|] == es;
  }

  /** Whatever an attempt last read, the counter held while the attempt was there. */
  lemma {:induction false} ReadWasTrue(cap: nat, es: seq<Event>, i: nat)
    requires After(cap, es).Some? && i < |After(cap, es).value.attempts|
    ensures var a := After(cap, es).value.attempts[i];
            a.Trying? || a.Dropped? ==> WasAt(cap, es, i, a.seen)
  {
    if es != [] {
      var init, e := es[..|es| - 1], es[|es| - 1];
      var s, t := After(cap, init).value, After(cap, es).value;
      if (e.Load? || e.ExchangeFails?) && e.i == i {
        WasAtNow(cap, es, i);
      } else if i < |s.attempts| && (t.attempts[i].Trying? || t.attempts[i].Dropped?) {
        ReadWasTrue(cap, init, i);
        WasAtLater(cap, es, i, t.attempts[i].seen);
      }
    }
  }

  /** A message is dropped only after the cap was really reached, while that message was waiting. */
  lemma DroppedOnlyAtCap(cap: nat, es: seq<Event>, i: nat)
    requires After(cap, es).Some? && i < |After(cap, es).value.attempts| && After(cap, es).value.attempts[i].Dropped?
    ensures WasAt(cap, es, i, cap)
  {
    CapHolds(cap, es);
    ReadWasTrue(cap, es, i);
  }

  /** A dispatch that finds a slot free and is not raced takes it; one that finds none drops its message. */
  lemma UnracedDispatch(s: State, i: nat)
    requires Is(s, i) && s.attempts[i].Arrived?
    ensures var s1 := Next(s, Load(i));
            && (s.running < s.cap ==>
                  && Enabled(s1, Exchange(i)) && !Enabled(s1, Drop(i))
                  && Next(s1, Exchange(i)) == State(s.cap, s.running + 1, s.attempts[i := Running]))
            && (s.running >= s.cap ==>
                  && !Enabled(s1, Exchange(i)) && Enabled(s1, Drop(i))
                  && Next(s1, Drop(i)) == State(s.cap, s.running, s.attempts[i := Dropped(s.running)]))
  {
  }

  /** A claim that lost the race looks again, and may still claim while there is room. */
  lemma LosingLooksAgain(s: State, i: nat)
    requires Is(s, i) && s.attempts[i].Trying? && s.attempts[i].seen < s.cap
    ensures s.running == s.attempts[i].seen ==> Enabled(s, Exchange(i))
    ensures Enabled(s, ExchangeFails(i))
    ensures var t := Next(s, ExchangeFails(i));
            t.attempts[i] == Trying(s.running) && (s.running < s.cap ==> Enabled(t, Exchange(i)))
  {
  }

  /** A dispatch that saw the counter at the cap does nothing but drop its message. */
  lemma AtTheCapItDrops(s: State, e: Event, i: nat)
    requires Is(s, i) && s.attempts[i].Trying? && s.attempts[i].seen >= s.cap && Enabled(s, e)
    ensures Next(s, e).attempts[i] == s.attempts[i] || e == Drop(i)
  {
  }

  /** A message that arrives is dispatched, and a run that ends gives its slot back. */
  lemma ArriveAndFinish(s: State, i: nat)
    ensures Next(s, Arrive) == s.(attempts := s.attempts + [Arrived])
    ensures Is(s, i) && s.attempts[i].Arrived? ==> Enabled(s, Load(i))
    ensures Is(s, i) && s.attempts[i].Running? && s.running > 0 ==>
              && Enabled(s, Finish(i))
              && Next(s, Finish(i)) == State(s.cap, s.running - 1, s.attempts[i := Finished])
  {
  }
}
