/**
 Adaptive concurrency: additive increase, multiplicative decrease over a
 semaphore that may give up fewer permits than it is asked for.
 */
module Adaptive {
  import opened Common

  const SLOW_WAIT: nat := 250_000
  const CLEAR_WAIT: nat := 50_000
  const FLOOR: nat := 1

  datatype Verdict = Shrink(to: nat) | Grow(to: nat) | Hold

  /** The decision of `verdict`, from the two counters it swapped out. */
  function Judge(configured: nat, current: nat, count: nat, micros: nat): Verdict {
    if count == 0 then Hold
    else
      var mean := micros / count;
      if mean >= SLOW_WAIT && current > FLOOR then Shrink(Max(current / 2, FLOOR))
      else if mean <= CLEAR_WAIT && current < configured then Grow(current + 1)
      else Hold
  }

  // ---- What a window of waits means ------------------------------------------------------

  function Sum(waits: seq<nat>): nat {
    if waits == [] then 0 else Sum(waits[..|waits| - 1]) + waits[|waits| - 1]
  }

  /** On average the waits of the window were slow. */
  predicate Slow(window: seq<nat>) {
    window != [] && Sum(window) >= 250_000 * |window|
  }

  /** On average, in whole microseconds, they were no longer than the clear wait. */
  predicate Clear(window: seq<nat>) {
    window != [] && Sum(window) < 50_001 * |window|
  }

  /** Halve on a slow window, grow by one on a clear one, within the floor and the ceiling. */
  function Meant(configured: nat, current: nat, window: seq<nat>): Verdict {
    if Slow(window) && current > 1 then Shrink(Max(current / 2, 1))
    else if Clear(window) && current < configured then Grow(current + 1)
    else Hold
  }

  lemma MeanAtLeast(sum: nat, n: nat, k: nat)
    requires n > 0
    ensures sum / n >= k <==> sum >= k * n
  {
    assert sum == n * (sum / n) + sum % n;
    OneMore(n, sum / n, k);
    OneMore(n, k, sum / n);
  }

  lemma CountersHold(window: seq<nat>)
    requires |window| < U64 && Sum(window) < U64
    ensures |window| % U64 == |window| && Sum(window) % U64 == Sum(window)
  {
  }

  lemma NotBoth(window: seq<nat>)
    ensures !(Slow(window) && Clear(window))
  {
  }

  /** The decision from the two counters is the one the window's waits mean. */
  lemma JudgedByTheMean(configured: nat, current: nat, window: seq<nat>)
    ensures Judge(configured, current, |window|, Sum(window)) == Meant(configured, current, window)
  {
    if window != [] {
      MeanAtLeast(Sum(window), |window|, SLOW_WAIT);
      MeanAtLeast(Sum(window), |window|, CLEAR_WAIT + 1);
    }
  }

  // ---- The object, one caller at a time --------------------------------------------------

  /** The limiter's own permits and the ones requests hold. */
  class Limiter {
    var available: nat
    var held: nat

    constructor (permits: nat)
      ensures available == permits && held == 0
    {
      available := permits;
      held := 0;
    }

    /** `forget_permits`: as many as asked, or all there are if fewer. */
    method ForgetPermits(n: nat) returns (taken: nat)
      modifies this
      ensures taken == Min(n, old(available)) && available == old(available) - taken && held == old(held)
    {
      taken := if n <= available then n else available;
      available := available - taken;
    }

    method AddPermits(n: nat)
      modifies this
      ensures available == old(available) + n && held == old(held)
    {
      available := available + n;
    }
  }

  class Controller {
    const configured: nat
    const limiter: Limiter
    var current: nat
    var forgotten: nat
    var waitMicros: nat
    var waits: nat
    ghost var window: seq<nat>   // the waits recorded since the last verdict

    ghost predicate Valid()
      reads this, limiter
    {
      && 1 <= current <= configured && current + forgotten == configured
      && limiter.available + limiter.held == current
      && waits == |window| % U64 && waitMicros == Sum(window) % U64
    }

    /** Neither counter has wrapped. */
    ghost predicate Fits()
      reads this
    {
      |window| < U64 && Sum(window) < U64
    }

    constructor (configured: nat, limiter: Limiter)
      requires configured >= 1 && limiter.available == configured && limiter.held == 0
      ensures Valid() && this.configured == configured && this.limiter == limiter
      ensures current == configured && window == []
    {
      this.configured := configured;
      this.limiter := limiter;
      window := [];
      current, forgotten, waitMicros, waits := configured, 0, 0, 0;
    }

    /** `record_wait`: one more wait in the window, the permits as they were. */
    method RecordWait(micros: nat)
      requires Valid()
      modifies this`waitMicros, this`waits, this`window
      ensures Valid() && window == old(window) + [micros]
    {
      waitMicros := (waitMicros + micros % U64) % U64;
      waits := (waits + 1) % U64;
      window := window + [micros];
      assert window[..|window| - 1] == old(window);
      AddWraps(Sum(old(window)), micros);
      AddWraps(|old(window)|, 1);
    }

    /** `verdict`: what the window's waits mean on average, when the counters hold them. */
    method TakeVerdict() returns (v: Verdict)
      requires Valid()
      modifies this`waitMicros, this`waits, this`window
      ensures Valid() && window == []
      ensures old(Fits()) ==> v == Meant(configured, current, old(window))
      ensures v == Judge(configured, current, old(waits), old(waitMicros))
    {
      var count, micros := waits, waitMicros;
      waits, waitMicros := 0, 0;
      v := Decide(count, micros);
      if Fits() {
        CountersHold(window);
        JudgedByTheMean(configured, current, window);
      }
      window := [];
    }

    method Decide(count: nat, micros: nat) returns (v: Verdict)
      ensures v == Judge(configured, current, count, micros)
    {
      if count == 0 {
        return Hold;
      }
      var mean := micros / count;
      if mean >= SLOW_WAIT && current > FLOOR {
        return Shrink(Max(current / 2, FLOOR));
      }
      if mean <= CLEAR_WAIT && current < configured {
        return Grow(current + 1);
      }
      return Hold;
    }

    /** `apply`: moves by what the limiter actually did. */
    method Apply(v: Verdict) returns (changed: Option<nat>)
      requires Valid() && (v.Shrink? ==> 1 <= v.to < current) && (v.Grow? ==> v.to == current + 1 <= configured)
      modifies this`current, this`forgotten, limiter
      ensures Valid() && limiter.held == old(limiter.held) && window == old(window)
      ensures current == Applied(old(current), old(limiter.available), v)
      ensures changed == if current != old(current) then Some(current) else None
    {
      if v.Hold? {
        return None;
      }
      var previous := current;
      if v.to < previous {
        var taken := limiter.ForgetPermits(previous - v.to);
        forgotten := forgotten + taken;
        current := previous - taken;
      } else {
        var give := Min(v.to - previous, forgotten);
        if give > 0 {
          limiter.AddPermits(give);
          forgotten := forgotten - give;
        }
        current := previous + give;
      }
      return if current != previous then Some(current) else None;
    }

    method Tick() returns (changed: Option<nat>)
      requires Valid()
      modifies this, limiter
      ensures Valid() && limiter.held == old(limiter.held) && window == []
      ensures old(Fits()) ==> current == Ticked(configured, old(current), old(limiter.available), old(window))
      ensures changed == if current != old(current) then Some(current) else None
    {
      var v := TakeVerdict();
      changed := Apply(v);
    }
  }

  /** Where a verdict takes the announced number, given what is free to forget. */
  function Applied(current: nat, available: nat, v: Verdict): nat
    requires v.Shrink? ==> v.to <= current
  {
    match v
    case Hold => current
    case Shrink(n) => current - Min(current - n, available)
    case Grow(n) => n
  }

  /** One tick, from the waits recorded in its window. */
  function Ticked(configured: nat, current: nat, available: nat, window: seq<nat>): nat {
    Applied(current, available, Meant(configured, current, window))
  }

  lemma AddWraps(x: nat, y: nat)
    ensures (x % U64 + y % U64) % U64 == (x + y) % U64
  {
    var q, p := x / U64, y / U64;
    assert x == q * U64 + x % U64 && y == p * U64 + y % U64;
    assert x + y == (q + p) * U64 + (x % U64 + y % U64);
  }

  // ---- Windows in a row, with so many permits held throughout -----------------------------------

  /** The announced number after these windows, `held` permits being out at every tick. */
  function After(configured: nat, current: nat, held: nat, windows: seq<seq<nat>>): nat
    decreases |windows|
  {
    if windows == [] then current
    else
      var before := After(configured, current, held, windows[..|windows| - 1]);
      Ticked(configured, before, if held <= before then before - held else 0, windows[|windows| - 1])
  }

  lemma HalveDivides(c: nat, p: nat)
    requires p >= 1
    ensures c / p / 2 == c / (2 * p)
  {
    var q, r := c / p, c % p;
    assert c == p * q + r;
    var h, b := q / 2, q % 2;
    assert q == 2 * h + b;
    assert c == (2 * p) * h + (p * b + r) by {
      assert p * q == p * (2 * h) + p * b;
    }
    assert 0 <= p * b + r < 2 * p;
    QuotientIs(c, 2 * p, h, p * b + r);
  }

  lemma QuotientIs(c: nat, m: nat, h: nat, r: nat)
    requires m > 0 && c == m * h + r && r < m
    ensures c / m == h
  {
    assert c == m * (c / m) + c % m;
    OneMore(m, c / m, h);
    OneMore(m, h, c / m);
  }

  lemma OneMore(m: nat, a: nat, b: nat)
    ensures a < b ==> m * a + m <= m * b
  {
    if a < b {
      var k := b - a - 1;
      assert m * b == m * a + m + m * k by {
        assert b == a + 1 + k;
      }
      assert m * k >= 0;
    }
  }

  function Halved(c: nat, n: nat): nat {
    if n == 0 then c else Halved(c, n - 1) / 2
  }

  /** Whole division. */
  function Over(c: nat, p: nat): nat
    requires p > 0
  {
    c / p
  }

  lemma {:induction false} HalvedIs(c: nat, n: nat)
    ensures Halved(c, n) == Over(c, Pow2(n)) && Halved(c, n) <= c
  {
    if n > 0 {
      HalvedIs(c, n - 1);
      HalveDivides(c, Pow2(n - 1));
    }
  }

  lemma SlowTick(configured: nat, before: nat, held: nat, window: seq<nat>)
    requires 1 <= before <= configured && held <= before && Slow(window)
    ensures Ticked(configured, before, before - held, window) == Max(Max(1, held), before / 2)
  {
    NotBoth(window);
  }

  lemma ClearTick(configured: nat, before: nat, available: nat, window: seq<nat>)
    requires before <= configured && Clear(window)
    ensures Ticked(configured, before, available, window) == Min(configured, before + 1)
  {
    NotBoth(window);
  }

  lemma {:induction false} SlowRun(configured: nat, held: nat, windows: seq<seq<nat>>)
    requires configured >= 1 && held <= configured
    requires forall i :: 0 <= i < |windows| ==> Slow(windows[i])
    ensures After(configured, configured, held, windows) == Max(Max(1, held), Halved(configured, |windows|))
    decreases |windows|
  {
    var n := |windows|;
    if n > 0 {
      var init := windows[..n - 1];
      SlowRun(configured, held, init);
      HalvedIs(configured, n - 1);
      SlowTick(configured, After(configured, configured, held, init), held, windows[n - 1]);
    }
  }

  /** Slow windows, whatever their waits, halve the ceiling each, down to the floor and to what is held. */
  lemma SlowWindows(configured: nat, held: nat, windows: seq<seq<nat>>)
    requires configured >= 1 && held <= configured
    requires forall i :: 0 <= i < |windows| ==> Slow(windows[i])
    ensures After(configured, configured, held, windows) == Max(Max(1, held), Over(configured, Pow2(|windows|)))
  {
    SlowRun(configured, held, windows);
    HalvedIs(configured, |windows|);
  }

  /** Clear windows give one permit back each; exactly the missing number of them restores the ceiling. */
  lemma {:induction false} ClearWindows(configured: nat, current: nat, held: nat, windows: seq<seq<nat>>)
    requires 1 <= current <= configured && held <= current
    requires forall i :: 0 <= i < |windows| ==> Clear(windows[i])
    ensures After(configured, current, held, windows) == Min(configured, current + |windows|)
    ensures After(configured, current, held, windows) == configured <==> |windows| >= configured - current
    decreases |windows|
  {
    var n := |windows|;
    if n > 0 {
      var init := windows[..n - 1];
      ClearWindows(configured, current, held, init);
      var before := After(configured, current, held, init);
      ClearTick(configured, before, before - held, windows[n - 1]);
    }
  }

  // ---- Any interleaving with requests --------------------------------------------------------

  /** Where the single ticker is between its atomic operations. */
  datatype Ticker =
    | Resting
    | Counted(count: nat)                          // `waits` swapped out
    | Judged(verdict: Verdict)                     // `wait_micros` swapped out, `current` read
    | Forgot(previous: nat, taken: nat)            // permits taken from the limiter
    | Booked(previous: nat, moved: nat)            // `forgotten` updated: `current` left to store
    | Gave(previous: nat, give: nat)               // permits added to the limiter

  datatype State = State(configured: nat, current: nat, forgotten: nat, available: nat, held: nat,
                         waitMicros: nat, waits: nat, ticker: Ticker)

  datatype Event =
    | Acquire | Release                        // requests
    | AddMicros(micros: nat) | AddWait         // the two halves of `record_wait`
    | SwapWaits | SwapMicros | Move | Book | Store // the ticker

  predicate Enabled(s: State, e: Event) {
    match e
    case Acquire => s.available > 0
    case Release => s.held > 0
    case AddMicros(_) => true
    case AddWait => true
    case SwapWaits => s.ticker.Resting?
    case SwapMicros => s.ticker.Counted?
    case Move => s.ticker.Judged?
    case Book => s.ticker.Forgot? || s.ticker.Gave?
    case Store => s.ticker.Booked?
  }

  function Moved(s: State, v: Verdict): State {
    match v
    case Hold => s.(ticker := Resting)
    case _ =>
      if v.to < s.current then
        var taken := Min(s.current - v.to, s.available);
        s.(available := s.available - taken, ticker := Forgot(s.current, taken))
      else
        var give := Min(v.to - s.current, s.forgotten);
        s.(available := s.available + give, ticker := Gave(s.current, give))
  }

  function Next(s: State, e: Event): State
    requires Enabled(s, e)
  {
    match e
    case Acquire => s.(available := s.available - 1, held := s.held + 1)
    case Release => s.(available := s.available + 1, held := s.held - 1)
    case AddMicros(m) => s.(waitMicros := (s.waitMicros + m) % U64)
    case AddWait => s.(waits := (s.waits + 1) % U64)
    case SwapWaits => s.(ticker := Counted(s.waits), waits := 0)
    case SwapMicros =>
      s.(ticker := Judged(Judge(s.configured, s.current, s.ticker.count, s.waitMicros)), waitMicros := 0)
    case Move => Moved(s, s.ticker.verdict)
    case Book =>
      (match s.ticker
       case Forgot(previous, taken) =>
         s.(forgotten := s.forgotten + taken,
            ticker := Booked(previous, if taken <= previous then previous - taken else 0))
       case Gave(previous, give) =>
         s.(forgotten := if give <= s.forgotten then s.forgotten - give else 0,
            ticker := Booked(previous, previous + give))
       case _ => s)
    case Store => s.(current := s.ticker.moved, ticker := Resting)
  }

  function Exec(s: State, es: seq<Event>): Option<State>
    decreases |es|
  {
    if es == [] then Some(s)
    else if Enabled(s, es[0]) then Exec(Next(s, es[0]), es[1..])
    else None
  }

  function Start(configured: nat): State {
    State(configured, configured, 0, configured, 0, 0, 0, Resting)
  }

  ghost predicate BetweenTicks(s: State) {
    1 <= s.current <= s.configured && s.current + s.forgotten == s.configured && s.available + s.held == s.current
  }

  /** What holds between any two atomic operations. */
  ghost predicate Inv(s: State) {
    && 1 <= s.current <= s.configured
    && match s.ticker
       case Resting => BetweenTicks(s)
       case Counted(_) => BetweenTicks(s)
       case Judged(v) =>
         && BetweenTicks(s)
         && (v.Shrink? ==> 1 <= v.to < s.current) && (v.Grow? ==> v.to == s.current + 1 <= s.configured)
       case Forgot(previous, taken) =>
         previous == s.current && taken < s.current && s.current + s.forgotten == s.configured
         && s.available + s.held + taken == s.current
       case Gave(previous, give) =>
         previous == s.current && give <= s.forgotten && s.current + s.forgotten == s.configured
         && s.available + s.held == s.current + give
       case Booked(previous, moved) =>
         1 <= moved && moved + s.forgotten == s.configured && s.available + s.held == moved
  }

  lemma JudgeIsInBand(configured: nat, current: nat, count: nat, micros: nat)
    requires 1 <= current <= configured
    ensures var v := Judge(configured, current, count, micros);
            (v.Shrink? ==> 1 <= v.to < current) && (v.Grow? ==> v.to == current + 1 <= configured)
  {
  }

  lemma MoveKeeps(s: State)
    requires Inv(s) && s.ticker.Judged?
    ensures Inv(Moved(s, s.ticker.verdict)) && Moved(s, s.ticker.verdict).configured == s.configured
  {
  }

  lemma StepKeeps(s: State, e: Event)
    requires Inv(s) && Enabled(s, e)
    ensures Inv(Next(s, e)) && Next(s, e).configured == s.configured
  {
    match e {
      case SwapMicros => JudgeIsInBand(s.configured, s.current, s.ticker.count, s.waitMicros);
      case Move => MoveKeeps(s);
      case _ =>
    }
  }

  /** Over every interleaving: between ticks no permit is missing or invented, and the band holds throughout. */
  lemma {:induction false} PermitsConserved(s: State, es: seq<Event>)
    requires Inv(s) && Exec(s, es).Some?
    ensures var t := Exec(s, es).value;
            Inv(t) && t.configured == s.configured && (t.ticker.Resting? ==> BetweenTicks(t))
    decreases |es|
  {
    if es != [] {
      StepKeeps(s, es[0]);
      PermitsConserved(Next(s, es[0]), es[1..]);
    }
  }

  /** And at every instant the limiter never admits more than the operator configured. */
  lemma NeverAboveConfigured(configured: nat, es: seq<Event>)
    requires configured >= 1 && Exec(Start(configured), es).Some?
    ensures var t := Exec(Start(configured), es).value;
            t.available + t.held <= configured && 1 <= t.current <= configured
  {
    PermitsConserved(Start(configured), es);
  }

  /** The ticker's five steps, with nothing between them, are one tick of the object. */
  lemma UndisturbedTick(s: State)
    requires Inv(s) && s.ticker.Resting?
    ensures var judged := Next(Next(s, SwapWaits), SwapMicros);
            var v := Judge(s.configured, s.current, s.waits, s.waitMicros);
            && judged == s.(waits := 0, waitMicros := 0, ticker := Judged(v))
            && (v.Hold? ==> Next(judged, Move) == s.(waits := 0, waitMicros := 0))
            && (!v.Hold? ==>
                  var t := Next(Next(Next(judged, Move), Book), Store);
                  && t.ticker.Resting? && t.held == s.held && t.configured == s.configured
                  && t.current == Applied(s.current, s.available, v))
  {
    JudgeIsInBand(s.configured, s.current, s.waits, s.waitMicros);
  }

  /** A request takes a permit when there is one and gives it back; a wait is counted as it is recorded. */
  lemma RequestSteps(s: State, micros: nat)
    ensures Enabled(s, Acquire) <==> s.available > 0
    ensures s.available > 0 ==>
              var t := Next(s, Acquire);
              t == s.(available := s.available - 1, held := s.held + 1) && Enabled(t, Release) && Next(t, Release) == s
    ensures s.waits + 1 < U64 && s.waitMicros + micros < U64 ==>
              Next(Next(s, AddMicros(micros)), AddWait) == s.(waitMicros := s.waitMicros + micros, waits := s.waits + 1)
  {
  }
}
