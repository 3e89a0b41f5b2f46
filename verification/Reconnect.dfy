/**
 The reconnect loop around one connection: how long it waits before the next
 dial, which servers it may dial, and which one it dials next.
 */
module Reconnect {
  import opened Common
  import opened Text

  const BASE_DELAY: nat := 1_000
  const MAX_DELAY: nat := 60_000
  const MAX_SERVER_URLS: nat := 16

  /** How one pass through the loop ended, when it was not cancelled. */
  datatype Outcome =
    | Unbuildable
    | Unreachable
    | Rejected(code: nat)
    /** Connected, then given up: an unpaired server, or no service it can carry. */
    | Refused
    /** Served until the connection was lost; the alternates the server announced. */
    | Served(announced: Option<string>, stable: bool, shutdown: bool)

  /** An outcome and the clock's nanoseconds when the delay is drawn. */
  datatype Turn = Turn(outcome: Outcome, nanos: nat)

  // ---- The three delays, in milliseconds -------------------------------------------------------

  function SaturatingPred(n: nat): nat {
    if n == 0 then 0 else n - 1
  }

  function BackoffCap(attempt: nat): nat {
    Min(BASE_DELAY * Pow2(Min(SaturatingPred(attempt), 6)), MAX_DELAY)
  }

  /** A value from the upper half of the cap, taken from the clock. */
  function Jittered(cap: nat, nanos: nat): nat {
    cap / 2 + nanos % (cap / 2 + 1)
  }

  function BackoffDelay(attempt: nat, nanos: nat): nat {
    Jittered(BackoffCap(attempt), nanos)
  }

  function FullRetryDelay(nanos: nat): nat {
    1_000 + nanos % 1_001
  }

  function FastReconnectDelay(nanos: nat): nat {
    100 + nanos % 401
  }

  /** The documented schedule: 1s, 2s, 4s, ... without end, held at a minute. */
  function Ceiling(streak: nat): nat {
    Min(1_000 * Pow2(SaturatingPred(streak)), 60_000)
  }

  lemma {:induction false} Pow2Grows(m: nat, n: nat)
    requires m <= n
    ensures Pow2(m) <= Pow2(n)
  {
    if m < n {
      Pow2Grows(m, n - 1);
    }
  }

  /** Neither stopping after six doublings nor a saturated counter changes the schedule. */
  lemma CapIsCeiling(streak: nat)
    ensures BackoffCap(Min(streak, U32 - 1)) == Ceiling(streak)
    ensures 1_000 <= Ceiling(streak) <= MAX_DELAY
  {
    Pow2Grows(0, SaturatingPred(streak));
    assert Pow2(6) == 64;
    if streak > 7 {
      Pow2Grows(6, SaturatingPred(streak));
    }
  }

  lemma CapIsEven(attempt: nat)
    ensures BackoffCap(attempt) % 2 == 0
  {
    EvenCap(Pow2(Min(SaturatingPred(attempt), 6)));
  }

  lemma EvenCap(p: nat)
    ensures Min(BASE_DELAY * p, MAX_DELAY) % 2 == 0
  {
    var half := 500 * p;
    assert BASE_DELAY * p == 2 * half;
  }

  lemma JitterStaysIn(cap: nat, nanos: nat)
    requires cap % 2 == 0
    ensures cap / 2 <= Jittered(cap, nanos) <= cap
  {
    var m := cap / 2 + 1;
    assert 0 <= nanos % m < m;
  }

  lemma JitterReaches(cap: nat, delay: nat)
    requires cap % 2 == 0 && cap / 2 <= delay <= cap
    ensures Jittered(cap, delay - cap / 2) == delay
  {
    var m, x := cap / 2 + 1, delay - cap / 2;
    assert x % m == x;
  }

  /** The jitter fills the upper half of the cap: no value outside it, none inside it missed. */
  lemma BackoffFillsTheUpperHalf(attempt: nat, delay: nat)
    ensures (exists nanos: nat :: nanos < 1_000_000_000 && BackoffDelay(attempt, nanos) == delay)
       <==> BackoffCap(attempt) / 2 <= delay <= BackoffCap(attempt)
  {
    var cap := BackoffCap(attempt);
    CapIsEven(attempt);
    if cap / 2 <= delay <= cap {
      var nanos: nat := delay - cap / 2;
      JitterReaches(cap, delay);
      assert BackoffDelay(attempt, nanos) == delay;
    } else {
      forall nanos: nat ensures BackoffDelay(attempt, nanos) != delay {
        JitterStaysIn(cap, nanos);
      }
    }
  }

  /** The other two delays fill their bands as well. */
  lemma ShortDelaysFill(delay: nat)
    ensures (exists nanos: nat :: nanos < 1_000_000_000 && FullRetryDelay(nanos) == delay) <==> 1_000 <= delay <= 2_000
    ensures (exists nanos: nat :: nanos < 1_000_000_000 && FastReconnectDelay(nanos) == delay) <==> 100 <= delay <= 500
  {
    if 1_000 <= delay <= 2_000 {
      assert FullRetryDelay(delay - 1_000) == delay;
    }
    if 100 <= delay <= 500 {
      assert FastReconnectDelay(delay - 100) == delay;
    }
  }

  // ---- Learning candidates ---------------------------------------------------------------------

  predicate Dialable(url: string) {
    "ws://" <= url || "wss://" <= url
  }

  function TrimEach(parts: seq<string>): (names: seq<string>)
    ensures |names| == |parts|
  {
    if parts == [] then [] else [Trimmed(parts[0]).1] + TrimEach(parts[1..])
  }

  function Announced(header: string): seq<string> {
    TrimEach(Split(header, ','))
  }

  predicate Admits(urls: seq<string>, url: string) {
    Dialable(url) && url !in urls && |urls| < MAX_SERVER_URLS
  }

  function Learnt(urls: seq<string>, announced: seq<string>): seq<string> {
    if announced == [] then urls
    else
      var before := Learnt(urls, announced[..|announced| - 1]);
      var url := announced[|announced| - 1];
      if Admits(before, url) then before + [url] else before
  }

  /** The configured list comes first and whole; what follows it is dialable, new, and fenced in. */
  ghost predicate Grown(configured: seq<string>, urls: seq<string>) {
    && configured <= urls
    && |urls| <= Max(|configured|, 16)
    && forall i: nat :: |configured| <= i < |urls| ==> Dialable(urls[i]) && urls[i] !in urls[..i]
  }

  lemma {:induction false} LearntIsGrown(configured: seq<string>, urls: seq<string>, announced: seq<string>)
    requires Grown(configured, urls)
    ensures urls <= Learnt(urls, announced) && Grown(configured, Learnt(urls, announced))
  {
    if announced != [] {
      var before := Learnt(urls, announced[..|announced| - 1]);
      var url := announced[|announced| - 1];
      LearntIsGrown(configured, urls, announced[..|announced| - 1]);
      if Admits(before, url) {
        var after := before + [url];
        forall i: nat | |configured| <= i < |after| ensures Dialable(after[i]) && after[i] !in after[..i] {
          assert after[..i] == before[..i];
          assert i == |before| ==> after[..i] == before;
        }
      }
    }
  }

  /** Nothing is learnt that was not announced; nothing dialable is passed over below the fence. */
  lemma {:induction false} LearntExactly(urls: seq<string>, announced: seq<string>, url: string)
    ensures url in Learnt(urls, announced) ==> url in urls || (url in announced && Dialable(url))
    ensures url in announced && Dialable(url) && |Learnt(urls, announced)| < MAX_SERVER_URLS
        ==> url in Learnt(urls, announced)
  {
    if announced != [] {
      LearntExactly(urls, announced[..|announced| - 1], url);
    }
  }

  // ---- One pass, without the flags -------------------------------------------------------------

  datatype Loop = Loop(attempt: nat, idx: nat, urls: seq<string>)

  predicate SaysFull(o: Outcome) {
    o == Rejected(503)
  }

  predicate SaysShutdown(o: Outcome) {
    o.Served? && o.shutdown
  }

  predicate WasStable(o: Outcome) {
    o.Served? && o.stable
  }

  function UrlsWith(urls: seq<string>, header: Option<string>): seq<string> {
    if header.Some? then Learnt(urls, Announced(header.value)) else urls
  }

  function UrlsAfter(urls: seq<string>, o: Outcome): seq<string> {
    if o.Served? then UrlsWith(urls, o.announced) else urls
  }

  function IdxAfter(idx: nat, urls: seq<string>): nat {
    if |urls| > 1 then Ahead(idx, 1) else idx
  }

  function AttemptAfter(attempt: nat, o: Outcome): nat {
    var counted := if WasStable(o) then 0 else attempt;
    if SaysShutdown(o) then 0
    else if SaysFull(o) then counted
    else Min(counted + 1, U32 - 1)
  }

  function DelayAfter(attempt: nat, t: Turn): nat {
    if SaysShutdown(t.outcome) then FastReconnectDelay(t.nanos)
    else if SaysFull(t.outcome) then FullRetryDelay(t.nanos)
    else BackoffDelay(AttemptAfter(attempt, t.outcome), t.nanos)
  }

  function LoopAfter(s: Loop, o: Outcome): Loop {
    var urls := UrlsAfter(s.urls, o);
    Loop(AttemptAfter(s.attempt, o), IdxAfter(s.idx, urls), urls)
  }

  // ---- The loop as it is written ---------------------------------------------------------------

  class ReconnectLoop {
    const yieldsWhenFull: bool
    const fallback: string
    var reconnectAttempt: nat
    var fastReconnect: bool
    var serverFull: bool
    var serverIdx: nat
    var wsUrls: seq<string>

    /** At the head of the loop neither flag is left over from an earlier pass. */
    ghost predicate AtHead()
      reads this
    {
      !fastReconnect && !serverFull && reconnectAttempt < U32 && serverIdx < U64
    }

    ghost function View(): Loop
      reads this
    {
      Loop(reconnectAttempt, serverIdx, wsUrls)
    }

    constructor (configured: seq<string>, url: string, spare: bool)
      ensures AtHead() && View() == Loop(0, 0, configured)
      ensures yieldsWhenFull == spare && fallback == url
    {
      yieldsWhenFull, fallback := spare, url;
      reconnectAttempt, fastReconnect, serverFull := 0, false, false;
      serverIdx, wsUrls := 0, configured;
    }

    method Candidate() returns (url: string)
      ensures url == if wsUrls == [] then fallback else wsUrls[serverIdx % |wsUrls|]
    {
      var position := serverIdx % (if |wsUrls| >= 1 then |wsUrls| else 1);
      if position < |wsUrls| {
        url := wsUrls[position];
      } else {
        url := fallback;
      }
    }

    /** The alternates a response announces, if it does. */
    method Learn(header: Option<string>)
      modifies this`wsUrls
      ensures wsUrls == UrlsWith(old(wsUrls), header)
    {
      if header.Some? {
        LearnEach(Announced(header.value));
      }
    }

    method LearnEach(announced: seq<string>)
      modifies this`wsUrls
      ensures wsUrls == Learnt(old(wsUrls), announced)
    {
      assert announced[..0] == [];
      for i := 0 to |announced|
        invariant wsUrls == Learnt(old(wsUrls), announced[..i])
      {
        assert announced[..i + 1][..i] == announced[..i];
        var url := announced[i];
        if Dialable(url) && url !in wsUrls && |wsUrls| < MAX_SERVER_URLS {
          wsUrls := wsUrls + [url];
        }
      }
      assert announced[..|announced|] == announced;
    }

    /** What the connection's end leaves behind; false when this one stands down. */
    method Settle(o: Outcome) returns (goesOn: bool)
      requires AtHead()
      modifies this
      ensures goesOn <==> !(SaysFull(o) && yieldsWhenFull)
      ensures !goesOn ==> AtHead() && View() == old(View())
      ensures goesOn ==> fastReconnect == SaysShutdown(o) && serverFull == SaysFull(o)
      ensures goesOn ==> reconnectAttempt == (if WasStable(o) then 0 else old(reconnectAttempt))
      ensures goesOn ==> wsUrls == UrlsAfter(old(wsUrls), o) && serverIdx == old(serverIdx)
    {
      if o.Served? {
        Learn(o.announced);
        if o.stable {
          reconnectAttempt := 0;
        }
        fastReconnect := o.shutdown;
      } else if o.Rejected? && o.code == 503 {
        if yieldsWhenFull {
          return false;
        }
        serverFull := true;
      }
      return true;
    }

    /** The tail of the loop: the wait, from whichever flag is up, and the next candidate. */
    method Plan(nanos: nat) returns (delay: nat)
      requires reconnectAttempt < U32 && serverIdx < U64 && !(fastReconnect && serverFull)
      modifies this
      ensures AtHead() && wsUrls == old(wsUrls) && serverIdx == IdxAfter(old(serverIdx), wsUrls)
      ensures old(fastReconnect) ==> reconnectAttempt == 0 && delay == FastReconnectDelay(nanos)
      ensures !old(fastReconnect) && old(serverFull) ==>
                reconnectAttempt == old(reconnectAttempt) && delay == FullRetryDelay(nanos)
      ensures !old(fastReconnect) && !old(serverFull) ==>
                && reconnectAttempt == Min(old(reconnectAttempt) + 1, U32 - 1)
                && delay == BackoffDelay(reconnectAttempt, nanos)
    {
      if fastReconnect {
        fastReconnect := false;
        reconnectAttempt := 0;
        delay := FastReconnectDelay(nanos);
      } else if serverFull {
        serverFull := false;
        delay := FullRetryDelay(nanos);
      } else {
        reconnectAttempt := if reconnectAttempt == U32 - 1 then U32 - 1 else reconnectAttempt + 1;
        delay := BackoffDelay(reconnectAttempt, nanos);
      }
      if |wsUrls| > 1 {
        serverIdx := (serverIdx + 1) % U64;
      }
    }

    /** One uncancelled pass: the wait it plans, or nothing when it stands down. */
    method Pass(t: Turn) returns (delay: Option<nat>)
      requires AtHead()
      modifies this
      ensures AtHead()
      ensures delay.None? <==> SaysFull(t.outcome) && yieldsWhenFull
      ensures delay.None? ==> View() == old(View())
      ensures delay.Some? ==> View() == LoopAfter(old(View()), t.outcome)
      ensures delay.Some? ==> delay.value == DelayAfter(old(reconnectAttempt), t)
    {
      var goesOn := Settle(t.outcome);
      if !goesOn {
        return None;
      }
      var d := Plan(t.nanos);
      return Some(d);
    }
  }

  // ---- Whole runs ------------------------------------------------------------------------------

  function Init(ts: seq<Turn>): seq<Turn>
    requires ts != []
  {
    ts[..|ts| - 1]
  }

  function Last(ts: seq<Turn>): Turn
    requires ts != []
  {
    ts[|ts| - 1]
  }

  /** The loop's state after these passes, `None` once it has stood down. */
  function Run(configured: seq<string>, spare: bool, ts: seq<Turn>): Option<Loop>
    decreases |ts|
  {
    if ts == [] then Some(Loop(0, 0, configured))
    else
      var before := Run(configured, spare, Init(ts));
      if before.None? || (SaysFull(Last(ts).outcome) && spare) then None
      else Some(LoopAfter(before.value, Last(ts).outcome))
  }

  /** The wait planned by the last of these passes. */
  function Planned(configured: seq<string>, spare: bool, ts: seq<Turn>): nat
    requires ts != [] && Run(configured, spare, ts).Some?
  {
    DelayAfter(Run(configured, spare, Init(ts)).value.attempt, Last(ts))
  }

  predicate EverFull(ts: seq<Turn>) {
    exists i :: 0 <= i < |ts| && ts[i].outcome == Rejected(503)
  }

  /** The loop ends by itself exactly when a spare connection is told the server is full. */
  lemma {:induction false} StandsDownWhen(configured: seq<string>, spare: bool, ts: seq<Turn>)
    ensures Run(configured, spare, ts).None? <==> spare && EverFull(ts)
    decreases |ts|
  {
    if ts != [] {
      StandsDownWhen(configured, spare, Init(ts));
      EverFullStep(ts);
    }
  }

  lemma EverFullStep(ts: seq<Turn>)
    requires ts != []
    ensures EverFull(ts) <==> EverFull(Init(ts)) || Last(ts).outcome == Rejected(503)
  {
    forall i: nat | i < |Init(ts)| ensures Init(ts)[i] == ts[i] {}
    if EverFull(Init(ts)) {
      var i :| 0 <= i < |Init(ts)| && Init(ts)[i].outcome == Rejected(503);
      assert ts[i].outcome == Rejected(503);
    } else if EverFull(ts) {
      var i :| 0 <= i < |ts| && ts[i].outcome == Rejected(503);
      assert i == |Init(ts)|;
    }
  }

  /** Passes that count as failures since the last one that proved the server healthy. */
  function Streak(ts: seq<Turn>): nat
    decreases |ts|
  {
    if ts == [] then 0
    else
      var o := Last(ts).outcome;
      if o.Served? && o.shutdown then 0
      else if o.Served? && o.stable then 1
      else if o == Rejected(503) then Streak(Init(ts))
      else Streak(Init(ts)) + 1
  }

  lemma {:induction false} AttemptIsStreak(configured: seq<string>, spare: bool, ts: seq<Turn>)
    requires Run(configured, spare, ts).Some?
    ensures Run(configured, spare, ts).value.attempt == Min(Streak(ts), U32 - 1)
    decreases |ts|
  {
    if ts != [] {
      AttemptIsStreak(configured, spare, Init(ts));
    }
  }

  /** The wait before the next dial, from the history of outcomes alone. */
  lemma EveryDelay(configured: seq<string>, spare: bool, ts: seq<Turn>)
    requires ts != [] && Run(configured, spare, ts).Some?
    ensures var d := Planned(configured, spare, ts);
            100 <= d <= 60_000 &&
            var o := Last(ts).outcome;
            && (o.Served? && o.shutdown ==> 100 <= d <= 500)
            && (o == Rejected(503) ==> 1_000 <= d <= 2_000)
            && (!(o.Served? && o.shutdown) && o != Rejected(503) ==>
                  Ceiling(Streak(ts)) / 2 <= d <= Ceiling(Streak(ts)))
  {
    AttemptIsStreak(configured, spare, Init(ts));
    AttemptIsStreak(configured, spare, ts);
    CapIsCeiling(Streak(ts));
    var attempt := Min(Streak(ts), U32 - 1);
    CapIsEven(attempt);
    JitterStaysIn(BackoffCap(attempt), Last(ts).nanos);
  }

  /** A refusal as full leaves the backoff where it was; a healthy stretch starts it over. */
  lemma {:induction false} StreakSkipsFull(ts: seq<Turn>, fulls: seq<Turn>)
    requires forall t :: t in fulls ==> t.outcome == Rejected(503)
    ensures Streak(ts + fulls) == Streak(ts)
    decreases |fulls|
  {
    if fulls == [] {
      assert ts + fulls == ts;
    } else {
      assert Init(ts + fulls) == ts + Init(fulls);
      assert Last(ts + fulls) == Last(fulls) && Last(fulls) in fulls;
      StreakSkipsFull(ts, Init(fulls));
    }
  }

  // ---- The candidates over a run ---------------------------------------------------------------

  predicate WasAnnounced(ts: seq<Turn>, url: string) {
    exists t :: t in ts && t.outcome.Served? && t.outcome.announced.Some? && url in Announced(t.outcome.announced.value)
  }

  lemma {:induction false} CandidatesKeepTheConfigured(configured: seq<string>, spare: bool, ts: seq<Turn>)
    requires Run(configured, spare, ts).Some?
    ensures Grown(configured, Run(configured, spare, ts).value.urls)
    decreases |ts|
  {
    if ts != [] {
      CandidatesKeepTheConfigured(configured, spare, Init(ts));
      var urls := Run(configured, spare, Init(ts)).value.urls;
      var o := Last(ts).outcome;
      if o.Served? && o.announced.Some? {
        LearntIsGrown(configured, urls, Announced(o.announced.value));
      }
    }
  }

  /** Below the fence the candidates are exactly the configured and the dialable announced ones. */
  lemma {:induction false} CandidatesAreExactly(configured: seq<string>, spare: bool, ts: seq<Turn>, url: string)
    requires Run(configured, spare, ts).Some?
    ensures var urls := Run(configured, spare, ts).value.urls;
            && (url in urls ==> url in configured || (WasAnnounced(ts, url) && Dialable(url)))
            && (|urls| < 16 && WasAnnounced(ts, url) && Dialable(url) ==> url in urls)
    decreases |ts|
  {
    if ts != [] {
      CandidatesAreExactly(configured, spare, Init(ts), url);
      CandidatesKeepTheConfigured(configured, spare, Init(ts));
      var urls := Run(configured, spare, Init(ts)).value.urls;
      var o := Last(ts).outcome;
      assert ts == Init(ts) + [Last(ts)];
      if o.Served? && o.announced.Some? {
        LearntExactly(urls, Announced(o.announced.value), url);
        LearntIsGrown(configured, urls, Announced(o.announced.value));
      }
    }
  }

  // ---- How a header is taken apart ---------------------------------------------------------------

  lemma {:induction false} TrimEachAcross(xs: seq<string>, ys: seq<string>)
    ensures TrimEach(xs + ys) == TrimEach(xs) + TrimEach(ys)
  {
    if xs == [] {
      assert xs + ys == ys;
    } else {
      assert (xs + ys)[1..] == xs[1..] + ys;
      TrimEachAcross(xs[1..], ys);
    }
  }

  /** A comma is a cut between announcements. */
  lemma AnnouncedAcross(x: string, y: string)
    ensures Announced(x + [','] + y) == Announced(x) + Announced(y)
  {
    SplitAcross(x, y, ',');
    TrimEachAcross(Split(x, ','), Split(y, ','));
  }

  /** Between commas one url is announced, its outer blanks gone. */
  lemma AnnouncedOne(left: string, url: string, right: string)
    requires IsBlank(left) && IsBlank(right) && ',' !in left + url + right
    requires url == "" || (!IsSpace(url[0]) && !IsSpace(url[|url| - 1]))
    ensures Announced(left + url + right) == [url]
  {
    var x := left + url + right;
    SplitWhole(x, ',');
    TrimmedOf(left, url, right);
    assert [x][1..] == [];
  }

  predicate Bare(url: string) {
    url != "" && ',' !in url && !IsSpace(url[0]) && !IsSpace(url[|url| - 1])
  }

  lemma {:induction false} AnnouncedJoined(urls: seq<string>)
    requires urls != [] && forall i :: 0 <= i < |urls| ==> Bare(urls[i])
    ensures Announced(Join(urls, ',')) == urls
  {
    assert "" + urls[0] + "" == urls[0];
    AnnouncedOne("", urls[0], "");
    if |urls| > 1 {
      AnnouncedJoined(urls[1..]);
      AnnouncedAcross(urls[0], Join(urls[1..], ','));
      assert urls == [urls[0]] + urls[1..];
    }
  }

  /** Dialable: `ws://` or `wss://` in front of anything. */
  lemma DialableMeans(url: string)
    ensures Dialable(url) <==> exists rest: string :: url == "ws://" + rest || url == "wss://" + rest
  {
    if "ws://" <= url {
      assert url == "ws://" + url[5..];
    } else if "wss://" <= url {
      assert url == "wss://" + url[6..];
    }
  }

  /** A server that lists urls has exactly those of the two schemes join the candidates, below the fence. */
  lemma ListedAreCandidates(configured: seq<string>, spare: bool, ts: seq<Turn>, urls: seq<string>, url: string)
    requires ts != [] && Run(configured, spare, ts).Some?
    requires urls != [] && forall i :: 0 <= i < |urls| ==> Bare(urls[i])
    requires Last(ts).outcome.Served? && Last(ts).outcome.announced == Some(Join(urls, ','))
    requires |Run(configured, spare, ts).value.urls| < 16 && url in urls
    ensures url in Run(configured, spare, ts).value.urls
       <==> url in configured || "ws://" <= url || "wss://" <= url
  {
    AnnouncedJoined(urls);
    assert Last(ts) in ts;
    CandidatesAreExactly(configured, spare, ts, url);
    CandidatesKeepTheConfigured(configured, spare, ts);
  }

  /** New ones join at the end, in the order announced. */
  lemma {:induction false} LearntInOrder(urls: seq<string>, announced: seq<string>)
    requires forall i :: 0 <= i < |announced| ==> Dialable(announced[i]) && announced[i] !in urls
    requires forall i, j :: 0 <= i < j < |announced| ==> announced[i] != announced[j]
    requires |urls| + |announced| <= 16
    ensures Learnt(urls, announced) == urls + announced
  {
    if announced != [] {
      var n := |announced| - 1;
      LearntInOrder(urls, announced[..n]);
      assert announced == announced[..n] + [announced[n]];
    }
  }

  // ---- The rotation ----------------------------------------------------------------------------

  function Position(s: Loop): nat
    requires s.urls != []
  {
    s.idx % |s.urls|
  }

  /** The position the `k`-th dial from index `idx` on picks out of `n`. */
  function Slot(idx: nat, k: nat, n: nat): nat
    requires n > 0
  {
    Ahead(idx, k) % n
  }

  /** `n` dials in a row pick `n` different positions. */
  ghost predicate TriesAll(idx: nat, n: nat)
    requires n > 0
  {
    forall j: nat, k: nat :: j < k < n ==> Slot(idx, j, n) != Slot(idx, k, n)
  }

  lemma Multiple(n: nat, d: int)
    ensures d >= 1 ==> n * d >= n
    ensures d <= -1 ==> n * d <= -(n as int)
  {
    assert n * d == n * (d - 1) + n == n * (d + 1) - n;
  }

  lemma ModOf(q: nat, n: nat, r: nat)
    requires r < n
    ensures (n * q + r) % n == r
  {
    var x := n * q + r;
    assert x == n * (x / n) + x % n;
    assert n * (q - x / n) == x % n - r;
    Multiple(n, q - x / n);
  }

  lemma ModDiffers(a: nat, b: nat, n: nat)
    requires a < b < a + n
    ensures a % n != b % n
  {
    assert a == n * (a / n) + a % n && b == n * (b / n) + b % n;
    assert b - a == n * (b / n - a / n) + (b % n - a % n);
    Multiple(n, b / n - a / n);
  }

  lemma ModShift(q: nat, n: nat, x: nat)
    requires n > 0
    ensures (n * q + x) % n == x % n
  {
    assert x == n * (x / n) + x % n;
    assert n * (q + x / n) == n * q + n * (x / n);
    ModOf(q + x / n, n, x % n);
  }

  lemma Wraps(x: nat)
    requires x < 2 * U64
    ensures x % U64 == if x < U64 then x else x - U64
  {}

  /** Past the wrap the count starts again at zero, which shifts nothing when `n` divides it. */
  lemma SlotIsEven(idx: nat, k: nat, n: nat)
    requires 0 < n <= U64 && idx < U64 && k < n
    requires idx + n - 1 < U64 || U64 % n == 0
    ensures Slot(idx, k, n) == (idx + k) % n
  {
    var x := idx + k;
    Wraps(x);
    if x >= U64 {
      var q := U64 / n;
      assert U64 == n * q;
      ModShift(q, n, x - U64);
    }
  }

  /** The index reaches a multiple of `n` before the wrap, which is the position the wrap restarts at. */
  lemma WrapCollidesLate(idx: nat, n: nat, q: nat, r: nat)
    requires U64 == n * q + r && 0 < r < n && idx + r <= U64 <= idx + n - 1
    ensures Slot(idx, U64 - idx - r, n) == Slot(idx, U64 - idx, n) == 0
  {
    ModOf(q, n, 0);
    ModOf(0, n, 0);
    Wraps(U64 - r);
    Wraps(U64);
    assert Ahead(idx, U64 - idx - r) == n * q;
    assert Ahead(idx, U64 - idx) == 0;
  }

  lemma WrapCollidesEarly(idx: nat, n: nat, q: nat, r: nat)
    requires U64 == n * q + r && r < n && idx < U64 < idx + r
    ensures Slot(idx, 0, n) == Slot(idx, r, n) == r - (U64 - idx)
  {
    var p := r - (U64 - idx);
    ModOf(q, n, p);
    ModOf(0, n, p);
    assert (idx + 0) % U64 == n * q + p;
    assert (idx + r) % U64 == p;
  }

  lemma WrapCollides(idx: nat, n: nat) returns (j: nat, k: nat)
    requires 2 <= n <= U64 && idx < U64 <= idx + n - 1 && U64 % n != 0
    ensures j < k < n && Slot(idx, j, n) == Slot(idx, k, n)
  {
    var r, q := U64 % n, U64 / n;
    assert U64 == n * q + r;
    if idx + r <= U64 {
      j, k := U64 - idx - r, U64 - idx;
      WrapCollidesLate(idx, n, q, r);
    } else {
      j, k := 0, r;
      WrapCollidesEarly(idx, n, q, r);
    }
  }

  lemma SlotsDiffer(idx: nat, j: nat, k: nat, n: nat)
    requires 0 < n <= U64 && idx < U64 && j < k < n
    requires idx + n - 1 < U64 || U64 % n == 0
    ensures Slot(idx, j, n) != Slot(idx, k, n)
  {
    ModDiffers(idx + j, idx + k, n);
    assert Slot(idx, j, n) == (idx + j) % n by {
      SlotIsEven(idx, j, n);
    }
    assert Slot(idx, k, n) == (idx + k) % n by {
      SlotIsEven(idx, k, n);
    }
  }

  /** A rotation tries every candidate exactly unless the index wraps on a count `n` does not divide. */
  lemma TriesAllExactlyWhen(idx: nat, n: nat)
    requires 2 <= n <= U64 && idx < U64
    ensures TriesAll(idx, n) <==> idx + n - 1 < U64 || U64 % n == 0
  {
    if idx + n - 1 < U64 || U64 % n == 0 {
      forall j: nat, k: nat | j < k < n ensures Slot(idx, j, n) != Slot(idx, k, n) {
        SlotsDiffer(idx, j, k, n);
      }
    } else {
      var j, k := WrapCollides(idx, n);
    }
  }

  lemma WrapMissesOne()
    ensures !TriesAll(U64 - 1, 3)
  {
    assert Slot(U64 - 1, 0, 3) == Slot(U64 - 1, 1, 3);
  }

  lemma Reach(idx: nat, n: nat, p: nat) returns (k: nat)
    requires p < n
    ensures k < n && (idx + k) % n == p
  {
    var r, q := idx % n, idx / n;
    assert idx == n * q + r;
    if r <= p {
      k := p - r;
      ModOf(q, n, p);
    } else {
      k := n + p - r;
      assert n * (q + 1) == n * q + n;
      ModOf(q + 1, n, p);
    }
  }

  /** And then no candidate, the first included, waits longer than one round. */
  lemma EachIsReached(idx: nat, n: nat, p: nat) returns (k: nat)
    requires p < n <= U64 && idx < U64
    requires idx + n - 1 < U64 || U64 % n == 0
    ensures k < n && Slot(idx, k, n) == p
  {
    k := Reach(idx, n, p);
    SlotIsEven(idx, k, n);
  }

  /** Prefixes of a run that goes on go on, and their lists only grow. */
  lemma {:induction false} Earlier(configured: seq<string>, spare: bool, ts: seq<Turn>, more: seq<Turn>)
    requires Run(configured, spare, ts + more).Some?
    ensures Run(configured, spare, ts).Some?
    ensures Run(configured, spare, ts).value.urls <= Run(configured, spare, ts + more).value.urls
    decreases |more|
  {
    if more == [] {
      assert ts + more == ts;
    } else {
      assert Init(ts + more) == ts + Init(more);
      Earlier(configured, spare, ts, Init(more));
      var urls := Run(configured, spare, Init(ts + more)).value.urls;
      var o := Last(ts + more).outcome;
      CandidatesKeepTheConfigured(configured, spare, Init(ts + more));
      if o.Served? && o.announced.Some? {
        LearntIsGrown(configured, urls, Announced(o.announced.value));
      }
    }
  }

  lemma {:induction false} IndexStays(configured: seq<string>, spare: bool, ts: seq<Turn>)
    requires Run(configured, spare, ts).Some?
    ensures Run(configured, spare, ts).value.idx < U64
    decreases |ts|
  {
    if ts != [] {
      IndexStays(configured, spare, Init(ts));
    }
  }

  /** With one server or none the index stays at the first, so a list that grows later starts there. */
  lemma {:induction false} SingleStaysFirst(configured: seq<string>, spare: bool, ts: seq<Turn>)
    requires Run(configured, spare, ts).Some? && |Run(configured, spare, ts).value.urls| <= 1
    ensures Run(configured, spare, ts).value.idx == 0
    decreases |ts|
  {
    if ts != [] {
      assert ts == Init(ts) + [Last(ts)];
      Earlier(configured, spare, Init(ts), [Last(ts)]);
      SingleStaysFirst(configured, spare, Init(ts));
    }
  }

  /** Two points of one run, the second `more` after the first, with the same list at both. */
  predicate Between(configured: seq<string>, spare: bool, ts: seq<Turn>, more: seq<Turn>, from: Loop, to: Loop) {
    && Run(configured, spare, ts) == Some(from)
    && Run(configured, spare, ts + more) == Some(to)
    && from.urls == to.urls
    && |from.urls| >= 2
  }

  /** The list is the same at every point in between. */
  lemma Midway(configured: seq<string>, spare: bool, ts: seq<Turn>, more: seq<Turn>, from: Loop, to: Loop, k: nat)
    returns (mid: Loop)
    requires Between(configured, spare, ts, more, from, to) && k <= |more|
    ensures Between(configured, spare, ts, more[..k], from, mid)
  {
    assert ts + more[..k] + more[k..] == ts + more;
    Earlier(configured, spare, ts + more[..k], more[k..]);
    Earlier(configured, spare, ts, more[..k]);
    mid := Run(configured, spare, ts + more[..k]).value;
  }

  lemma OnePass(configured: seq<string>, spare: bool, ts: seq<Turn>, more: seq<Turn>, from: Loop, to: Loop)
    returns (mid: Loop)
    requires Between(configured, spare, ts, more, from, to) && more != []
    ensures Between(configured, spare, ts, Init(more), from, mid)
    ensures to.idx == Ahead(mid.idx, 1)
  {
    mid := Midway(configured, spare, ts, more, from, to, |more| - 1);
    assert Init(ts + more) == ts + Init(more);
    assert to == LoopAfter(mid, Last(ts + more).outcome);
  }

  /** `wrapping_add`, any number of times. */
  function Ahead(idx: nat, k: nat): nat {
    (idx + k) % U64
  }

  lemma AheadAgain(idx: nat, k: nat)
    ensures Ahead(Ahead(idx, k), 1) == Ahead(idx, k + 1)
  {}

  /** While the list stays as it is, every pass moves the index by one. */
  lemma {:induction false} IndexAdvances(configured: seq<string>, spare: bool, ts: seq<Turn>, more: seq<Turn>,
                                         from: Loop, to: Loop)
    requires Between(configured, spare, ts, more, from, to)
    ensures to.idx == Ahead(from.idx, |more|)
    decreases |more|
  {
    if more == [] {
      assert ts + more == ts;
      IndexStays(configured, spare, ts);
    } else {
      var mid := OnePass(configured, spare, ts, more, from, to);
      IndexAdvances(configured, spare, ts, Init(more), from, mid);
      AheadAgain(from.idx, |Init(more)|);
    }
  }

  /** The dial made after `k` more passes. */
  function DialAt(configured: seq<string>, spare: bool, ts: seq<Turn>, more: seq<Turn>, k: nat): Option<nat>
    requires k <= |more|
  {
    var s := Run(configured, spare, ts + more[..k]);
    if s.None? || s.value.urls == [] then None else Some(Position(s.value))
  }

  lemma DialIsSlot(configured: seq<string>, spare: bool, ts: seq<Turn>, more: seq<Turn>, from: Loop, to: Loop, k: nat)
    requires Between(configured, spare, ts, more, from, to) && k <= |more|
    ensures DialAt(configured, spare, ts, more, k) == Some(Slot(from.idx, k, |from.urls|))
  {
    var mid := Midway(configured, spare, ts, more, from, to, k);
    IndexAdvances(configured, spare, ts, more[..k], from, mid);
  }

  /**
   From any reachable point, `n` dials in a row over an unchanged list of `n`
   candidates go to `n` different positions, exactly while the index does not
   wrap or wraps evenly.
   */
  lemma RotationIsFair(configured: seq<string>, spare: bool, ts: seq<Turn>, more: seq<Turn>, from: Loop, to: Loop)
    requires Between(configured, spare, ts, more, from, to)
    requires |from.urls| <= U64 && |more| == |from.urls| - 1
    ensures (forall j: nat, k: nat :: j < k <= |more| ==>
              DialAt(configured, spare, ts, more, j) != DialAt(configured, spare, ts, more, k))
       <==> from.idx + |more| < U64 || U64 % |from.urls| == 0
  {
    IndexStays(configured, spare, ts);
    TriesAllExactlyWhen(from.idx, |from.urls|);
    forall k: nat | k <= |more|
      ensures DialAt(configured, spare, ts, more, k) == Some(Slot(from.idx, k, |from.urls|))
    {
      DialIsSlot(configured, spare, ts, more, from, to, k);
    }
  }

  /** Then every candidate is dialled within one round, the configured first one included. */
  lemma EachIsDialled(configured: seq<string>, spare: bool, ts: seq<Turn>, more: seq<Turn>,
                      from: Loop, to: Loop, p: nat)
    returns (k: nat)
    requires Between(configured, spare, ts, more, from, to)
    requires p < |from.urls| <= U64 && |more| == |from.urls| - 1
    requires from.idx + |more| < U64 || U64 % |from.urls| == 0
    ensures k <= |more| && DialAt(configured, spare, ts, more, k) == Some(p)
  {
    IndexStays(configured, spare, ts);
    k := EachIsReached(from.idx, |from.urls|, p);
    DialIsSlot(configured, spare, ts, more, from, to, k);
  }
}
