/**
 The duplicate window of the message bus: ids delivered recently, expired from
 the front by age and by overflow. Times are milliseconds on the monotonic
 clock; each call reads it before it takes the lock, so two calls may record
 out of order, and the general laws below do not assume that they do not.
 */
module Duplicates {

  const SEEN_TTL: int := 90_000
  const SEEN_MAX: nat := 4096

  datatype Sighting = Sighting(id: string, at: int)

  /** `duration_since` saturates at zero, so a later stamp is simply not expired. */
  predicate Expired(s: Sighting, now: int) {
    now - s.at > SEEN_TTL
  }

  predicate Knows(seen: seq<Sighting>, id: string) {
    exists i :: 0 <= i < |seen| && seen[i].id == id
  }

  function Pruned(seen: seq<Sighting>, now: int): seq<Sighting> {
    if seen == [] || !Expired(seen[0], now) then seen else Pruned(seen[1..], now)
  }

  /** Pruning drops an expired front, up to the first sighting that is not. */
  lemma {:induction false} PrunedIsTail(seen: seq<Sighting>, now: int)
    ensures var young := Pruned(seen, now);
            && |young| <= |seen| && young == seen[|seen| - |young|..]
            && (forall k :: 0 <= k < |seen| - |young| ==> Expired(seen[k], now))
            && (young != [] ==> !Expired(young[0], now))
  {
    if seen != [] && Expired(seen[0], now) {
      PrunedIsTail(seen[1..], now);
    }
  }

  function Recording(seen: seq<Sighting>, id: string, now: int): seq<Sighting> {
    (if |seen| >= SEEN_MAX then seen[1..] else seen) + [Sighting(id, now)]
  }

  /** What `is_duplicate` leaves behind; its answer is `Knows(Pruned(seen, now), id)`. */
  function Asked(seen: seq<Sighting>, id: string, now: int): seq<Sighting> {
    var young := Pruned(seen, now);
    if Knows(young, id) then young else Recording(young, id, now)
  }

  // ---- Every run ---------------------------------------------------------------

  datatype Call = Call(id: string, now: int)

  function Last(calls: seq<Call>): Call
    requires calls != []
  {
    calls[|calls| - 1]
  }

  function Init(calls: seq<Call>): seq<Call>
    requires calls != []
  {
    calls[..|calls| - 1]
  }

  function Seen(calls: seq<Call>): seq<Sighting> {
    if calls == [] then [] else Asked(Seen(Init(calls)), Last(calls).id, Last(calls).now)
  }

  /** Would the next call say duplicate? */
  predicate Reported(calls: seq<Call>, next: Call) {
    Knows(Pruned(Seen(calls), next.now), next.id)
  }

  /** Every sighting ever recorded, in order: one per call that was not a duplicate. */
  function Recorded(calls: seq<Call>): seq<Sighting> {
    if calls == [] then []
    else if Reported(Init(calls), Last(calls)) then Recorded(Init(calls))
    else Recorded(Init(calls)) + [Sighting(Last(calls).id, Last(calls).now)]
  }

  ghost predicate Distinct(seen: seq<Sighting>) {
    forall i, j :: 0 <= i < j < |seen| ==> seen[i].id != seen[j].id
  }

  /** `seen` is the bounded, repeat-free tail of `recorded`. */
  ghost predicate TailOf(seen: seq<Sighting>, recorded: seq<Sighting>) {
    && |seen| <= 4096 && |seen| <= |recorded| && Distinct(seen)
    && seen == recorded[|recorded| - |seen|..]
  }

  lemma {:induction false} PrunedTail(seen: seq<Sighting>, recorded: seq<Sighting>, now: int)
    requires TailOf(seen, recorded)
    ensures TailOf(Pruned(seen, now), recorded)
  {
    if seen != [] && Expired(seen[0], now) {
      PrunedTail(seen[1..], recorded, now);
    }
  }

  lemma RecordingTail(seen: seq<Sighting>, recorded: seq<Sighting>, id: string, now: int)
    requires TailOf(seen, recorded) && !Knows(seen, id)
    ensures TailOf(Recording(seen, id, now), recorded + [Sighting(id, now)])
  {
    var kept := if |seen| >= SEEN_MAX then seen[1..] else seen;
    assert kept == recorded[|recorded| - |kept|..];
    assert Distinct(kept) && !Knows(kept, id);
  }

  /** What is remembered is the tail of what was recorded: bounded, without repeats. */
  lemma {:induction false} RememberedTail(calls: seq<Call>)
    ensures TailOf(Seen(calls), Recorded(calls))
  {
    if calls != [] {
      var before, id, now := Init(calls), Last(calls).id, Last(calls).now;
      RememberedTail(before);
      PrunedTail(Seen(before), Recorded(before), now);
      if !Reported(before, Last(calls)) {
        RecordingTail(Pruned(Seen(before), now), Recorded(before), id, now);
      }
    }
  }

  /** Some call of the run came more than the lifetime after the sighting. */
  ghost predicate Outlived(calls: seq<Call>, s: Sighting) {
    exists j :: 0 <= j < |calls| && Expired(s, calls[j].now)
  }

  /** A sighting is lost only to its own expiry, or to SEEN_MAX recorded after it. */
  lemma {:induction false} LostOnlyBy(calls: seq<Call>, k: nat)
    requires k < |Recorded(calls)| - |Seen(calls)|
    ensures Outlived(calls, Recorded(calls)[k]) || |Recorded(calls)| - k > SEEN_MAX
  {
    if calls != [] {
      var init, last := Init(calls), Last(calls);
      var before, young := Seen(init), Pruned(Seen(init), last.now);
      RememberedTail(init);
      PrunedIsTail(before, last.now);
      assert k < |Recorded(init)| ==> Recorded(calls)[k] == Recorded(init)[k];
      if k < |Recorded(init)| - |before| {
        LostOnlyBy(init, k);
        if Outlived(init, Recorded(init)[k]) {
          var j :| 0 <= j < |init| && Expired(Recorded(init)[k], init[j].now);
          assert calls[j] == init[j];
        }
      } else if k < |Recorded(init)| - |young| {
        assert Recorded(init)[k] == before[k - (|Recorded(init)| - |before|)];
        assert Expired(Recorded(calls)[k], calls[|calls| - 1].now);
      }
    }
  }

  /**
   An id recorded as the `k`-th sighting is still reported, as long as no call
   came more than SEEN_TTL after it and fewer than SEEN_MAX sightings followed it.
   */
  lemma RememberedWithinWindow(calls: seq<Call>, next: Call, k: nat)
    requires k < |Recorded(calls)| && Recorded(calls)[k].id == next.id
    requires !Outlived(calls + [next], Recorded(calls)[k])
    requires |Recorded(calls)| - k <= SEEN_MAX
    ensures Reported(calls, next)
  {
    var seen, recorded := Seen(calls), Recorded(calls);
    RememberedTail(calls);
    assert (calls + [next])[|calls|] == next;
    assert forall j :: 0 <= j < |calls| ==> calls[j] == (calls + [next])[j];
    assert !Outlived(calls, recorded[k]);
    if k < |recorded| - |seen| {
      LostOnlyBy(calls, k);
      assert false;
    }
    var i := k - (|recorded| - |seen|);
    assert seen[i] == recorded[k] && !Expired(seen[i], next.now);
    PrunedIsTail(seen, next.now);
    var young := Pruned(seen, next.now);
    assert young[i - (|seen| - |young|)].id == next.id;
  }

  /** The clock never runs backwards over the calls. */
  ghost predicate Ordered(calls: seq<Call>) {
    forall i, j :: 0 <= i <= j < |calls| ==> calls[i].now <= calls[j].now
  }

  ghost predicate InOrder(recorded: seq<Sighting>, bound: int) {
    && (forall i, j :: 0 <= i <= j < |recorded| ==> recorded[i].at <= recorded[j].at)
    && (forall i :: 0 <= i < |recorded| ==> recorded[i].at <= bound)
  }

  lemma {:induction false} RecordedInOrder(calls: seq<Call>, bound: int)
    requires Ordered(calls) && (calls != [] ==> Last(calls).now <= bound)
    ensures InOrder(Recorded(calls), bound)
  {
    if calls != [] {
      RecordedInOrder(Init(calls), Last(calls).now);
    }
  }

  /** The `k`-th sighting is of this id, young enough, and among the last SEEN_MAX. */
  ghost predicate InWindow(recorded: seq<Sighting>, next: Call, k: nat) {
    && k < |recorded| && recorded[k].id == next.id
    && next.now - recorded[k].at <= 90_000 && |recorded| - k <= 4096
  }

  lemma ReportedIsInWindow(calls: seq<Call>, next: Call) returns (k: nat)
    requires Ordered(calls) && (calls != [] ==> Last(calls).now <= next.now) && Reported(calls, next)
    ensures InWindow(Recorded(calls), next, k)
  {
    RememberedTail(calls);
    RecordedInOrder(calls, next.now);
    k := KnownIsInWindow(Seen(calls), Recorded(calls), next);
  }

  lemma KnownIsInWindow(seen: seq<Sighting>, recorded: seq<Sighting>, next: Call) returns (k: nat)
    requires TailOf(seen, recorded) && InOrder(recorded, next.now) && Knows(Pruned(seen, next.now), next.id)
    ensures InWindow(recorded, next, k)
  {
    var young := Pruned(seen, next.now);
    PrunedTail(seen, recorded, next.now);
    PrunedIsTail(seen, next.now);
    var i :| 0 <= i < |young| && young[i].id == next.id;
    k := |recorded| - |young| + i;
    assert young[i] == recorded[k] && young[0] == recorded[|recorded| - |young|];
  }

  /** On an ordered clock the report is exact: recorded, not aged out, not crowded out. */
  lemma ReportedExactlyWithin(calls: seq<Call>, next: Call)
    requires Ordered(calls + [next])
    ensures Reported(calls, next) <==> exists k: nat :: InWindow(Recorded(calls), next, k)
  {
    var all := calls + [next];
    assert forall i :: 0 <= i < |calls| ==> calls[i] == all[i];
    assert all[|calls|] == next && Ordered(calls);
    if Reported(calls, next) {
      var k := ReportedIsInWindow(calls, next);
    }
    if k: nat :| InWindow(Recorded(calls), next, k) {
      assert forall j :: 0 <= j < |all| ==> all[j].now <= all[|calls|].now;
      assert !Outlived(all, Recorded(calls)[k]);
      RememberedWithinWindow(calls, next, k);
    }
  }
}
