/**
 The filter list of the message bus as a value: which topic filters the process
 asks the server for, from the configuration and from local subscribers.
 */
module Filters {
  import opened Common

  datatype Filter = Filter(pattern: string, fromConfig: bool, holders: nat)

  // ---- What a list stands for: a configured sequence and a hold count per pattern

  function Patterns(fs: seq<Filter>): seq<string> {
    seq(|fs|, i requires 0 <= i < |fs| => fs[i].pattern)
  }

  function Configured(fs: seq<Filter>): seq<string> {
    if fs == [] then []
    else (if fs[0].fromConfig then [fs[0].pattern] else []) + Configured(fs[1..])
  }

  function Holds(fs: seq<Filter>, p: string): nat {
    if fs == [] then 0
    else (if fs[0].pattern == p then fs[0].holders else 0) + Holds(fs[1..], p)
  }

  predicate Wanted(fs: seq<Filter>, p: string) {
    p in Configured(fs) || Holds(fs, p) > 0
  }

  ghost predicate FirstOnly(fs: seq<Filter>) {
    forall i, j :: 0 <= i < j < |fs| && fs[i].pattern == fs[j].pattern ==> fs[j].holders == 0
  }

  /**
   Only the first entry for a pattern has holders, an unconfigured entry has at
   least one, and the configured entries lead.
   */
  ghost predicate Valid(fs: seq<Filter>) {
    && FirstOnly(fs)
    && (forall i :: 0 <= i < |fs| && !fs[i].fromConfig ==> fs[i].holders > 0)
    && (forall i, j :: 0 <= i < j < |fs| && fs[j].fromConfig ==> fs[i].fromConfig)
  }

  // ---- The operations -------------------------------------------------------

  /** `new`: every configured pattern, held by nobody. */
  function Fresh(patterns: seq<string>): seq<Filter> {
    seq(|patterns|, i requires 0 <= i < |patterns| => Filter(patterns[i], true, 0))
  }

  /** `position` of the first entry for a pattern. */
  function Position(fs: seq<Filter>, p: string): (r: Option<nat>)
    ensures r.Some? ==> r.value < |fs| && fs[r.value].pattern == p
    ensures r.Some? ==> forall i :: 0 <= i < r.value ==> fs[i].pattern != p
    ensures r.None? ==> forall i :: 0 <= i < |fs| ==> fs[i].pattern != p
  {
    if fs == [] then None
    else if fs[0].pattern == p then Some(0)
    else
      match Position(fs[1..], p)
      case None => None
      case Some(k) => Some(k + 1)
  }

  function WithoutAt(fs: seq<Filter>, k: nat): seq<Filter>
    requires k < |fs|
  {
    fs[..k] + fs[k + 1..]
  }

  /** `hold_filter`. */
  function Hold(fs: seq<Filter>, p: string): seq<Filter> {
    match Position(fs, p)
    case Some(k) => fs[k := fs[k].(holders := fs[k].holders + 1)]
    case None => fs + [Filter(p, false, 1)]
  }

  function Lowered(f: Filter): Filter {
    f.(holders := if f.holders == 0 then 0 else f.holders - 1)
  }

  /** `release_filter`. */
  function Release(fs: seq<Filter>, p: string): seq<Filter> {
    match Position(fs, p)
    case None => fs
    case Some(k) =>
      var entry := Lowered(fs[k]);
      if entry.holders > 0 || entry.fromConfig then fs[k := entry] else WithoutAt(fs, k)
  }

  /** The entry one configured pattern takes over, and the entries left. */
  function Claim(previous: seq<Filter>, p: string): (Filter, seq<Filter>) {
    match Position(previous, p)
    case Some(k) => (Filter(p, true, previous[k].holders), WithoutAt(previous, k))
    case None => (Filter(p, true, 0), previous)
  }

  /** Every configured pattern in turn claims its entry. */
  function Claims(topics: seq<string>, previous: seq<Filter>): (seq<Filter>, seq<Filter>) {
    if topics == [] then ([], previous)
    else
      var (first, left) := Claim(previous, topics[0]);
      var (rest, last) := Claims(topics[1..], left);
      ([first] + rest, last)
  }

  /** The entries left unclaimed stay on, unconfigured, if they have a holder. */
  function Kept(previous: seq<Filter>): seq<Filter> {
    if previous == [] then []
    else (if previous[0].holders > 0 then [previous[0].(fromConfig := false)] else []) + Kept(previous[1..])
  }

  /** `set_filters`. */
  function Reload(fs: seq<Filter>, topics: seq<string>): seq<Filter> {
    if Configured(fs) == topics then fs
    else
      var (next, left) := Claims(topics, fs);
      next + Kept(left)
  }

  // ---- Lists, cut and joined ------------------------------------------------

  lemma {:induction false} HoldsConcat(a: seq<Filter>, b: seq<Filter>, p: string)
    ensures Holds(a + b, p) == Holds(a, p) + Holds(b, p)
  {
    if a == [] {
      assert a + b == b;
    } else {
      assert (a + b)[1..] == a[1..] + b;
      HoldsConcat(a[1..], b, p);
    }
  }

  lemma {:induction false} ConfiguredConcat(a: seq<Filter>, b: seq<Filter>)
    ensures Configured(a + b) == Configured(a) + Configured(b)
  {
    if a == [] {
      assert a + b == b;
    } else {
      assert (a + b)[1..] == a[1..] + b;
      ConfiguredConcat(a[1..], b);
    }
  }

  lemma HoldsAround(fs: seq<Filter>, k: nat, p: string)
    requires k < |fs|
    ensures Holds(fs, p) == Holds(WithoutAt(fs, k), p) + Holds([fs[k]], p)
  {
    assert fs == fs[..k] + ([fs[k]] + fs[k + 1..]);
    HoldsConcat(fs[..k], [fs[k]] + fs[k + 1..], p);
    HoldsConcat([fs[k]], fs[k + 1..], p);
    HoldsConcat(fs[..k], fs[k + 1..], p);
  }

  lemma HoldsOfUpdate(fs: seq<Filter>, k: nat, f: Filter, p: string)
    requires k < |fs|
    ensures Holds(fs[k := f], p) == Holds(fs, p) - Holds([fs[k]], p) + Holds([f], p)
  {
    HoldsAround(fs, k, p);
    HoldsAround(fs[k := f], k, p);
    assert WithoutAt(fs[k := f], k) == WithoutAt(fs, k);
  }

  lemma ConfiguredOfUpdate(fs: seq<Filter>, k: nat, f: Filter)
    requires k < |fs| && f.pattern == fs[k].pattern && f.fromConfig == fs[k].fromConfig
    ensures Configured(fs[k := f]) == Configured(fs)
  {
    assert fs == fs[..k] + ([fs[k]] + fs[k + 1..]);
    assert fs[k := f] == fs[..k] + ([f] + fs[k + 1..]);
    ConfiguredConcat(fs[..k], [fs[k]] + fs[k + 1..]);
    ConfiguredConcat(fs[..k], [f] + fs[k + 1..]);
    ConfiguredConcat([fs[k]], fs[k + 1..]);
    ConfiguredConcat([f], fs[k + 1..]);
  }

  lemma {:induction false} NoHoldsWithout(fs: seq<Filter>, p: string)
    requires forall i :: 0 <= i < |fs| && fs[i].pattern == p ==> fs[i].holders == 0
    ensures Holds(fs, p) == 0
  {
    if fs != [] {
      NoHoldsWithout(fs[1..], p);
    }
  }

  /** The hold count of a pattern is the one on its first entry. */
  lemma HoldsAtFirst(fs: seq<Filter>, p: string)
    requires Valid(fs)
    ensures Holds(fs, p) == match Position(fs, p) case None => 0 case Some(k) => fs[k].holders
  {
    var k := Position(fs, p);
    if k.Some? {
      HoldsAround(fs, k.value, p);
      NoHoldsWithout(WithoutAt(fs, k.value), p);
    } else {
      NoHoldsWithout(fs, p);
    }
  }

  lemma {:induction false} InConfigured(fs: seq<Filter>, p: string)
    ensures p in Configured(fs) <==> exists i :: 0 <= i < |fs| && fs[i].fromConfig && fs[i].pattern == p
  {
    if fs != [] {
      InConfigured(fs[1..], p);
      assert forall i :: 0 <= i < |fs| - 1 ==> fs[1..][i] == fs[i + 1];
      if p in Configured(fs[1..]) {
        var i :| 0 <= i < |fs| - 1 && fs[1..][i].fromConfig && fs[1..][i].pattern == p;
        assert fs[i + 1].fromConfig && fs[i + 1].pattern == p;
      }
      if i :| 0 <= i < |fs| && fs[i].fromConfig && fs[i].pattern == p {
        assert i > 0 ==> fs[1..][i - 1] == fs[i];
      }
    }
  }

  /** A pattern is on the list exactly when the process wants it. */
  lemma ListedIsWanted(fs: seq<Filter>, p: string)
    requires Valid(fs)
    ensures Wanted(fs, p) <==> Position(fs, p).Some?
    ensures Wanted(fs, p) <==> p in Patterns(fs)
  {
    InConfigured(fs, p);
    HoldsAtFirst(fs, p);
    var k := Position(fs, p);
    if k.Some? {
      assert Patterns(fs)[k.value] == p;
    }
  }

  // ---- Each operation on (configured, hold counts) ------------------------------

  lemma {:induction false} FreshRefines(patterns: seq<string>)
    ensures Valid(Fresh(patterns)) && Configured(Fresh(patterns)) == patterns
    ensures forall p :: Holds(Fresh(patterns), p) == 0
  {
    forall p ensures Holds(Fresh(patterns), p) == 0 {
      NoHoldsWithout(Fresh(patterns), p);
    }
    if patterns != [] {
      FreshRefines(patterns[1..]);
      assert Fresh(patterns)[1..] == Fresh(patterns[1..]);
    }
  }

  lemma HoldCounts(fs: seq<Filter>, p: string, q: string)
    ensures Holds(Hold(fs, p), q) == Holds(fs, q) + (if q == p then 1 else 0)
  {
    var k := Position(fs, p);
    if k.Some? {
      HoldsOfUpdate(fs, k.value, fs[k.value].(holders := fs[k.value].holders + 1), q);
    } else {
      HoldsConcat(fs, [Filter(p, false, 1)], q);
    }
  }

  /** Changing the holders of a pattern's first entry keeps the list in order. */
  lemma ValidUpdate(fs: seq<Filter>, k: nat, f: Filter)
    requires Valid(fs) && k < |fs| && f.pattern == fs[k].pattern && f.fromConfig == fs[k].fromConfig
    requires forall i :: 0 <= i < k ==> fs[i].pattern != f.pattern
    requires f.fromConfig || f.holders > 0
    ensures Valid(fs[k := f])
  {
    var after := fs[k := f];
    forall i | 0 <= i < |fs| ensures after[i] == if i == k then f else fs[i] {}
  }

  lemma ValidAppend(fs: seq<Filter>, f: Filter)
    requires Valid(fs) && !f.fromConfig && f.holders > 0
    requires forall i :: 0 <= i < |fs| ==> fs[i].pattern != f.pattern
    ensures Valid(fs + [f])
  {
  }

  lemma HoldKeepsValid(fs: seq<Filter>, p: string)
    requires Valid(fs)
    ensures Valid(Hold(fs, p)) && Configured(Hold(fs, p)) == Configured(fs)
  {
    var k := Position(fs, p);
    if k.Some? {
      var entry := fs[k.value].(holders := fs[k.value].holders + 1);
      assert Hold(fs, p) == fs[k.value := entry];
      ValidUpdate(fs, k.value, entry);
      ConfiguredOfUpdate(fs, k.value, entry);
    } else {
      var entry := Filter(p, false, 1);
      ValidAppend(fs, entry);
      ConfiguredConcat(fs, [entry]);
      NoneConfigured([entry]);
    }
  }

  /** One more hold on `p`, nothing else moves; `p` is new exactly when it was unwanted. */
  lemma HoldRefines(fs: seq<Filter>, p: string)
    requires Valid(fs)
    ensures var after := Hold(fs, p);
            && Valid(after) && Configured(after) == Configured(fs)
            && (forall q :: Holds(after, q) == Holds(fs, q) + (if q == p then 1 else 0))
            && (Position(fs, p).None? <==> !Wanted(fs, p))
  {
    ListedIsWanted(fs, p);
    HoldKeepsValid(fs, p);
    forall q ensures Holds(Hold(fs, p), q) == Holds(fs, q) + (if q == p then 1 else 0) {
      HoldCounts(fs, p, q);
    }
  }

  lemma ValidWithoutAt(fs: seq<Filter>, k: nat)
    requires Valid(fs) && k < |fs|
    ensures Valid(WithoutAt(fs, k))
  {
    var after := WithoutAt(fs, k);
    forall i | 0 <= i < |after|
      ensures after[i] == if i < k then fs[i] else fs[i + 1]
    {
    }
  }

  lemma ConfiguredWithoutAt(fs: seq<Filter>, k: nat)
    requires k < |fs| && !fs[k].fromConfig
    ensures Configured(WithoutAt(fs, k)) == Configured(fs)
  {
    assert fs == fs[..k] + ([fs[k]] + fs[k + 1..]);
    ConfiguredConcat(fs[..k], [fs[k]] + fs[k + 1..]);
    ConfiguredConcat([fs[k]], fs[k + 1..]);
    ConfiguredConcat(fs[..k], fs[k + 1..]);
  }

  lemma ReleaseKeepsValid(fs: seq<Filter>, p: string)
    requires Valid(fs)
    ensures Valid(Release(fs, p)) && Configured(Release(fs, p)) == Configured(fs)
  {
    var k := Position(fs, p);
    if k.Some? {
      var entry := Lowered(fs[k.value]);
      if entry.holders > 0 || entry.fromConfig {
        ValidUpdate(fs, k.value, entry);
        ConfiguredOfUpdate(fs, k.value, entry);
      } else {
        ValidWithoutAt(fs, k.value);
        ConfiguredWithoutAt(fs, k.value);
      }
    }
  }

  lemma ReleaseCounts(fs: seq<Filter>, p: string, q: string)
    requires Valid(fs)
    ensures Holds(Release(fs, p), q) == Holds(fs, q) - (if q == p && Holds(fs, p) > 0 then 1 else 0)
  {
    HoldsAtFirst(fs, p);
    var k := Position(fs, p);
    if k.Some? {
      var entry := Lowered(fs[k.value]);
      if entry.holders > 0 || entry.fromConfig {
        HoldsOfUpdate(fs, k.value, entry, q);
      } else {
        HoldsAround(fs, k.value, q);
      }
    }
  }

  /** The entry goes exactly when the pattern becomes unwanted. */
  lemma ReleaseForgets(fs: seq<Filter>, p: string)
    requires Valid(fs)
    ensures |Release(fs, p)| < |fs| <==> Wanted(fs, p) && !Wanted(Release(fs, p), p)
  {
    ListedIsWanted(fs, p);
    var k := Position(fs, p);
    if k.Some? {
      ReleaseKeepsValid(fs, p);
      var entry := Lowered(fs[k.value]);
      if entry.holders > 0 || entry.fromConfig {
        ListedIsWanted(Release(fs, p), p);
        assert Release(fs, p)[k.value] == entry;
      } else {
        HoldsAtFirst(fs, p);
        ReleaseCounts(fs, p, p);
        UnconfiguredIsAlone(fs, k.value);
      }
    }
  }

  /** One hold on `p` fewer, if there was one; the entry goes exactly when `p` becomes unwanted. */
  lemma ReleaseRefines(fs: seq<Filter>, p: string)
    requires Valid(fs)
    ensures var after := Release(fs, p);
            && Valid(after) && Configured(after) == Configured(fs)
            && (forall q :: Holds(after, q) == Holds(fs, q) - (if q == p && Holds(fs, p) > 0 then 1 else 0))
            && (|after| < |fs| <==> Wanted(fs, p) && !Wanted(after, p))
  {
    ReleaseKeepsValid(fs, p);
    ReleaseForgets(fs, p);
    forall q ensures Holds(Release(fs, p), q) == Holds(fs, q) - (if q == p && Holds(fs, p) > 0 then 1 else 0) {
      ReleaseCounts(fs, p, q);
    }
  }

  /** An unconfigured entry is the only one for its pattern. */
  lemma UnconfiguredIsAlone(fs: seq<Filter>, k: nat)
    requires Valid(fs) && k < |fs| && !fs[k].fromConfig
    ensures fs[k].pattern !in Configured(fs)
  {
    InConfigured(fs, fs[k].pattern);
  }

  // ---- Reload -----------------------------------------------------------------

  /** Claiming moves holds from the old list to the new one, and loses none. */
  lemma {:induction false} ClaimsKeepHolds(topics: seq<string>, previous: seq<Filter>, p: string)
    ensures var (next, left) := Claims(topics, previous);
            Holds(next, p) + Holds(left, p) == Holds(previous, p)
  {
    if topics != [] {
      var (first, left) := Claim(previous, topics[0]);
      var (rest, last) := Claims(topics[1..], left);
      ClaimsKeepHolds(topics[1..], left, p);
      HoldsConcat([first], rest, p);
      var k := Position(previous, topics[0]);
      if k.Some? {
        HoldsAround(previous, k.value, p);
      }
    }
  }

  lemma {:induction false} KeptKeepsHolds(previous: seq<Filter>, p: string)
    ensures Holds(Kept(previous), p) == Holds(previous, p)
  {
    if previous != [] {
      KeptKeepsHolds(previous[1..], p);
      var head := if previous[0].holders > 0 then [previous[0].(fromConfig := false)] else [];
      HoldsConcat(head, Kept(previous[1..]), p);
    }
  }

  /** One pattern's claim, and the claims of those behind it. */
  lemma ClaimsFrom(topics: seq<string>, i: nat, previous: seq<Filter>)
    requires i < |topics|
    ensures var (first, left) := Claim(previous, topics[i]);
            var (rest, last) := Claims(topics[i + 1..], left);
            Claims(topics[i..], previous) == ([first] + rest, last)
  {
    assert topics[i..][1..] == topics[i + 1..];
  }

  lemma {:induction false} ClaimsAreConfigured(topics: seq<string>, previous: seq<Filter>)
    ensures var next := Claims(topics, previous).0;
            && Patterns(next) == topics && Configured(next) == topics
            && forall i :: 0 <= i < |next| ==> next[i].fromConfig
  {
    if topics != [] {
      var left := Claim(previous, topics[0]).1;
      ClaimsAreConfigured(topics[1..], left);
      var next := Claims(topics, previous).0;
      assert next[1..] == Claims(topics[1..], left).0;
      assert Patterns(next) == [topics[0]] + Patterns(next[1..]);
      assert topics == [topics[0]] + topics[1..];
    }
  }

  lemma {:induction false} KeptEntry(previous: seq<Filter>, i: nat) returns (j: nat)
    requires i < |Kept(previous)|
    ensures j < |previous| && previous[j].holders > 0 && Kept(previous)[i] == previous[j].(fromConfig := false)
  {
    var head := if previous[0].holders > 0 then 1 else 0;
    if i < head {
      j := 0;
    } else {
      var rest := KeptEntry(previous[1..], i - head);
      j := rest + 1;
    }
  }

  /** What is kept is unconfigured and held. */
  lemma KeptIsUnconfigured(previous: seq<Filter>)
    ensures Configured(Kept(previous)) == []
    ensures forall i :: 0 <= i < |Kept(previous)| ==> !Kept(previous)[i].fromConfig && Kept(previous)[i].holders > 0
  {
    forall i | 0 <= i < |Kept(previous)|
      ensures !Kept(previous)[i].fromConfig && Kept(previous)[i].holders > 0
    {
      var j := KeptEntry(previous, i);
    }
    NoneConfigured(Kept(previous));
  }

  lemma {:induction false} NoneConfigured(fs: seq<Filter>)
    requires forall i :: 0 <= i < |fs| ==> !fs[i].fromConfig
    ensures Configured(fs) == []
  {
    if fs != [] {
      NoneConfigured(fs[1..]);
    }
  }

  /** No two entries share a pattern. */
  ghost predicate Apart(fs: seq<Filter>) {
    forall i, j :: 0 <= i < j < |fs| ==> fs[i].pattern != fs[j].pattern
  }

  lemma {:induction false} KeptApart(previous: seq<Filter>)
    requires FirstOnly(previous)
    ensures Apart(Kept(previous))
  {
    if previous != [] {
      var tail := Kept(previous[1..]);
      KeptApart(previous[1..]);
      if previous[0].holders > 0 {
        forall i | 0 <= i < |tail| ensures tail[i].pattern != previous[0].pattern {
          var j := KeptEntry(previous[1..], i);
          assert previous[j + 1] == previous[1..][j];
        }
      }
    }
  }

  /** No entry for `p` has a holder. */
  ghost predicate Unheld(fs: seq<Filter>, p: string) {
    forall i :: 0 <= i < |fs| && fs[i].pattern == p ==> fs[i].holders == 0
  }

  lemma {:induction false} ClaimsOfUnheld(topics: seq<string>, previous: seq<Filter>, p: string)
    requires Unheld(previous, p)
    ensures Unheld(Claims(topics, previous).0, p) && Unheld(Claims(topics, previous).1, p)
  {
    if topics != [] {
      ClaimsOfUnheld(topics[1..], Claim(previous, topics[0]).1, p);
    }
  }

  /** A pattern named twice gets its holders once, on its first entry; nothing left is named. */
  lemma {:induction false} ClaimsFirstOnly(topics: seq<string>, previous: seq<Filter>)
    requires FirstOnly(previous)
    ensures var (next, left) := Claims(topics, previous);
            FirstOnly(next) && FirstOnly(left) && forall p :: p in topics ==> Unheld(left, p)
  {
    if topics != [] {
      var t := topics[0];
      var (first, left) := Claim(previous, t);
      ClaimsFirstOnly(topics[1..], left);
      assert Unheld(left, t);
      ClaimsOfUnheld(topics[1..], left, t);
      ClaimsAreConfigured(topics[1..], left);
    }
  }

  lemma KeptIsUnnamed(topics: seq<string>, left: seq<Filter>, i: nat)
    requires i < |Kept(left)| && forall p :: p in topics ==> Unheld(left, p)
    ensures Kept(left)[i].pattern !in topics
  {
    var j := KeptEntry(left, i);
  }

  /** Configured entries in front of kept ones for other patterns. */
  lemma ValidJoin(next: seq<Filter>, kept: seq<Filter>)
    requires FirstOnly(next) && forall i :: 0 <= i < |next| ==> next[i].fromConfig
    requires Apart(kept) && forall i :: 0 <= i < |kept| ==> !kept[i].fromConfig && kept[i].holders > 0
    requires forall i :: 0 <= i < |kept| ==> kept[i].pattern !in Patterns(next)
    ensures Valid(next + kept)
  {
    assert forall i :: 0 <= i < |next| ==> Patterns(next)[i] == next[i].pattern;
    assert forall i :: 0 <= i < |next| ==> next[i].pattern in Patterns(next);
  }

  lemma ReloadKeepsValid(fs: seq<Filter>, topics: seq<string>)
    requires Valid(fs)
    ensures Valid(Reload(fs, topics)) && Configured(Reload(fs, topics)) == topics
  {
    if Configured(fs) != topics {
      var (next, left) := Claims(topics, fs);
      ClaimsAreConfigured(topics, fs);
      ClaimsFirstOnly(topics, fs);
      KeptApart(left);
      KeptIsUnconfigured(left);
      ConfiguredConcat(next, Kept(left));
      forall i | 0 <= i < |Kept(left)| ensures Kept(left)[i].pattern !in topics {
        KeptIsUnnamed(topics, left, i);
      }
      ValidJoin(next, Kept(left));
    }
  }

  /** A reload replaces the configured sequence and never changes a hold count. */
  lemma ReloadRefines(fs: seq<Filter>, topics: seq<string>)
    requires Valid(fs)
    ensures var after := Reload(fs, topics);
            && Valid(after) && Configured(after) == topics
            && (forall p :: Holds(after, p) == Holds(fs, p))
  {
    ReloadKeepsValid(fs, topics);
    if Configured(fs) != topics {
      var (next, left) := Claims(topics, fs);
      forall p ensures Holds(next + Kept(left), p) == Holds(fs, p) {
        ClaimsKeepHolds(topics, fs, p);
        KeptKeepsHolds(left, p);
        HoldsConcat(next, Kept(left), p);
      }
    }
  }

  // ---- Every run ----------------------------------------------------------------

  datatype Operation = SetFilters(topics: seq<string>) | HoldFilter(pattern: string) | ReleaseFilter(pattern: string)

  function Perform(fs: seq<Filter>, op: Operation): seq<Filter> {
    match op
    case SetFilters(topics) => Reload(fs, topics)
    case HoldFilter(p) => Hold(fs, p)
    case ReleaseFilter(p) => Release(fs, p)
  }

  function PerformAll(fs: seq<Filter>, ops: seq<Operation>): seq<Filter>
    decreases |ops|
  {
    if ops == [] then fs else PerformAll(Perform(fs, ops[0]), ops[1..])
  }

  /** What one operation does to the configured sequence. */
  function ConfiguredBy(configured: seq<string>, op: Operation): seq<string> {
    if op.SetFilters? then op.topics else configured
  }

  /** What one operation does to the hold count of `p`: a release is floored at zero. */
  function HeldBy(n: nat, p: string, op: Operation): nat {
    match op
    case HoldFilter(q) => if q == p then n + 1 else n
    case ReleaseFilter(q) => if q == p && n > 0 then n - 1 else n
    case SetFilters(_) => n
  }

  function ConfiguredAfter(configured: seq<string>, ops: seq<Operation>): seq<string>
    decreases |ops|
  {
    if ops == [] then configured else ConfiguredAfter(ConfiguredBy(configured, ops[0]), ops[1..])
  }

  function HeldAfter(n: nat, p: string, ops: seq<Operation>): nat
    decreases |ops|
  {
    if ops == [] then n else HeldAfter(HeldBy(n, p, ops[0]), p, ops[1..])
  }

  lemma PerformRefines(fs: seq<Filter>, op: Operation, p: string)
    requires Valid(fs)
    ensures Valid(Perform(fs, op)) && Configured(Perform(fs, op)) == ConfiguredBy(Configured(fs), op)
    ensures Holds(Perform(fs, op), p) == HeldBy(Holds(fs, p), p, op)
  {
    match op
    case SetFilters(topics) => ReloadRefines(fs, topics);
    case HoldFilter(q) => HoldRefines(fs, q);
    case ReleaseFilter(q) => ReleaseRefines(fs, q);
  }

  /**
   The list refines (configured sequence, hold count per pattern) over every
   run, and lists exactly the patterns configured or held.
   */
  lemma {:induction false} RunRefines(fs: seq<Filter>, ops: seq<Operation>, p: string)
    requires Valid(fs)
    ensures var after := PerformAll(fs, ops);
            && Valid(after)
            && Configured(after) == ConfiguredAfter(Configured(fs), ops)
            && Holds(after, p) == HeldAfter(Holds(fs, p), p, ops)
            && (p in Patterns(after) <==> p in Configured(after) || Holds(after, p) > 0)
    decreases |ops|
  {
    if ops == [] {
      ListedIsWanted(fs, p);
    } else {
      PerformRefines(fs, ops[0], p);
      RunRefines(Perform(fs, ops[0]), ops[1..], p);
    }
  }
}
