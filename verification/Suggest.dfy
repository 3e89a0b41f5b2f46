/** `suggest`: the known key an unknown one was most likely meant to be. */
module Suggest {
  import opened Common
  import opened EditDistance
  import opened Text
  import opened Utf8

  function Underscored(s: string): string {
    seq(|s|, i requires 0 <= i < |s| => if s[i] == '-' then '_' else s[i])
  }

  /** The same key in another case, or with dashes: a certainty, not a guess. */
  predicate SameKey(unknown: string, candidate: string) {
    Underscored(Lower(unknown)) == Lower(candidate)
  }

  function Budget(unknown: string): nat {
    if |unknown| <= 7 then 1 else 2
  }

  /** How far apart the two are in bytes, which is what the length filter looks at. */
  function ByteGap(unknown: string, candidate: string): nat {
    AbsDiff(ByteLen(Lower(unknown)), ByteLen(Lower(candidate)))
  }

  /**
   `d` is the true edit distance, within the budget; with `filtered`, the byte
   lengths are within it too.
   */
  ghost predicate Near(unknown: string, candidate: string, d: nat, filtered: bool) {
    && IsDistance(Lower(unknown), Lower(candidate), d) && d <= (if |unknown| <= 7 then 1 else 2)
    && (filtered ==> ByteGap(unknown, candidate) <= if |unknown| <= 7 then 1 else 2)
  }

  ghost predicate NoSameKey(unknown: string, known: seq<string>) {
    forall j :: 0 <= j < |known| ==> !SameKey(unknown, known[j])
  }

  /** No candidate is nearer than `d`, and none before `i` as near. */
  ghost predicate Least(unknown: string, known: seq<string>, i: nat, d: nat, filtered: bool) {
    && (forall j, e: nat :: 0 <= j < |known| && Near(unknown, known[j], e, filtered) ==> d <= e)
    && (forall j, e: nat :: 0 <= j < |known| && j < i && Near(unknown, known[j], e, filtered) ==> d < e)
  }

  /** `known[i]` is the first same key, or with none the first of the nearest. */
  ghost predicate Chosen(unknown: string, known: seq<string>, i: nat, filtered: bool) {
    && i < |known|
    && if NoSameKey(unknown, known)
       then exists d: nat :: Near(unknown, known[i], d, filtered) && Least(unknown, known, i, d, filtered)
       else SameKey(unknown, known[i]) && NoSameKey(unknown, known[..i])
  }

  // ---- The same on a list of distances -----------------------------------------------

  /** The distance of a candidate that is near. */
  function Distance(unknown: string, candidate: string, filtered: bool): Option<nat> {
    var d := Table(Lower(unknown), Lower(candidate));
    if d <= Budget(unknown) && (filtered ==> ByteGap(unknown, candidate) <= Budget(unknown)) then Some(d) else None
  }

  function Distances(unknown: string, known: seq<string>, filtered: bool): seq<Option<nat>> {
    seq(|known|, i requires 0 <= i < |known| => Distance(unknown, known[i], filtered))
  }

  lemma NearIsDistance(unknown: string, candidate: string, filtered: bool)
    ensures forall d: nat ::
              Near(unknown, candidate, d, filtered) <==> Distance(unknown, candidate, filtered) == Some(d)
  {
    TableIsDistance(Lower(unknown), Lower(candidate));
  }

  /** `ds[i]` is the first of the least distances present. */
  ghost predicate FirstLeast(ds: seq<Option<nat>>, i: nat) {
    && i < |ds| && ds[i].Some?
    && (forall j :: 0 <= j < |ds| && ds[j].Some? ==> ds[i].value <= ds[j].value)
    && (forall j :: 0 <= j < i && ds[j].Some? ==> ds[i].value < ds[j].value)
  }

  lemma LeastIsFirstLeast(unknown: string, known: seq<string>, i: nat, filtered: bool)
    requires i < |known|
    ensures (exists d: nat :: Near(unknown, known[i], d, filtered) && Least(unknown, known, i, d, filtered))
       <==> FirstLeast(Distances(unknown, known, filtered), i)
  {
    var ds := Distances(unknown, known, filtered);
    forall j | 0 <= j < |known|
      ensures forall e: nat :: Near(unknown, known[j], e, filtered) <==> ds[j] == Some(e)
    {
      NearIsDistance(unknown, known[j], filtered);
    }
    if FirstLeast(ds, i) {
      assert Near(unknown, known[i], ds[i].value, filtered);
      assert Least(unknown, known, i, ds[i].value, filtered);
    } else if d: nat :| Near(unknown, known[i], d, filtered) && Least(unknown, known, i, d, filtered) {
      assert ds[i] == Some(d);
      forall j | 0 <= j < |ds| && ds[j].Some? ensures d <= ds[j].value && (j < i ==> d < ds[j].value) {
        assert Near(unknown, known[j], ds[j].value, filtered);
      }
    }
  }

  /** There is at most one key to choose. */
  lemma ChosenIsUnique(unknown: string, known: seq<string>, i: nat, j: nat, filtered: bool)
    requires Chosen(unknown, known, i, filtered) && Chosen(unknown, known, j, filtered)
    ensures i == j
  {
    LeastIsFirstLeast(unknown, known, i, filtered);
    LeastIsFirstLeast(unknown, known, j, filtered);
    assert forall k :: 0 <= k < i ==> known[..i][k] == known[k];
    assert forall k :: 0 <= k < j ==> known[..j][k] == known[k];
  }

  /** `at` is the first of the least among the first `k` distances, if any of them is present. */
  ghost predicate Leading(ds: seq<Option<nat>>, k: nat, at: Option<nat>) {
    && k <= |ds|
    && (at.Some? ==> FirstLeast(ds[..k], at.value))
    && (at.None? ==> forall j :: 0 <= j < k ==> ds[j].None?)
  }

  ghost function Next(ds: seq<Option<nat>>, k: nat, at: Option<nat>): Option<nat>
    requires k < |ds| && Leading(ds, k, at)
  {
    if ds[k].Some? && (at.None? || ds[k].value < ds[at.value].value) then Some(k) else at
  }

  /** One more distance: the running best is still the first of the least. */
  lemma LeadingStep(ds: seq<Option<nat>>, k: nat, at: Option<nat>)
    requires k < |ds| && Leading(ds, k, at)
    ensures Leading(ds, k + 1, Next(ds, k, at))
  {
    assert ds[..k + 1] == ds[..k] + [ds[k]];
  }

  lemma NoSameKeyStep(unknown: string, known: seq<string>, k: nat)
    requires k < |known| && NoSameKey(unknown, known[..k]) && !SameKey(unknown, known[k])
    ensures NoSameKey(unknown, known[..k + 1])
  {
    assert known[..k + 1] == known[..k] + [known[k]];
  }

  /** The whole list seen without a same key: the leader, if any, is the choice. */
  lemma LeaderIsChosen(unknown: string, known: seq<string>, at: Option<nat>, filtered: bool)
    requires NoSameKey(unknown, known[..|known|]) && Leading(Distances(unknown, known, filtered), |known|, at)
    ensures at.Some? ==> Chosen(unknown, known, at.value, filtered)
    ensures at.None? ==> forall i: nat :: !Chosen(unknown, known, i, filtered)
  {
    assert known[..|known|] == known;
    var ds := Distances(unknown, known, filtered);
    assert ds[..|known|] == ds;
    forall i: nat | i < |known| ensures Chosen(unknown, known, i, filtered) <==> FirstLeast(ds, i) {
      LeastIsFirstLeast(unknown, known, i, filtered);
    }
  }

  lemma SameKeyIsChosen(unknown: string, known: seq<string>, k: nat, filtered: bool)
    requires k < |known| && SameKey(unknown, known[k]) && NoSameKey(unknown, known[..k])
    ensures Chosen(unknown, known, k, filtered)
  {
  }

  /** The table's answer for one candidate. */
  method DistanceTo(unknown: string, candidate: string, lower: string, normalized: string, budget: nat)
    returns (d: Option<nat>)
    requires lower == Lower(unknown) && normalized == Lower(candidate) && budget == Budget(unknown)
    ensures d == Distance(unknown, candidate, true)
  {
    d := DistanceWithin(lower, normalized, budget);
  }

  /** `suggest`: the first same key, or the first of the nearest the length filter lets through. */
  method Suggest(unknown: string, known: seq<string>) returns (r: Option<string>)
    ensures |unknown| <= 3 ==> r == None
    ensures |unknown| > 3 && r.Some? ==> exists i: nat :: Chosen(unknown, known, i, true) && known[i] == r.value
    ensures |unknown| > 3 && r.None? ==> forall i: nat :: !Chosen(unknown, known, i, true)
  {
    if |unknown| <= 3 {
      return None;
    }
    var budget := if |unknown| <= 7 then 1 else 2;
    var lower := Lower(unknown);
    var best: Option<(nat, string)> := None;
    ghost var at: Option<nat> := None;
    ghost var ds := Distances(unknown, known, true);
    for k := 0 to |known|
      invariant NoSameKey(unknown, known[..k]) && Leading(ds, k, at)
      invariant best == if at.Some? then Some((ds[at.value].value, known[at.value])) else None
    {
      var normalized := Lower(known[k]);
      if Underscored(lower) == normalized {
        SameKeyIsChosen(unknown, known, k, true);
        return Some(known[k]);
      }
      NoSameKeyStep(unknown, known, k);
      var d := DistanceTo(unknown, known[k], lower, normalized, budget);
      assert d == ds[k];
      LeadingStep(ds, k, at);
      at := Next(ds, k, at);
      if d.Some? && (best.None? || d.value < best.value.0) {
        best := Some((d.value, known[k]));
      }
    }
    LeaderIsChosen(unknown, known, at, true);
    if best.None? {
      return None;
    }
    return Some(best.value.1);
  }

  // ---- When the length filter hides the right key ------------------------------------------

  lemma {:induction false} LeaderOf(ds: seq<Option<nat>>, k: nat) returns (at: Option<nat>)
    requires k <= |ds|
    ensures Leading(ds, k, at)
  {
    if k == 0 {
      at := None;
    } else {
      var before := LeaderOf(ds, k - 1);
      LeadingStep(ds, k - 1, before);
      at := Next(ds, k - 1, before);
    }
  }

  /** Hiding some distances leaves the leader as it was exactly when the leader itself is not hidden. */
  lemma HidingKeepsTheLeader(all: seq<Option<nat>>, some: seq<Option<nat>>)
    requires |all| == |some| && forall i :: 0 <= i < |all| ==> some[i] == all[i] || some[i].None?
    ensures (forall i: nat :: FirstLeast(some, i) <==> FirstLeast(all, i))
       <==> (forall i: nat :: FirstLeast(all, i) ==> some[i] == all[i])
  {
    if forall i: nat :: FirstLeast(all, i) ==> some[i] == all[i] {
      forall i: nat ensures FirstLeast(some, i) <==> FirstLeast(all, i) {
        if FirstLeast(some, i) {
          var at := LeaderOf(all, |all|);
          assert all[..|all|] == all;
          assert all[i].Some?;
          assert FirstLeast(all, at.value) && FirstLeast(some, at.value);
        }
      }
    }
  }

  /**
   For any text: what the code picks is the truly nearest key, for every
   candidate, exactly when there is a same key or the nearest key's byte length
   is within the budget of the unknown one's.
   */
  lemma PicksTheNearestWhen(unknown: string, known: seq<string>)
    ensures (forall i: nat :: Chosen(unknown, known, i, true) <==> Chosen(unknown, known, i, false))
       <==> (NoSameKey(unknown, known) ==>
               forall i: nat :: Chosen(unknown, known, i, false) ==> ByteGap(unknown, known[i]) <= Budget(unknown))
  {
    if NoSameKey(unknown, known) {
      var all, some := Distances(unknown, known, false), Distances(unknown, known, true);
      forall i: nat
        ensures Chosen(unknown, known, i, true) <==> FirstLeast(some, i)
        ensures Chosen(unknown, known, i, false) <==> FirstLeast(all, i)
      {
        if i < |known| {
          LeastIsFirstLeast(unknown, known, i, true);
          LeastIsFirstLeast(unknown, known, i, false);
        }
      }
      HidingKeepsTheLeader(all, some);
      forall i: nat | FirstLeast(all, i)
        ensures some[i] == all[i] <==> ByteGap(unknown, known[i]) <= Budget(unknown)
      {
      }
    }
  }

  lemma LowerIsAscii(s: string)
    requires IsAscii(s)
    ensures IsAscii(Lower(s)) && ByteLen(Lower(s)) == |s|
  {
    AsciiByteLen(Lower(s));
  }

  /** On ASCII keys the filter hides nothing: the pick is the truly nearest key. */
  lemma AsciiPicksTheNearest(unknown: string, known: seq<string>)
    requires IsAscii(unknown) && forall j :: 0 <= j < |known| ==> IsAscii(known[j])
    ensures forall i: nat :: Chosen(unknown, known, i, true) <==> Chosen(unknown, known, i, false)
  {
    forall i: nat | NoSameKey(unknown, known) && Chosen(unknown, known, i, false)
      ensures ByteGap(unknown, known[i]) <= Budget(unknown)
    {
      LowerIsAscii(unknown);
      LowerIsAscii(known[i]);
      LengthGapIsLower(Lower(unknown), Lower(known[i]));
      NearIsDistance(unknown, known[i], false);
    }
    PicksTheNearestWhen(unknown, known);
  }

  /** A real miss: one character replaced by an emoji, and the only candidate is passed over. */
  lemma EmojiHidesPath()
    ensures Chosen("p\U{1F389}th", ["path"], 0, false)
    ensures forall i: nat :: !Chosen("p\U{1F389}th", ["path"], i, true)
  {
    var unknown, known := "p\U{1F389}th", ["path"];
    assert Lower(unknown) == unknown && Lower("path") == "path";
    assert Underscored(unknown)[1] == unknown[1];
    FilterHidesAnEmoji();
    ByteLenOfMiss(unknown, "path");
    HiddenAlone(unknown, "path");
  }

  lemma HiddenAlone(unknown: string, key: string)
    requires !SameKey(unknown, key) && IsDistance(Lower(unknown), Lower(key), 1)
    requires ByteGap(unknown, key) > Budget(unknown)
    ensures Chosen(unknown, [key], 0, false) && forall i: nat :: !Chosen(unknown, [key], i, true)
  {
    NearIsDistance(unknown, key, false);
    assert Near(unknown, [key][0], 1, false) && Least(unknown, [key], 0, 1, false);
  }

  /** Character by character: the same letter in either case, or a dash where the key has an underscore. */
  lemma SameKeyMeans(unknown: string, candidate: string)
    ensures SameKey(unknown, candidate)
       <==> |unknown| == |candidate| && forall i :: 0 <= i < |unknown| ==>
              (if unknown[i] == '-' then '_' else LowerChar(unknown[i])) == LowerChar(candidate[i])
  {
    var u, k := Underscored(Lower(unknown)), Lower(candidate);
    if |unknown| == |candidate| {
      forall i | 0 <= i < |unknown|
        ensures u[i] == k[i] <==>
                (if unknown[i] == '-' then '_' else LowerChar(unknown[i])) == LowerChar(candidate[i])
      {
      }
      if forall i :: 0 <= i < |unknown| ==> u[i] == k[i] {
        assert u == k;
      }
    }
  }
}
