/**
 The message bus: the process's topic filters, the live connections, and the
 frames that keep the server's idea of a subscription in step with them.
 */
module Bus {
  import opened Common
  import opened Filters
  import opened Duplicates
  import opened Text
  import opened Utf8

  /**
   One attached connection. `subscribed` is what the server holds for it after
   the frames sent on it so far: a Subscribe adds, an Unsubscribe removes.
   */
  datatype Writer = Writer(id: string, subscribed: set<string>)

  function PatternSet(fs: seq<Filter>): set<string> {
    set p | p in Patterns(fs)
  }

  // ---- Operations on the connections ---------------------------------------------

  function Detached(ws: seq<Writer>, id: string): seq<Writer> {
    if ws == [] then []
    else (if ws[0].id == id then [] else [ws[0]]) + Detached(ws[1..], id)
  }

  /** `attach` then `subscribe_on`, as a connection does both when it comes up. */
  function Attached(ws: seq<Writer>, id: string, fs: seq<Filter>): seq<Writer> {
    Detached(ws, id) + [Writer(id, PatternSet(fs))]
  }

  lemma DetachedAt(ws: seq<Writer>, id: string, i: nat, here: seq<Writer>)
    requires i < |ws| && here == if ws[i].id == id then [] else [ws[i]]
    ensures Detached(ws[i..], id) == here + Detached(ws[i + 1..], id)
  {
    assert ws[i..][1..] == ws[i + 1..];
  }

  /** Exactly the writers under that id go. */
  lemma {:induction false} DetachedAreAttached(ws: seq<Writer>, id: string)
    ensures forall w :: w in Detached(ws, id) <==> w in ws && w.id != id
  {
    if ws != [] {
      DetachedAreAttached(ws[1..], id);
    }
  }

  /** `resubscribe_all`: the full filter set, on every connection. */
  function Resubscribed(ws: seq<Writer>, fs: seq<Filter>): seq<Writer> {
    seq(|ws|, i requires 0 <= i < |ws| => ws[i].(subscribed := ws[i].subscribed + PatternSet(fs)))
  }

  /** `unsubscribe_everywhere`. */
  function Unsubscribed(ws: seq<Writer>, p: string): seq<Writer> {
    seq(|ws|, i requires 0 <= i < |ws| => ws[i].(subscribed := ws[i].subscribed - {p}))
  }

  // ---- The faces' handlers, each taken as one step -----------------------------------

  datatype State = State(fs: seq<Filter>, ws: seq<Writer>)

  /** `hold_filter`, and `resubscribe_all` when it says the filter is new. */
  function TakeHold(b: State, p: string): State {
    var fs := Hold(b.fs, p);
    State(fs, if Position(b.fs, p).None? then Resubscribed(b.ws, fs) else b.ws)
  }

  /** `release_filter`, and `unsubscribe_everywhere` when it says the filter is gone. */
  function DropHold(b: State, p: string): State {
    var fs := Release(b.fs, p);
    State(fs, if |fs| < |b.fs| then Unsubscribed(b.ws, p) else b.ws)
  }

  function DropAll(b: State, ps: seq<string>): State
    decreases |ps|
  {
    if ps == [] then b else DropAll(DropHold(b, ps[0]), ps[1..])
  }

  /** `set_filters`, and `resubscribe_all` when it says the list changed. */
  function Reconfigure(b: State, topics: seq<string>): State {
    var fs := Reload(b.fs, topics);
    State(fs, if Configured(b.fs) != topics then Resubscribed(b.ws, fs) else b.ws)
  }

  /** `validate_topic_filter`. */
  predicate ValidTopicFilter(s: string) {
    var levels := Split(s, '/');
    && s != "" && ByteLen(s) <= 512
    && forall i :: 0 <= i < |levels| ==> UsableLevel(levels[i], i + 1 == |levels|)
  }

  predicate UsableLevel(level: string, last: bool) {
    && ('#' in level ==> level == "#")
    && ('+' in level ==> level == "+")
    && (level == "#" ==> last)
  }

  /** The Subscribe arm of `handle`: one hold per session per valid filter. */
  function SubscribeAll(b: State, mine: seq<string>, paths: seq<string>): (State, seq<string>)
    decreases |paths|
  {
    if paths == [] then (b, mine)
    else if ValidTopicFilter(paths[0]) && paths[0] !in mine
    then SubscribeAll(TakeHold(b, paths[0]), mine + [paths[0]], paths[1..])
    else SubscribeAll(b, mine, paths[1..])
  }

  function Chosen(mine: seq<string>, topics: seq<string>, inside: bool): seq<string> {
    if mine == [] then []
    else (if (mine[0] in topics) == inside then [mine[0]] else []) + Chosen(mine[1..], topics, inside)
  }

  /** The Unsubscribe arm of `handle`. */
  function UnsubscribeAll(b: State, mine: seq<string>, topics: seq<string>): (State, seq<string>) {
    (DropAll(b, Chosen(mine, topics, true)), Chosen(mine, topics, false))
  }

  // ---- What the handlers mean -------------------------------------------------------

  ghost predicate NoRepeats(xs: seq<string>) {
    forall i, j :: 0 <= i < j < |xs| ==> xs[i] != xs[j]
  }

  predicate ValidLevel(level: string, last: bool) {
    level == "+" || (level == "#" && last) || ('+' !in level && '#' !in level)
  }

  /** A filter is its levels joined by slashes: wildcards stand alone, and `#` only at the end. */
  lemma ValidTopicFilterMeans(levels: seq<string>)
    requires levels != [] && forall i :: 0 <= i < |levels| ==> '/' !in levels[i]
    ensures ValidTopicFilter(Join(levels, '/'))
       <==> && Join(levels, '/') != "" && ByteLen(Join(levels, '/')) <= 512
            && forall i :: 0 <= i < |levels| ==> ValidLevel(levels[i], i == |levels| - 1)
  {
    SplitJoin(levels, '/');
    forall i | 0 <= i < |levels|
      ensures UsableLevel(levels[i], i + 1 == |levels|) <==> ValidLevel(levels[i], i == |levels| - 1)
    {
      UsableIsValid(levels[i], i + 1 == |levels|);
    }
  }

  lemma UsableIsValid(level: string, last: bool)
    ensures UsableLevel(level, last) <==> ValidLevel(level, last)
  {
  }

  /** Giving back filters that are held takes exactly one hold off each. */
  lemma {:induction false} DropAllCounts(b: State, ps: seq<string>, p: string)
    requires Valid(b.fs) && NoRepeats(ps) && (forall q :: q in ps ==> Holds(b.fs, q) > 0)
    ensures Valid(DropAll(b, ps).fs) && Configured(DropAll(b, ps).fs) == Configured(b.fs)
    ensures Holds(DropAll(b, ps).fs, p) == Holds(b.fs, p) - (if p in ps then 1 else 0)
    decreases |ps|
  {
    if ps != [] {
      ReleaseRefines(b.fs, ps[0]);
      DropAllCounts(DropHold(b, ps[0]), ps[1..], p);
    }
  }

  /** Subscribing takes exactly one hold per filter the session did not have yet. */
  lemma {:induction false} SubscribeAllCounts(b: State, mine: seq<string>, paths: seq<string>, p: string)
    requires Valid(b.fs) && NoRepeats(mine)
    ensures var (after, now) := SubscribeAll(b, mine, paths);
            && Valid(after.fs) && NoRepeats(now) && mine <= now
            && Holds(after.fs, p) == Holds(b.fs, p) + (if p in now && p !in mine then 1 else 0)
    decreases |paths|
  {
    if paths != [] {
      if ValidTopicFilter(paths[0]) && paths[0] !in mine {
        HoldRefines(b.fs, paths[0]);
        SubscribeAllCounts(TakeHold(b, paths[0]), mine + [paths[0]], paths[1..], p);
        var now := SubscribeAll(b, mine, paths).1;
        assert now[|mine|] == (mine + [paths[0]])[|mine|];
      } else {
        SubscribeAllCounts(b, mine, paths[1..], p);
      }
    }
  }

  /** Exactly the valid filters asked for are added to what the session holds. */
  lemma {:induction false} SubscribedAre(b: State, mine: seq<string>, paths: seq<string>, p: string)
    ensures p in SubscribeAll(b, mine, paths).1 <==> p in mine || (p in paths && ValidTopicFilter(p))
    decreases |paths|
  {
    if paths != [] {
      assert p in paths <==> p == paths[0] || p in paths[1..];
      if ValidTopicFilter(paths[0]) && paths[0] !in mine {
        SubscribedAre(TakeHold(b, paths[0]), mine + [paths[0]], paths[1..], p);
      } else {
        SubscribedAre(b, mine, paths[1..], p);
      }
    }
  }

  lemma {:induction false} ChosenSplits(mine: seq<string>, topics: seq<string>, inside: bool)
    requires NoRepeats(mine)
    ensures NoRepeats(Chosen(mine, topics, inside))
    ensures forall p :: p in Chosen(mine, topics, inside) <==> p in mine && (p in topics) == inside
  {
    if mine != [] {
      ChosenSplits(mine[1..], topics, inside);
    }
  }

  lemma {:induction false} ChosenAre(mine: seq<string>, topics: seq<string>, inside: bool, p: string)
    ensures p in Chosen(mine, topics, inside) <==> p in mine && (p in topics) == inside
  {
    if mine != [] {
      ChosenAre(mine[1..], topics, inside, p);
      assert p in mine <==> p == mine[0] || p in mine[1..];
    }
  }

  /** The session keeps what it does not name, and exactly what it names and has loses one hold. */
  lemma UnsubscribedAre(b: State, mine: seq<string>, topics: seq<string>, p: string)
    ensures p in UnsubscribeAll(b, mine, topics).1 <==> p in mine && p !in topics
    ensures Valid(b.fs) && NoRepeats(mine) && (forall q :: q in mine ==> Holds(b.fs, q) > 0) ==>
              Holds(UnsubscribeAll(b, mine, topics).0.fs, p)
                == Holds(b.fs, p) - (if p in mine && p in topics then 1 else 0)
  {
    ChosenAre(mine, topics, false, p);
    ChosenAre(mine, topics, true, p);
    if Valid(b.fs) && NoRepeats(mine) && (forall q :: q in mine ==> Holds(b.fs, q) > 0) {
      ChosenSplits(mine, topics, true);
      DropAllCounts(b, Chosen(mine, topics, true), p);
    }
  }

  // ---- The bus object -------------------------------------------------------------

  /** The loop of `set_filters`: each configured pattern takes over its entry, or gets a new one. */
  method ClaimEach(topics: seq<string>, filters: seq<Filter>) returns (next: seq<Filter>, left: seq<Filter>)
    ensures (next, left) == Claims(topics, filters)
  {
    next, left := [], filters;
    ghost var (claimed, last) := Claims(topics, filters);
    assert topics[0..] == topics;
    for i := 0 to |topics|
      invariant claimed == next + Claims(topics[i..], left).0 && last == Claims(topics[i..], left).1
    {
      ClaimsFrom(topics, i, left);
      var at := Position(left, topics[i]);
      if at.Some? {
        next := next + [Filter(topics[i], true, left[at.value].holders)];
        left := WithoutAt(left, at.value);
      } else {
        next := next + [Filter(topics[i], true, 0)];
      }
    }
    assert topics[|topics|..] == [] && next + [] == next;
  }

  class MessageBus {
    var filters: seq<Filter>
    var writers: seq<Writer>
    var seen: seq<Sighting>

    ghost function Value(): State
      reads this
    {
      State(filters, writers)
    }

    constructor (patterns: seq<string>)
      ensures filters == Fresh(patterns) && writers == [] && seen == []
    {
      filters := [];
      writers := [];
      seen := [];
      new;
      for i := 0 to |patterns|
        invariant filters == Fresh(patterns[..i]) && writers == [] && seen == []
      {
        filters := filters + [Filter(patterns[i], true, 0)];
        assert patterns[..i + 1] == patterns[..i] + [patterns[i]];
      }
      assert patterns[..|patterns|] == patterns;
    }

    /** `set_filters`. */
    method SetFilters(topics: seq<string>) returns (changed: bool)
      requires Valid(filters)
      modifies this`filters
      ensures filters == Reload(old(filters), topics)
      ensures Valid(filters) && Configured(filters) == topics
      ensures forall p :: Holds(filters, p) == Holds(old(filters), p)
      ensures changed <==> Configured(old(filters)) != topics
    {
      ReloadRefines(filters, topics);
      if Configured(filters) == topics {
        return false;
      }
      var next, left := ClaimEach(topics, filters);
      filters := next + Kept(left);
      return true;
    }

    /** `hold_filter`. */
    method HoldFilter(p: string) returns (isNew: bool)
      requires Valid(filters)
      modifies this`filters
      ensures filters == Hold(old(filters), p)
      ensures Valid(filters) && Configured(filters) == Configured(old(filters))
      ensures forall q :: Holds(filters, q) == Holds(old(filters), q) + (if q == p then 1 else 0)
      ensures isNew <==> !Wanted(old(filters), p)
    {
      HoldRefines(filters, p);
      var at := Position(filters, p);
      if at.Some? {
        filters := filters[at.value := filters[at.value].(holders := filters[at.value].holders + 1)];
        return false;
      }
      filters := filters + [Filter(p, false, 1)];
      return true;
    }

    /** A hold, and every connection told when the filter is new. */
    method HoldAndTell(p: string)
      requires Valid(filters)
      modifies this`filters, this`writers
      ensures Valid(filters) && Value() == TakeHold(old(Value()), p)
    {
      ListedIsWanted(filters, p);
      var isNew := HoldFilter(p);
      if isNew {
        ResubscribeAll();
      }
    }

    /** `release_filter`. */
    method ReleaseFilter(p: string) returns (gone: bool)
      requires Valid(filters)
      modifies this`filters
      ensures filters == Release(old(filters), p)
      ensures Valid(filters) && Configured(filters) == Configured(old(filters))
      ensures forall q ::
                Holds(filters, q) == Holds(old(filters), q) - (if q == p && Holds(old(filters), p) > 0 then 1 else 0)
      ensures gone <==> Wanted(old(filters), p) && !Wanted(filters, p)
    {
      ReleaseRefines(filters, p);
      var at := Position(filters, p);
      if at.None? {
        return false;
      }
      var entry := Lowered(filters[at.value]);
      if entry.holders > 0 || entry.fromConfig {
        filters := filters[at.value := entry];
        return false;
      }
      filters := WithoutAt(filters, at.value);
      return true;
    }

    method ResubscribeAll()
      modifies this`writers
      ensures writers == Resubscribed(old(writers), filters)
    {
      for i := 0 to |writers|
        invariant |writers| == |old(writers)|
        invariant forall k :: 0 <= k < i ==> writers[k] == Resubscribed(old(writers), filters)[k]
        invariant forall k :: i <= k < |writers| ==> writers[k] == old(writers)[k]
      {
        var w := writers[i].(subscribed := writers[i].subscribed + PatternSet(filters));
        assert w == Resubscribed(old(writers), filters)[i];
        writers := writers[i := w];
      }
    }

    method UnsubscribeEverywhere(p: string)
      modifies this`writers
      ensures writers == Unsubscribed(old(writers), p)
    {
      for i := 0 to |writers|
        invariant |writers| == |old(writers)|
        invariant forall k :: 0 <= k < i ==> writers[k] == Unsubscribed(old(writers), p)[k]
        invariant forall k :: i <= k < |writers| ==> writers[k] == old(writers)[k]
      {
        var w := writers[i].(subscribed := writers[i].subscribed - {p});
        assert w == Unsubscribed(old(writers), p)[i];
        writers := writers[i := w];
      }
    }

    method Attach(id: string)
      modifies this`writers
      ensures writers == Attached(old(writers), id, filters)
      ensures writers[|writers| - 1] == Writer(id, PatternSet(filters))
      ensures forall i :: 0 <= i < |writers| - 1 ==> writers[i].id != id
      ensures forall w: Writer :: w.id != id ==> (w in writers <==> w in old(writers))
    {
      Detach(id);
      assert forall i :: 0 <= i < |writers| ==> writers[i] in writers;
      writers := writers + [Writer(id, PatternSet(filters))];
    }

    method Detach(id: string)
      modifies this`writers
      ensures writers == Detached(old(writers), id)
      ensures forall w :: w in writers <==> w in old(writers) && w.id != id
    {
      var kept: seq<Writer> := [];
      for i := 0 to |writers|
        invariant writers == old(writers)
        invariant Detached(writers, id) == kept + Detached(writers[i..], id)
      {
        var here := if writers[i].id == id then [] else [writers[i]];
        DetachedAt(writers, id, i, here);
        Regroup(kept, here, Detached(writers[i + 1..], id));
        kept := kept + here;
      }
      assert writers[|writers|..] == [] && kept + [] == kept;
      writers := kept;
      DetachedAreAttached(old(writers), id);
    }

    /** `is_duplicate`, with the clock read by the caller. */
    method IsDuplicate(id: string, now: int) returns (duplicate: bool)
      modifies this`seen
      ensures seen == Asked(old(seen), id, now)
      ensures duplicate <==> Knows(Pruned(old(seen), now), id)
    {
      while seen != [] && Expired(seen[0], now)
        invariant Pruned(seen, now) == Pruned(old(seen), now)
        decreases |seen|
      {
        seen := seen[1..];
      }
      if exists i :: 0 <= i < |seen| && seen[i].id == id {
        return true;
      }
      if |seen| >= SEEN_MAX {
        seen := seen[1..];
      }
      seen := seen + [Sighting(id, now)];
      return false;
    }
  }

  lemma SubscribeMeans(b: State, mine: seq<string>, paths: seq<string>)
    requires Valid(b.fs)
    ensures var (after, now) := SubscribeAll(b, mine, paths);
            && (forall p :: p in now <==> p in mine || (p in paths && ValidTopicFilter(p)))
            && (NoRepeats(mine) ==> NoRepeats(now) && forall p ::
                  Holds(after.fs, p) == Holds(b.fs, p) + (if p in now && p !in mine then 1 else 0))
  {
    var (after, now) := SubscribeAll(b, mine, paths);
    forall p ensures p in now <==> p in mine || (p in paths && ValidTopicFilter(p)) {
      SubscribedAre(b, mine, paths, p);
    }
    if NoRepeats(mine) {
      SubscribeAllCounts(b, mine, paths, "");
      forall p ensures Holds(after.fs, p) == Holds(b.fs, p) + (if p in now && p !in mine then 1 else 0) {
        SubscribeAllCounts(b, mine, paths, p);
      }
    }
  }

  lemma UnsubscribeMeans(b: State, mine: seq<string>, topics: seq<string>)
    requires Valid(b.fs)
    ensures var (after, now) := UnsubscribeAll(b, mine, topics);
            && (forall p :: p in now <==> p in mine && p !in topics)
            && (NoRepeats(mine) && (forall p :: p in mine ==> Holds(b.fs, p) > 0) ==> forall p ::
                  Holds(after.fs, p) == Holds(b.fs, p) - (if p in mine && p in topics then 1 else 0))
  {
    forall p {
      UnsubscribedAre(b, mine, topics, p);
    }
  }

  lemma EndMeans(b: State, mine: seq<string>)
    requires Valid(b.fs)
    ensures NoRepeats(mine) && (forall p :: p in mine ==> Holds(b.fs, p) > 0) ==> forall p ::
              Holds(DropAll(b, mine).fs, p) == Holds(b.fs, p) - (if p in mine then 1 else 0)
  {
    if NoRepeats(mine) && (forall p :: p in mine ==> Holds(b.fs, p) > 0) {
      forall p ensures Holds(DropAll(b, mine).fs, p) == Holds(b.fs, p) - (if p in mine then 1 else 0) {
        DropAllCounts(b, mine, p);
      }
    }
  }

  // ---- The two faces -----------------------------------------------------------------

  /** One MQTT connection's own filter list, beside the bus it holds them on. */
  class MqttSession {
    var mine: seq<string>

    constructor ()
      ensures mine == []
    {
      mine := [];
    }

    method Subscribe(bus: MessageBus, paths: seq<string>)
      requires Valid(bus.filters)
      modifies this, bus`filters, bus`writers
      ensures Valid(bus.filters)
      ensures (bus.Value(), mine) == SubscribeAll(old(bus.Value()), old(mine), paths)
      ensures forall p :: p in mine <==> p in old(mine) || (p in paths && ValidTopicFilter(p))
      ensures NoRepeats(old(mine)) ==> NoRepeats(mine) && forall p ::
                Holds(bus.filters, p) == Holds(old(bus.filters), p) + (if p in mine && p !in old(mine) then 1 else 0)
    {
      SubscribeEach(bus, paths);
      SubscribeMeans(old(bus.Value()), old(mine), paths);
    }

    method SubscribeEach(bus: MessageBus, paths: seq<string>)
      requires Valid(bus.filters)
      modifies this, bus`filters, bus`writers
      ensures Valid(bus.filters)
      ensures (bus.Value(), mine) == SubscribeAll(old(bus.Value()), old(mine), paths)
    {
      assert paths[0..] == paths;
      for i := 0 to |paths|
        invariant Valid(bus.filters)
        invariant SubscribeAll(bus.Value(), mine, paths[i..]) == SubscribeAll(old(bus.Value()), old(mine), paths)
      {
        assert paths[i..][1..] == paths[i + 1..];
        if ValidTopicFilter(paths[i]) && paths[i] !in mine {
          mine := mine + [paths[i]];
          bus.HoldAndTell(paths[i]);
        }
      }
    }

    method Unsubscribe(bus: MessageBus, topics: seq<string>)
      requires Valid(bus.filters)
      modifies this, bus`filters, bus`writers
      ensures Valid(bus.filters)
      ensures (bus.Value(), mine) == UnsubscribeAll(old(bus.Value()), old(mine), topics)
      ensures forall p :: p in mine <==> p in old(mine) && p !in topics
      ensures NoRepeats(old(mine)) && (forall p :: p in old(mine) ==> Holds(old(bus.filters), p) > 0) ==> forall p ::
                Holds(bus.filters, p)
                  == Holds(old(bus.filters), p) - (if p in old(mine) && p in topics then 1 else 0)
    {
      var dropped := Chosen(mine, topics, true);
      mine := Chosen(mine, topics, false);
      ReleaseEach(bus, dropped);
      UnsubscribeMeans(old(bus.Value()), old(mine), topics);
    }

    /** The end of `session`: every filter given back, whatever ended it. */
    method End(bus: MessageBus)
      requires Valid(bus.filters)
      modifies this, bus`filters, bus`writers
      ensures Valid(bus.filters)
      ensures bus.Value() == DropAll(old(bus.Value()), old(mine)) && mine == []
      ensures NoRepeats(old(mine)) && (forall p :: p in old(mine) ==> Holds(old(bus.filters), p) > 0) ==> forall p ::
                Holds(bus.filters, p) == Holds(old(bus.filters), p) - (if p in old(mine) then 1 else 0)
    {
      ReleaseEach(bus, mine);
      mine := [];
      EndMeans(old(bus.Value()), old(mine));
    }
  }

  method ReleaseEach(bus: MessageBus, ps: seq<string>)
    requires Valid(bus.filters)
    modifies bus`filters, bus`writers
    ensures Valid(bus.filters)
    ensures bus.Value() == DropAll(old(bus.Value()), ps)
  {
    assert ps[0..] == ps;
    for i := 0 to |ps|
      invariant Valid(bus.filters)
      invariant DropAll(bus.Value(), ps[i..]) == DropAll(old(bus.Value()), ps)
    {
      assert ps[i..][1..] == ps[i + 1..];
      ReleaseRefines(bus.filters, ps[i]);
      var gone := bus.ReleaseFilter(ps[i]);
      if gone {
        bus.UnsubscribeEverywhere(ps[i]);
      }
    }
  }
}
