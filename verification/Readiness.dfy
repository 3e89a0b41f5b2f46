/**
 The readiness map `depends_on` reads: how many live connections carry each
 named service. A connection announces its names one by one as it opens and
 takes them back one by one as it closes, interleaved with every other.
 */
module Readiness {
  import opened Common

  /** A connection's service names; the first `up` are announced, the first `down` taken back. */
  datatype Connection = Connection(names: seq<string>, up: nat, down: nat)

  datatype State = State(live: map<string, nat>, connections: seq<Connection>)

  datatype Event =
    | Open(names: seq<string>)
    | Announce(c: nat)
    | TakeBack(c: nat)

  predicate Enabled(s: State, e: Event) {
    match e
    case Open(_) => true
    case Announce(c) => c < |s.connections| && s.connections[c].up < |s.connections[c].names|
    // closing starts once every name is announced
    case TakeBack(c) =>
      c < |s.connections| &&
      s.connections[c].up == |s.connections[c].names| && s.connections[c].down < s.connections[c].up
  }

  /** `*live.entry(name).or_insert(0) += 1`. */
  function Raised(live: map<string, nat>, name: string): map<string, nat> {
    live[name := (if name in live then live[name] else 0) + 1]
  }

  /** Decrement, removing the entry at zero; a count of zero would wrap around. */
  function Lowered(live: map<string, nat>, name: string): map<string, nat> {
    if name !in live then live
    else
      var count := if live[name] == 0 then 0xFFFF_FFFF_FFFF_FFFF else live[name] - 1;
      if count == 0 then live - {name} else live[name := count]
  }

  function Next(s: State, e: Event): State
    requires Enabled(s, e)
  {
    match e
    case Open(names) => s.(connections := s.connections + [Connection(names, 0, 0)])
    case Announce(c) =>
      var x := s.connections[c];
      State(Raised(s.live, x.names[x.up]), s.connections[c := x.(up := x.up + 1)])
    case TakeBack(c) =>
      var x := s.connections[c];
      State(Lowered(s.live, x.names[x.down]), s.connections[c := x.(down := x.down + 1)])
  }

  function Exec(s: State, es: seq<Event>): Option<State>
    decreases |es|
  {
    if es == [] then Some(s)
    else if Enabled(s, es[0]) then Exec(Next(s, es[0]), es[1..])
    else None
  }

  // ---- The true number ---------------------------------------------------------------------

  function Occurrences(names: seq<string>, name: string): nat {
    if names == [] then 0 else (if names[0] == name then 1 else 0) + Occurrences(names[1..], name)
  }

  predicate WellFormed(c: Connection) {
    c.down <= c.up <= |c.names|
  }

  /** The names of a connection that count right now. */
  function Counting(c: Connection): seq<string> {
    if WellFormed(c) then c.names[c.down..c.up] else []
  }

  /** Live (connection, service) pairs with this name. */
  function Pairs(cs: seq<Connection>, name: string): nat {
    if cs == [] then 0 else Occurrences(Counting(cs[0]), name) + Pairs(cs[1..], name)
  }

  lemma {:induction false} OccurrencesSnoc(names: seq<string>, x: string, name: string)
    ensures Occurrences(names + [x], name) == Occurrences(names, name) + (if x == name then 1 else 0)
  {
    if names == [] {
      assert names + [x] == [x];
    } else {
      assert (names + [x])[1..] == names[1..] + [x];
      OccurrencesSnoc(names[1..], x, name);
    }
  }

  lemma {:induction false} PairsUpdate(cs: seq<Connection>, c: nat, x: Connection, name: string)
    requires c < |cs|
    ensures Pairs(cs[c := x], name)
         == Pairs(cs, name) - Occurrences(Counting(cs[c]), name) + Occurrences(Counting(x), name)
    ensures Pairs(cs, name) >= Occurrences(Counting(cs[c]), name)
  {
    if c == 0 {
      assert cs[c := x][1..] == cs[1..];
    } else {
      assert cs[c := x][1..] == cs[1..][c - 1 := x];
      PairsUpdate(cs[1..], c - 1, x, name);
    }
  }

  lemma {:induction false} PairsAppend(cs: seq<Connection>, x: Connection, name: string)
    requires Counting(x) == []
    ensures Pairs(cs + [x], name) == Pairs(cs, name)
  {
    if cs == [] {
      assert cs + [x] == [x];
    } else {
      assert (cs + [x])[1..] == cs[1..] + [x];
      PairsAppend(cs[1..], x, name);
    }
  }

  /** The count of a name is the number of its live pairs; no key exactly when that is zero. */
  predicate Counts(live: map<string, nat>, name: string, pairs: nat) {
    if name in live then live[name] == pairs > 0 else pairs == 0
  }

  predicate AllWellFormed(cs: seq<Connection>) {
    forall c :: 0 <= c < |cs| ==> WellFormed(cs[c])
  }

  ghost predicate Exact(s: State) {
    && AllWellFormed(s.connections)
    && (forall name :: Counts(s.live, name, Pairs(s.connections, name)))
  }

  lemma RaisedCounts(live: map<string, nat>, x: string, name: string, pairs: nat)
    requires Counts(live, name, pairs)
    ensures Counts(Raised(live, x), name, pairs + (if x == name then 1 else 0))
  {
  }

  lemma LoweredCounts(live: map<string, nat>, x: string, name: string, pairs: nat)
    requires Counts(live, name, pairs) && (x == name ==> pairs > 0)
    ensures Counts(Lowered(live, x), name, pairs - (if x == name then 1 else 0))
  {
  }

  lemma AnnouncedPairs(cs: seq<Connection>, c: nat, name: string)
    requires c < |cs| && cs[c].down <= cs[c].up < |cs[c].names|
    ensures var x := cs[c];
            Pairs(cs[c := x.(up := x.up + 1)], name) == Pairs(cs, name) + (if x.names[x.up] == name then 1 else 0)
  {
    var x := cs[c];
    var x' := x.(up := x.up + 1);
    assert Counting(x') == Counting(x) + [x.names[x.up]];
    PairsUpdate(cs, c, x', name);
    OccurrencesSnoc(Counting(x), x.names[x.up], name);
  }

  lemma TakenBackPairs(cs: seq<Connection>, c: nat, name: string)
    requires c < |cs| && cs[c].down < cs[c].up <= |cs[c].names|
    ensures var x := cs[c];
            && Pairs(cs, name) >= (if x.names[x.down] == name then 1 else 0)
            && Pairs(cs[c := x.(down := x.down + 1)], name)
               == Pairs(cs, name) - (if x.names[x.down] == name then 1 else 0)
  {
    var x := cs[c];
    var x' := x.(down := x.down + 1);
    assert Counting(x)[0] == x.names[x.down] && Counting(x)[1..] == Counting(x');
    PairsUpdate(cs, c, x', name);
  }

  lemma RaisedAt(live: map<string, nat>, cs: seq<Connection>, c: nat, x: Connection, name: string)
    requires c < |cs| && x == cs[c] && x.down <= x.up < |x.names| && Counts(live, name, Pairs(cs, name))
    ensures Counts(Raised(live, x.names[x.up]), name, Pairs(cs[c := x.(up := x.up + 1)], name))
  {
    AnnouncedPairs(cs, c, name);
    RaisedCounts(live, x.names[x.up], name, Pairs(cs, name));
  }

  lemma LoweredAt(live: map<string, nat>, cs: seq<Connection>, c: nat, x: Connection, name: string)
    requires c < |cs| && x == cs[c] && x.down < x.up <= |x.names| && Counts(live, name, Pairs(cs, name))
    ensures Counts(Lowered(live, x.names[x.down]), name, Pairs(cs[c := x.(down := x.down + 1)], name))
  {
    TakenBackPairs(cs, c, name);
    LoweredCounts(live, x.names[x.down], name, Pairs(cs, name));
  }

  lemma AnnounceCounts(s: State, c: nat, name: string)
    requires Exact(s) && Enabled(s, Announce(c))
    ensures var t := Next(s, Announce(c)); Counts(t.live, name, Pairs(t.connections, name))
  {
    assert WellFormed(s.connections[c]);
    RaisedAt(s.live, s.connections, c, s.connections[c], name);
  }

  lemma TakeBackCounts(s: State, c: nat, name: string)
    requires Exact(s) && Enabled(s, TakeBack(c))
    ensures var t := Next(s, TakeBack(c)); Counts(t.live, name, Pairs(t.connections, name))
  {
    assert WellFormed(s.connections[c]);
    LoweredAt(s.live, s.connections, c, s.connections[c], name);
  }

  /** A step that moves one connection keeps the rest as they were. */
  lemma FormKept(cs: seq<Connection>, c: nat, x: Connection)
    requires c < |cs| && WellFormed(x) && AllWellFormed(cs)
    ensures AllWellFormed(cs[c := x])
  {
  }

  lemma AnnounceKeeps(s: State, c: nat)
    requires Exact(s) && Enabled(s, Announce(c))
    ensures Exact(Next(s, Announce(c)))
  {
    var x, t := s.connections[c], Next(s, Announce(c));
    FormKept(s.connections, c, x.(up := x.up + 1));
    forall name ensures Counts(t.live, name, Pairs(t.connections, name)) {
      AnnounceCounts(s, c, name);
    }
  }

  /** The count being lowered is at least one: it never wraps. */
  lemma LoweredIsCounted(s: State, c: nat)
    requires Exact(s) && Enabled(s, TakeBack(c))
    ensures var x := s.connections[c]; x.names[x.down] in s.live && s.live[x.names[x.down]] >= 1
  {
    var x := s.connections[c];
    TakenBackPairs(s.connections, c, x.names[x.down]);
    assert Counts(s.live, x.names[x.down], Pairs(s.connections, x.names[x.down]));
  }

  lemma TakeBackKeeps(s: State, c: nat)
    requires Exact(s) && Enabled(s, TakeBack(c))
    ensures Exact(Next(s, TakeBack(c)))
    ensures var x := s.connections[c]; x.names[x.down] in s.live && s.live[x.names[x.down]] >= 1
  {
    var x, t := s.connections[c], Next(s, TakeBack(c));
    LoweredIsCounted(s, c);
    FormKept(s.connections, c, x.(down := x.down + 1));
    forall name ensures Counts(t.live, name, Pairs(t.connections, name)) {
      TakeBackCounts(s, c, name);
    }
  }

  lemma OpenKeeps(s: State, names: seq<string>)
    requires Exact(s)
    ensures Exact(Next(s, Open(names)))
  {
    forall name ensures Pairs(s.connections + [Connection(names, 0, 0)], name) == Pairs(s.connections, name) {
      PairsAppend(s.connections, Connection(names, 0, 0), name);
    }
  }

  /** In every interleaving of openings and closings. */
  lemma {:induction false} CountsAreExact(s: State, es: seq<Event>)
    requires Exact(s) && Exec(s, es).Some?
    ensures Exact(Exec(s, es).value)
    decreases |es|
  {
    if es != [] {
      match es[0] {
        case Open(names) => OpenKeeps(s, names);
        case Announce(c) => AnnounceKeeps(s, c);
        case TakeBack(c) => TakeBackKeeps(s, c);
      }
      CountsAreExact(Next(s, es[0]), es[1..]);
    }
  }

  /** Once every connection has closed, the map is empty again. */
  lemma AllClosedIsEmpty(es: seq<Event>)
    requires Exec(State(map[], []), es).Some?
    requires var t := Exec(State(map[], []), es).value;
             forall c :: 0 <= c < |t.connections| ==> t.connections[c].down == t.connections[c].up
    ensures Exec(State(map[], []), es).value.live == map[]
  {
    CountsAreExact(State(map[], []), es);
    var t := Exec(State(map[], []), es).value;
    forall name ensures name !in t.live {
      NoPairs(t.connections, name);
    }
  }

  lemma {:induction false} NoPairs(cs: seq<Connection>, name: string)
    requires forall c :: 0 <= c < |cs| ==> cs[c].down == cs[c].up
    ensures Pairs(cs, name) == 0
  {
    if cs != [] {
      NoPairs(cs[1..], name);
    }
  }

  // ---- A connection's whole life ----------------------------------------------------------------

  /** An opening connection can announce every name it carries, */
  lemma {:induction false} AnnounceAll(s: State, c: nat) returns (es: seq<Event>, t: State)
    requires c < |s.connections| && s.connections[c].up <= |s.connections[c].names|
    ensures Exec(s, es) == Some(t)
    ensures t.connections == s.connections[c := s.connections[c].(up := |s.connections[c].names|)]
    decreases |s.connections[c].names| - s.connections[c].up
  {
    if s.connections[c].up == |s.connections[c].names| {
      es, t := [], s;
    } else {
      var rest;
      rest, t := AnnounceAll(Next(s, Announce(c)), c);
      es := [Announce(c)] + rest;
      assert es[1..] == rest;
    }
  }

  /** and a closing one can take them all back. */
  lemma {:induction false} TakeBackAll(s: State, c: nat) returns (es: seq<Event>, t: State)
    requires c < |s.connections| && s.connections[c].down <= s.connections[c].up == |s.connections[c].names|
    ensures Exec(s, es) == Some(t)
    ensures t.connections == s.connections[c := s.connections[c].(down := s.connections[c].up)]
    decreases s.connections[c].up - s.connections[c].down
  {
    if s.connections[c].down == s.connections[c].up {
      es, t := [], s;
    } else {
      var rest;
      rest, t := TakeBackAll(Next(s, TakeBack(c)), c);
      es := [TakeBack(c)] + rest;
      assert es[1..] == rest;
    }
  }

  lemma OpenPairs(cs: seq<Connection>, x: Connection, name: string)
    ensures Pairs(cs + [x], name) == Pairs(cs, name) + Occurrences(Counting(x), name)
  {
    var empty := Connection([], 0, 0);
    PairsAppend(cs, empty, name);
    PairsUpdate(cs + [empty], |cs|, x, name);
    assert (cs + [empty])[|cs| := x] == cs + [x];
  }

  lemma OpenUp(s: State, names: seq<string>) returns (es: seq<Event>, up: State)
    requires Exact(s)
    ensures Exec(s, es) == Some(up) && Exact(up)
    ensures up.connections == s.connections + [Connection(names, |names|, 0)]
  {
    var rest;
    rest, up := AnnounceAll(Next(s, Open(names)), |s.connections|);
    es := [Open(names)] + rest;
    assert es[1..] == rest;
    CountsAreExact(s, es);
  }

  lemma CloseDown(s: State, cs: seq<Connection>, names: seq<string>) returns (es: seq<Event>, end: State)
    requires Exact(s) && s.connections == cs + [Connection(names, |names|, 0)]
    ensures Exec(s, es) == Some(end) && Exact(end)
    ensures end.connections == cs + [Connection(names, |names|, |names|)]
  {
    es, end := TakeBackAll(s, |cs|);
    CountsAreExact(s, es);
  }

  /** Opening raises each name by the times it is carried; closing leaves the map as it was found. */
  lemma OpenThenClose(s: State, names: seq<string>) returns (es: seq<Event>, up: State, more: seq<Event>, end: State)
    requires Exact(s)
    ensures Exec(s, es) == Some(up) && Exec(up, more) == Some(end) && end.live == s.live
    ensures forall name :: Counts(up.live, name, Pairs(s.connections, name) + Occurrences(names, name))
  {
    es, up := OpenUp(s, names);
    more, end := CloseDown(up, s.connections, names);
    var x, y := Connection(names, |names|, 0), Connection(names, |names|, |names|);
    assert Counting(x) == names && Counting(y) == [];
    forall name
      ensures Counts(up.live, name, Pairs(s.connections, name) + Occurrences(names, name))
      ensures Counts(end.live, name, Pairs(s.connections, name))
    {
      OpenPairs(s.connections, x, name);
      OpenPairs(s.connections, y, name);
    }
    SameCounts(end.live, s.live, s.connections);
  }

  lemma SameCounts(a: map<string, nat>, b: map<string, nat>, cs: seq<Connection>)
    requires forall name :: Counts(a, name, Pairs(cs, name)) && Counts(b, name, Pairs(cs, name))
    ensures a == b
  {
    forall name ensures (name in a <==> name in b) && (name in a ==> a[name] == b[name]) {
      assert Counts(a, name, Pairs(cs, name)) && Counts(b, name, Pairs(cs, name));
    }
  }
}
