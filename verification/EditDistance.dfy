/**
 The guess behind a misspelled configuration key: `distance_within` and
 `suggest`. The two-row table with its two early exits is proved against the
 least cost over all edit scripts.
 */
module EditDistance {
  import opened Common
  import opened Utf8

  // ---- What an edit distance is -----------------------------------------

  datatype Edit = Keep | Substitute(to: char) | Insert(c: char) | Delete

  /** Runs a script over a text from the left; None when it does not fit it. */
  function Apply(es: seq<Edit>, a: string): Option<string> {
    if es == [] then
      if a == "" then Some("") else None
    else
      match es[0]
      case Keep => if a == "" then None else Prefixed(a[0], Apply(es[1..], a[1..]))
      case Substitute(c) => if a == "" then None else Prefixed(c, Apply(es[1..], a[1..]))
      case Insert(c) => Prefixed(c, Apply(es[1..], a))
      case Delete => if a == "" then None else Apply(es[1..], a[1..])
  }

  function Prefixed(c: char, r: Option<string>): Option<string> {
    match r
    case None => None
    case Some(s) => Some([c] + s)
  }

  function Cost(es: seq<Edit>): nat {
    if es == [] then 0 else (if es[0].Keep? then 0 else 1) + Cost(es[1..])
  }

  /** `d` is the least cost of any script turning `a` into `b`. */
  ghost predicate IsDistance(a: string, b: string, d: nat) {
    && (exists es :: Apply(es, a) == Some(b) && Cost(es) == d)
    && (forall es :: Apply(es, a) == Some(b) ==> d <= Cost(es))
  }

  // ---- The recurrence the table computes ---------------------------------

  function Min3(x: nat, y: nat, z: nat): nat {
    Min(Min(x, y), z)
  }

  function Init(s: string): string
    requires s != ""
  {
    s[..|s| - 1]
  }

  function Last(s: string): char
    requires s != ""
  {
    s[|s| - 1]
  }

  function Table(a: string, b: string): nat
    decreases |a| + |b|
  {
    if a == "" then |b|
    else if b == "" then |a|
    else Min3(Table(Init(a), Init(b)) + (if Last(a) == Last(b) then 0 else 1),
              Table(Init(a), b) + 1,
              Table(a, Init(b)) + 1)
  }

  lemma {:induction false} CostSnoc(es: seq<Edit>, e: Edit)
    ensures Cost(es + [e]) == Cost(es) + (if e.Keep? then 0 else 1)
  {
    if es == [] {
      assert es + [e] == [e];
    } else {
      assert (es + [e])[1..] == es[1..] + [e];
      CostSnoc(es[1..], e);
    }
  }

  lemma PrefixedSnoc(c: char, r: Option<string>, t: string)
    requires r.Some?
    ensures Prefixed(c, Some(r.value + t)) == Some(Prefixed(c, r).value + t)
  {
    assert [c] + (r.value + t) == ([c] + r.value) + t;
  }

  /** What a script does when one more insertion follows it. */
  lemma {:induction false} ApplyThenInsert(es: seq<Edit>, a: string, c: char)
    requires Apply(es, a).Some?
    ensures Apply(es + [Insert(c)], a) == Some(Apply(es, a).value + [c])
  {
    if es == [] {
      assert es + [Insert(c)] == [Insert(c)];
      assert Apply([Insert(c)][1..], a) == Some("");
      assert [c] + "" == "" + [c];
    } else {
      assert (es + [Insert(c)])[1..] == es[1..] + [Insert(c)];
      var rest := if es[0].Insert? then a else a[1..];
      ApplyThenInsert(es[1..], rest, c);
      if !es[0].Delete? {
        PrefixedSnoc(Apply(es, a).value[0], Apply(es[1..], rest), [c]);
      }
    }
  }

  /** What a consuming edit leaves of the character it meets. */
  function Leaves(e: Edit, x: char): string
    requires !e.Insert?
  {
    match e case Keep => [x] case Substitute(c) => [c] case Delete => ""
  }

  lemma ApplyOne(e: Edit, x: char)
    requires !e.Insert?
    ensures Apply([e], [x]) == Some(Leaves(e, x))
  {
    var none: seq<Edit> := [e][1..];
    assert none == [] && [x][1..] == "";
    assert Apply(none, [x][1..]) == Some("");
    if e.Keep? {
      assert Apply([e], [x]) == Prefixed(x, Some("")) && [x] + "" == [x];
    } else if e.Substitute? {
      assert Apply([e], [x]) == Prefixed(e.to, Some("")) && [e.to] + "" == [e.to];
    }
  }

  /** What a script does when one more consuming edit meets one more character. */
  lemma {:induction false} ApplyThenConsume(es: seq<Edit>, a: string, e: Edit, x: char)
    requires Apply(es, a).Some? && !e.Insert?
    ensures Apply(es + [e], a + [x]) == Some(Apply(es, a).value + Leaves(e, x))
  {
    if es == [] {
      assert es + [e] == [e] && a + [x] == [x];
      ApplyOne(e, x);
      assert Leaves(e, x) == "" + Leaves(e, x);
    } else {
      assert (es + [e])[1..] == es[1..] + [e];
      var rest := if es[0].Insert? then a else a[1..];
      assert !es[0].Insert? ==> (a + [x])[1..] == rest + [x];
      ApplyThenConsume(es[1..], rest, e, x);
      if !es[0].Delete? {
        PrefixedSnoc(Apply(es, a).value[0], Apply(es[1..], rest), Leaves(e, x));
      }
    }
  }

  /** The last edit of a script that fits, undone. */
  lemma {:induction false} UndoLast(es: seq<Edit>, a: string)
    requires es != [] && Apply(es, a).Some?
    ensures var b := Apply(es, a).value; var e := es[|es| - 1]; var init := es[..|es| - 1];
            match e
            case Keep => a != "" && b != "" && Last(a) == Last(b) && Apply(init, Init(a)) == Some(Init(b))
            case Substitute(_) => a != "" && b != "" && Apply(init, Init(a)) == Some(Init(b))
            case Delete => a != "" && Apply(init, Init(a)) == Some(b)
            case Insert(_) => b != "" && Apply(init, a) == Some(Init(b))
  {
    var init := es[..|es| - 1];
    if |es| == 1 {
      assert es[1..] == [] && init == [];
      assert a != "" ==> Apply(es[1..], a[1..]).Some? ==> a[1..] == "";
    } else {
      var tail := es[1..];
      assert tail[..|tail| - 1] == init[1..];
      if es[0].Insert? {
        UndoLast(tail, a);
        var b, c := Apply(es, a).value, Apply(tail, a).value;
        assert b == [es[0].c] + c;
        assert c != "" ==> Init(b) == [es[0].c] + Init(c);
      } else {
        UndoLast(tail, a[1..]);
        var b, c := Apply(es, a).value, Apply(tail, a[1..]).value;
        assert a[1..] != "" ==> Init(a)[1..] == Init(a[1..]);
        assert !es[0].Delete? ==> b == [b[0]] + c && (c != "" ==> Init(b) == [b[0]] + Init(c));
      }
    }
  }

  lemma CostUndo(es: seq<Edit>)
    requires es != []
    ensures Cost(es) == Cost(es[..|es| - 1]) + (if es[|es| - 1].Keep? then 0 else 1)
  {
    CostSnoc(es[..|es| - 1], es[|es| - 1]);
    assert es == es[..|es| - 1] + [es[|es| - 1]];
  }

  lemma {:induction false} TableEdge(a: string, b: string)
    ensures b == "" ==> Table(a, b) == |a|
    ensures a == "" ==> Table(a, b) == |b|
    ensures a != "" ==> Table(a, b) <= Table(Init(a), b) + 1
    ensures b != "" ==> Table(a, b) <= Table(a, Init(b)) + 1
    ensures a != "" && b != "" ==> Table(a, b) <= Table(Init(a), Init(b)) + (if Last(a) == Last(b) then 0 else 1)
  {
  }

  /** No script is cheaper than the table says. */
  lemma {:induction false} TableIsLower(es: seq<Edit>, a: string, b: string)
    requires Apply(es, a) == Some(b)
    ensures Table(a, b) <= Cost(es)
    decreases |es|
  {
    if es != [] {
      UndoLast(es, a);
      CostUndo(es);
      TableEdge(a, b);
      var init := es[..|es| - 1];
      match es[|es| - 1]
      case Keep => TableIsLower(init, Init(a), Init(b));
      case Substitute(_) => TableIsLower(init, Init(a), Init(b));
      case Delete => TableIsLower(init, Init(a), b);
      case Insert(_) => TableIsLower(init, a, Init(b));
    }
  }

  lemma Rejoin(s: string)
    requires s != ""
    ensures s == Init(s) + [Last(s)]
  {
  }

  /** Some script is exactly as cheap as the table says. */
  lemma {:induction false} CheapestScript(a: string, b: string) returns (es: seq<Edit>)
    ensures Apply(es, a) == Some(b) && Cost(es) == Table(a, b)
    decreases |a| + |b|
  {
    if a == "" && b == "" {
      es := [];
    } else if b != "" && Table(a, b) == Table(a, Init(b)) + 1 {
      var init := CheapestScript(a, Init(b));
      es := Extended(init, a, Insert(Last(b)), "");
      Rejoin(b);
      assert a + "" == a;
    } else if a != "" && Table(a, b) == Table(Init(a), b) + 1 {
      var init := CheapestScript(Init(a), b);
      es := Extended(init, Init(a), Delete, [Last(a)]);
      Rejoin(a);
      assert b + "" == b;
    } else {
      assert a != "" && b != "" by { TableEdges(a, b); }
      var e := if Last(a) == Last(b) then Keep else Substitute(Last(b));
      var init := CheapestScript(Init(a), Init(b));
      es := Extended(init, Init(a), e, [Last(a)]);
      Rejoin(a);
      Rejoin(b);
    }
  }

  /** A script with one more edit at its right end. */
  lemma Extended(init: seq<Edit>, a: string, e: Edit, more: string) returns (es: seq<Edit>)
    requires Apply(init, a).Some?
    requires |more| == if e.Insert? then 0 else 1
    ensures Cost(es) == Cost(init) + (if e.Keep? then 0 else 1)
    ensures Apply(es, a + more) == Some(Apply(init, a).value + (if e.Insert? then [e.c] else Leaves(e, more[0])))
  {
    es := init + [e];
    CostSnoc(init, e);
    if e.Insert? {
      ApplyThenInsert(init, a, e.c);
      assert a + more == a;
    } else {
      ApplyThenConsume(init, a, e, more[0]);
      assert more == [more[0]];
    }
  }

  lemma TableEdges(a: string, b: string)
    ensures a == "" && b != "" ==> Table(a, b) == Table(a, Init(b)) + 1
    ensures a != "" && b == "" ==> Table(a, b) == Table(Init(a), b) + 1
  {
  }

  /** The table's corner is the edit distance, and the only number that is. */
  lemma TableIsDistance(a: string, b: string)
    ensures forall d: nat :: IsDistance(a, b, d) <==> d == Table(a, b)
  {
    var es := CheapestScript(a, b);
    forall fs | Apply(fs, a) == Some(b)
      ensures Table(a, b) <= Cost(fs)
    {
      TableIsLower(fs, a, b);
    }
    assert IsDistance(a, b, Table(a, b));
  }

  // ---- Why the early exits lose nothing ------------------------------------

  function AbsDiff(x: nat, y: nat): nat {
    if x <= y then y - x else x - y
  }

  lemma {:induction false} LengthGapIsLower(a: string, b: string)
    ensures AbsDiff(|a|, |b|) <= Table(a, b)
    decreases |a| + |b|
  {
    if a != "" && b != "" {
      LengthGapIsLower(Init(a), Init(b));
      LengthGapIsLower(Init(a), b);
      LengthGapIsLower(a, Init(b));
    }
  }

  /** Every row holds a cell no larger than the final corner. */
  lemma {:induction false} RowHoldsALowerCell(a: string, b: string, i: nat) returns (j: nat)
    requires i <= |a|
    ensures j <= |b| && Table(a[..i], b[..j]) <= Table(a, b)
    decreases |a| + |b|
  {
    if i == |a| {
      j := |b|;
      assert a[..i] == a && b[..j] == b;
    } else if b == "" {
      j := 0;
      TableEdge(a[..i], b[..0]);
    } else if Table(a, b) == Table(a, Init(b)) + 1 {
      j := RowHoldsALowerCell(a, Init(b), i);
      assert Init(b)[..j] == b[..j];
    } else if Table(a, b) == Table(Init(a), b) + 1 {
      j := RowHoldsALowerCell(Init(a), b, i);
      assert Init(a)[..i] == a[..i];
    } else {
      j := RowHoldsALowerCell(Init(a), Init(b), i);
      assert Init(a)[..i] == a[..i] && Init(b)[..j] == b[..j];
    }
  }

  // ---- The code ---------------------------------------------------------

  /** The row for `a` against every prefix of `b`. */
  ghost predicate IsRow(row: seq<nat>, a: string, b: string) {
    |row| == |b| + 1 && forall j :: 0 <= j <= |b| ==> row[j] == Table(a, b[..j])
  }

  /** The cell below-right of three known ones: diagonal, above, left. */
  lemma NextCell(a: string, b: string, i: nat, j: nat, diagonal: nat, above: nat, left: nat)
    requires i < |a| && j < |b|
    requires diagonal == Table(a[..i], b[..j])
    requires above == Table(a[..i], b[..j + 1]) && left == Table(a[..i + 1], b[..j])
    ensures Table(a[..i + 1], b[..j + 1]) == Min3(diagonal + (if a[i] != b[j] then 1 else 0), above + 1, left + 1)
  {
    var x, y := a[..i + 1], b[..j + 1];
    assert Init(x) == a[..i] && Init(y) == b[..j] && Last(x) == a[i] && Last(y) == b[j];
  }

  /** The first `n + 1` cells of a row, from the row above it and the row's first cell. */
  function RowAfter(above: seq<nat>, c: char, b: string, first: nat, n: nat): (row: seq<nat>)
    requires |above| == |b| + 1 && n <= |b|
    ensures |row| == n + 1
  {
    if n == 0 then [first]
    else
      var row := RowAfter(above, c, b, first, n - 1);
      row + [Min3(above[n - 1] + (if c != b[n - 1] then 1 else 0), above[n] + 1, row[n - 1] + 1)]
  }

  lemma RowAfterLast(above: seq<nat>, c: char, b: string, first: nat, n: nat)
    requires |above| == |b| + 1 && 0 < n <= |b|
    ensures RowAfter(above, c, b, first, n)[n]
         == Min3(above[n - 1] + (if c != b[n - 1] then 1 else 0), above[n] + 1,
                 RowAfter(above, c, b, first, n - 1)[n - 1] + 1)
  {
  }

  lemma {:induction false} RowAfterCell(above: seq<nat>, a: string, b: string, i: nat, n: nat)
    requires i < |a| && IsRow(above, a[..i], b) && n <= |b|
    ensures RowAfter(above, a[i], b, i + 1, n)[n] == Table(a[..i + 1], b[..n])
  {
    if n == 0 {
      TableEdge(a[..i + 1], b[..0]);
    } else {
      RowAfterCell(above, a, b, i, n - 1);
      RowAfterLast(above, a[i], b, i + 1, n);
      NextCell(a, b, i, n - 1, above[n - 1], above[n], RowAfter(above, a[i], b, i + 1, n - 1)[n - 1]);
    }
  }

  /** Later cells leave the earlier ones as they are. */
  lemma {:induction false} RowAfterPrefix(above: seq<nat>, c: char, b: string, first: nat, n: nat, j: nat)
    requires |above| == |b| + 1 && j <= n <= |b|
    ensures RowAfter(above, c, b, first, n)[j] == RowAfter(above, c, b, first, j)[j]
  {
    if j < n {
      RowAfterPrefix(above, c, b, first, n - 1, j);
    }
  }

  /** One row of the table from the row above it, in place. */
  method FillRow(a: string, b: string, i: nat, prev: array<nat>, cur: array<nat>)
    requires i < |a| && prev != cur
    requires prev.Length == |b| + 1 && cur.Length == |b| + 1
    requires IsRow(prev[..], a[..i], b)
    modifies cur
    ensures IsRow(cur[..], a[..i + 1], b)
  {
    FillCells(a[i], b, i + 1, prev, cur);
    forall j | 0 <= j <= |b| ensures cur[..][j] == Table(a[..i + 1], b[..j]) {
      RowAfterPrefix(prev[..], a[i], b, i + 1, |b|, j);
      RowAfterCell(prev[..], a, b, i, j);
    }
  }

  method FillCells(c: char, b: string, first: nat, prev: array<nat>, cur: array<nat>)
    requires prev != cur && prev.Length == |b| + 1 && cur.Length == |b| + 1
    modifies cur
    ensures cur[..] == RowAfter(prev[..], c, b, first, |b|)
  {
    cur[0] := first;
    for j := 0 to |b|
      invariant prev[..] == old(prev[..])
      invariant cur[..j + 1] == RowAfter(prev[..], c, b, first, j)
    {
      var cost := if c != b[j] then 1 else 0;
      cur[j + 1] := Min3(prev[j] + cost, prev[j + 1] + 1, cur[j] + 1);
      assert cur[..j + 2] == cur[..j + 1] + [cur[j + 1]];
    }
    assert cur[..|b| + 1] == cur[..];
  }

  method RowMinimum(row: array<nat>) returns (m: nat)
    requires row.Length > 0
    ensures exists j :: 0 <= j < row.Length && row[j] == m
    ensures forall j :: 0 <= j < row.Length ==> m <= row[j]
  {
    m := row[0];
    for j := 1 to row.Length
      invariant exists k :: 0 <= k < j && row[k] == m
      invariant forall k :: 0 <= k < j ==> m <= row[k]
    {
      if row[j] < m {
        m := row[j];
      }
    }
  }

  /** `distance_within`: the byte-length filter, then the table. */
  method DistanceWithin(a: string, b: string, max: nat) returns (r: Option<nat>)
    ensures r.Some? ==> IsDistance(a, b, r.value) && r.value <= max
    ensures r.None? <==> AbsDiff(ByteLen(a), ByteLen(b)) > max || forall d: nat :: IsDistance(a, b, d) ==> d > max
    ensures r == Within(a, b, max)
  {
    TableIsDistance(a, b);
    if AbsDiff(ByteLen(a), ByteLen(b)) > max {
      return None;
    }
    r := TableWithin(a, b, max);
    assert IsDistance(a, b, Table(a, b));
  }

  /** The two rows, swapped per character, left as soon as a whole row is past `max`. */
  method TableWithin(a: string, b: string, max: nat) returns (r: Option<nat>)
    ensures r == if Table(a, b) <= max then Some(Table(a, b)) else None
  {
    var prev := new nat[|b| + 1](j => j);
    var cur := new nat[|b| + 1](_ => 0);
    assert IsRow(prev[..], a[..0], b);
    for i := 0 to |a|
      invariant prev != cur && prev.Length == |b| + 1 && cur.Length == |b| + 1
      invariant IsRow(prev[..], a[..i], b)
      invariant fresh(prev) && fresh(cur)
    {
      FillRow(a, b, i, prev, cur);
      var least := RowMinimum(cur);
      if least > max {
        ghost var j := RowHoldsALowerCell(a, b, i + 1);
        assert cur[..][j] == cur[j];
        return None;
      }
      prev, cur := cur, prev;
    }
    assert a[..|a|] == a && b[..|b|] == b;
    var d := prev[|b|];
    assert d == prev[..][|b|] == Table(a, b);
    return if d <= max then Some(d) else None;
  }

  /** What `distance_within` answers, as a value. */
  function Within(a: string, b: string, max: nat): Option<nat> {
    if AbsDiff(ByteLen(a), ByteLen(b)) <= max && Table(a, b) <= max then Some(Table(a, b)) else None
  }

  /** On ASCII names the length filter never loses an answer. */
  lemma AsciiFilterLosesNothing(a: string, b: string, max: nat)
    requires IsAscii(a) && IsAscii(b)
    ensures forall d: nat :: Within(a, b, max) == Some(d) <==> IsDistance(a, b, d) && d <= max
  {
    AsciiByteLen(a);
    AsciiByteLen(b);
    LengthGapIsLower(a, b);
    TableIsDistance(a, b);
  }

  /**
   On any text: the answer is complete exactly when the byte lengths are no
   further apart than `max` or the distance itself is past `max`.
   */
  lemma FilterIsExactWhen(a: string, b: string, max: nat)
    ensures (forall d: nat :: Within(a, b, max) == Some(d) <==> IsDistance(a, b, d) && d <= max)
       <==> (AbsDiff(ByteLen(a), ByteLen(b)) <= max || Table(a, b) > max)
  {
    TableIsDistance(a, b);
    if Table(a, b) <= max {
      assert IsDistance(a, b, Table(a, b));
    }
  }

  /** One substitution, three bytes apart: the filter hides a distance of one. */
  lemma FilterHidesAnEmoji()
    ensures IsDistance("p\U{1F389}th", "path", 1)
    ensures Within("p\U{1F389}th", "path", 1) == None
  {
    var a, b := "p\U{1F389}th", "path";
    ByteLenOfMiss(a, b);
    OneApart(a, b);
  }

  lemma OneApart(a: string, b: string)
    requires |a| == |b| == 4 && a[0] == b[0] && a[1] != b[1] && a[2] == b[2] && a[3] == b[3]
    ensures IsDistance(a, b, 1)
  {
    OneSubstitution(a, b);
    ZeroMeansSame(a, b);
    TableIsDistance(a, b);
  }

  lemma ByteLenOfMiss(a: string, b: string)
    requires a == "p\U{1F389}th" && b == "path"
    ensures ByteLen(a) == 7 && ByteLen(b) == 4
  {
    AsciiByteLen(b);
    AsciiByteLen("th");
    assert a[1..] == "\U{1F389}th" && a[1..][1..] == "th";
    assert |EncodeChar(a[1])| == 4;
    assert |Encode(a[1..])| == 4 + |Encode("th")|;
  }

  lemma OneSubstitution(a: string, b: string)
    requires |a| == |b| == 4 && a[0] == b[0] && a[2] == b[2] && a[3] == b[3]
    ensures Table(a, b) <= 1
  {
    var es := [Keep, Substitute(b[1]), Keep, Keep];
    KeepsAll(a[2..]);
    assert es[2..] == Keeps(2) && es[1..][1..] == es[2..] && a[1..][1..] == a[2..];
    assert Apply(es[1..], a[1..]) == Prefixed(b[1], Some(a[2..]));
    assert Apply(es, a) == Prefixed(a[0], Some([b[1]] + a[2..]));
    assert [a[0]] + ([b[1]] + a[2..]) == b;
    KeepsAll(b[2..]);
    assert Cost(es) == Cost(es[1..]) == 1 + Cost(es[1..][1..]);
    TableIsLower(es, a, b);
  }

  function Keeps(n: nat): seq<Edit> {
    seq(n, _ => Keep)
  }

  lemma {:induction false} KeepsAll(s: string)
    ensures Apply(Keeps(|s|), s) == Some(s) && Cost(Keeps(|s|)) == 0
  {
    if s != "" {
      KeepsAll(s[1..]);
      assert Keeps(|s|)[1..] == Keeps(|s| - 1);
      assert s == [s[0]] + s[1..];
    }
  }

  lemma {:induction false} ZeroMeansSame(a: string, b: string)
    ensures Table(a, b) == 0 ==> a == b
    decreases |a| + |b|
  {
    if a != "" && b != "" {
      ZeroMeansSame(Init(a), Init(b));
      Rejoin(a);
      Rejoin(b);
    }
  }
}
