/** The string operations of the standard library that the parsers are built from. */
module Text {
  import opened Common

  // ---- Searching, trimming, case -----------------------------------------------

  function Find(s: string, c: char): (r: Option<nat>)
    ensures r.Some? ==> r.value < |s|
  {
    if s == "" then None
    else if s[0] == c then Some(0)
    else
      match Find(s[1..], c)
      case None => None
      case Some(k) => Some(k + 1)
  }

  lemma {:induction false} FindIsFirst(s: string, c: char)
    ensures Find(s, c).Some? ==> s[Find(s, c).value] == c && c !in s[..Find(s, c).value]
  {
    if s != "" && s[0] != c {
      FindIsFirst(s[1..], c);
      var r := Find(s[1..], c);
      if r.Some? {
        assert s[..r.value + 1] == [s[0]] + s[1..][..r.value];
      }
    }
  }

  lemma {:induction false} FindNone(s: string, c: char)
    ensures Find(s, c).None? <==> c !in s
  {
    if s != "" {
      FindNone(s[1..], c);
      assert c in s <==> c == s[0] || c in s[1..];
    }
  }

  lemma {:induction false} FindAfter(s: string, c: char, rest: string)
    requires c !in s
    ensures Find(s + [c] + rest, c) == Some(|s|)
  {
    var t := s + [c] + rest;
    if s != "" {
      assert t[0] == s[0] && s[0] in s;
      assert t[1..] == s[1..] + [c] + rest;
      FindAfter(s[1..], c, rest);
    }
  }

  /** The White_Space property, which `str::trim` strips by. */
  predicate IsSpace(c: char) {
    var n := c as int;
    || 0x09 <= n <= 0x0D || n == 0x20 || n == 0x85 || n == 0xA0 || n == 0x1680
    || 0x2000 <= n <= 0x200A || n == 0x2028 || n == 0x2029 || n == 0x202F || n == 0x205F || n == 0x3000
  }

  predicate IsBlank(s: string) {
    forall i :: 0 <= i < |s| ==> IsSpace(s[i])
  }

  function LeadingBlanks(s: string): (n: nat)
    ensures n <= |s|
  {
    if s == "" || !IsSpace(s[0]) then 0 else 1 + LeadingBlanks(s[1..])
  }

  function TrailingBlanks(s: string): (n: nat)
    ensures n <= |s|
  {
    if s == "" || !IsSpace(s[|s| - 1]) then 0 else 1 + TrailingBlanks(s[..|s| - 1])
  }

  /** The name between the blanks, as `trim` leaves it, with the blanks beside it. */
  function Trimmed(s: string): (string, string, string) {
    var n := LeadingBlanks(s);
    var rest := s[n..];
    var k := |rest| - TrailingBlanks(rest);
    (s[..n], rest[..k], rest[k..])
  }

  lemma {:induction false} BlanksAreBlank(s: string)
    ensures IsBlank(s[..LeadingBlanks(s)]) && IsBlank(s[|s| - TrailingBlanks(s)..])
  {
    if s != "" {
      BlanksAreBlank(s[1..]);
      BlanksAreBlank(s[..|s| - 1]);
      var n, m := LeadingBlanks(s[1..]), TrailingBlanks(s[..|s| - 1]);
      assert s[..n + 1] == [s[0]] + s[1..][..n];
      assert s[|s| - m - 1..] == s[..|s| - 1][|s| - 1 - m..] + [s[|s| - 1]];
    }
  }

  lemma TrimmedParts(s: string)
    ensures var (left, name, right) := Trimmed(s);
            left + name + right == s && IsBlank(left) && IsBlank(right)
  {
    BlanksAreBlank(s);
    BlanksAreBlank(s[LeadingBlanks(s)..]);
  }

  lemma {:induction false} LeadingBlanksOf(left: string, rest: string)
    requires IsBlank(left) && (rest == "" || !IsSpace(rest[0]))
    ensures LeadingBlanks(left + rest) == |left|
  {
    if left == "" {
      assert left + rest == rest;
    } else {
      assert (left + rest)[1..] == left[1..] + rest;
      LeadingBlanksOf(left[1..], rest);
    }
  }

  lemma {:induction false} TrailingBlanksOf(rest: string, right: string)
    requires IsBlank(right) && (rest == "" || !IsSpace(rest[|rest| - 1]))
    ensures TrailingBlanks(rest + right) == |right|
  {
    var s := rest + right;
    if right == "" {
      assert s == rest;
    } else {
      assert s[..|s| - 1] == rest + right[..|right| - 1];
      TrailingBlanksOf(rest, right[..|right| - 1]);
    }
  }

  /** Trimming takes off the outer blanks and nothing else, whatever is between them. */
  lemma TrimmedOf(left: string, middle: string, right: string)
    requires IsBlank(left) && IsBlank(right)
    requires middle == "" || (!IsSpace(middle[0]) && !IsSpace(middle[|middle| - 1]))
    ensures Trimmed(left + middle + right).1 == middle
  {
    var s := left + middle + right;
    if middle == "" {
      assert s == (left + right) + "" && IsBlank(left + right);
      LeadingBlanksOf(left + right, "");
    } else {
      assert s == left + (middle + right);
      LeadingBlanksOf(left, middle + right);
      assert s[|left|..] == middle + right;
      TrailingBlanksOf(middle, right);
    }
  }

  lemma {:induction false} BlanksEnd(s: string)
    ensures LeadingBlanks(s) < |s| ==> !IsSpace(s[LeadingBlanks(s)])
    ensures TrailingBlanks(s) < |s| ==> !IsSpace(s[|s| - 1 - TrailingBlanks(s)])
  {
    if s != "" {
      BlanksEnd(s[1..]);
      BlanksEnd(s[..|s| - 1]);
    }
  }

  /** Every text is blanks, a middle that no blank touches the ends of, and blanks. */
  lemma TrimmedIs(s: string)
    ensures var (left, middle, right) := Trimmed(s);
            && left + middle + right == s && IsBlank(left) && IsBlank(right)
            && (middle == "" || (!IsSpace(middle[0]) && !IsSpace(middle[|middle| - 1])))
  {
    TrimmedParts(s);
    var rest := s[LeadingBlanks(s)..];
    BlanksEnd(s);
    BlanksEnd(rest);
    var middle := rest[..|rest| - TrailingBlanks(rest)];
    assert middle != "" ==> middle[0] == rest[0] == s[LeadingBlanks(s)];
  }

  /** The white space of the Unicode property, written out. */
  lemma SpacesAre(c: char)
    ensures IsSpace(c) <==>
              c in "\t\n\U{0B}\U{0C}\r \U{85}\U{A0}\U{1680}\U{2000}\U{2001}\U{2002}\U{2003}\U{2004}\U{2005}"
                 + "\U{2006}\U{2007}\U{2008}\U{2009}\U{200A}\U{2028}\U{2029}\U{202F}\U{205F}\U{3000}"
  {
  }

  function LowerChar(c: char): char {
    if 'A' <= c <= 'Z' then (c as int + 32) as char else c
  }

  /** `to_ascii_lowercase`. */
  function Lower(s: string): string {
    seq(|s|, i requires 0 <= i < |s| => LowerChar(s[i]))
  }

  /** The twenty-six letters and nothing else, accents and other alphabets included. */
  lemma LowerIs(c: char)
    ensures forall i :: 0 <= i < 26 ==>
              LowerChar("ABCDEFGHIJKLMNOPQRSTUVWXYZ"[i]) == "abcdefghijklmnopqrstuvwxyz"[i]
    ensures c !in "ABCDEFGHIJKLMNOPQRSTUVWXYZ" ==> LowerChar(c) == c
  {
  }

  lemma LowerTwice(s: string)
    ensures Lower(Lower(s)) == Lower(s)
  {
  }

  // ---- Splitting and joining ---------------------------------------------------

  /** Always at least one part; the parts never contain the separator. */
  function Split(s: string, sep: char): (parts: seq<string>)
    ensures parts != []
  {
    if s == "" then [""]
    else
      var rest := Split(s[1..], sep);
      if s[0] == sep then [""] + rest else [[s[0]] + rest[0]] + rest[1..]
  }

  function Join(parts: seq<string>, sep: char): string
    requires parts != []
  {
    if |parts| == 1 then parts[0] else parts[0] + [sep] + Join(parts[1..], sep)
  }

  lemma {:induction false} JoinSplit(s: string, sep: char)
    ensures Join(Split(s, sep), sep) == s
  {
    if s != "" {
      var rest := Split(s[1..], sep);
      JoinSplit(s[1..], sep);
      if s[0] == sep {
        assert ([""] + rest)[1..] == rest;
      } else {
        assert ([[s[0]] + rest[0]] + rest[1..])[1..] == rest[1..];
      }
    }
  }

  /** A separator between two texts is a cut between their parts. */
  lemma {:induction false} SplitAcross(a: string, b: string, sep: char)
    ensures Split(a + [sep] + b, sep) == Split(a, sep) + Split(b, sep)
  {
    if a == "" {
      assert a + [sep] + b == [sep] + b;
      assert ([sep] + b)[1..] == b;
    } else {
      var t := a + [sep] + b;
      assert t[0] == a[0] && t[1..] == a[1..] + [sep] + b;
      SplitAcross(a[1..], b, sep);
      var ra, rb := Split(a[1..], sep), Split(b, sep);
      if a[0] != sep {
        assert (ra + rb)[0] == ra[0] && (ra + rb)[1..] == ra[1..] + rb;
      }
    }
  }

  lemma {:induction false} JoinAcross(xs: seq<string>, ys: seq<string>, sep: char)
    requires xs != [] && ys != []
    ensures Join(xs + ys, sep) == Join(xs, sep) + [sep] + Join(ys, sep)
  {
    if |xs| == 1 {
      assert (xs + ys)[1..] == ys;
    } else {
      assert (xs + ys)[1..] == xs[1..] + ys;
      JoinAcross(xs[1..], ys, sep);
    }
  }

  lemma {:induction false} SplitWhole(s: string, sep: char)
    requires sep !in s
    ensures Split(s, sep) == [s]
  {
    if s != "" {
      assert s[0] in s;
      SplitWhole(s[1..], sep);
      assert s == [s[0]] + s[1..];
    }
  }

  /** Splitting undoes joining, for parts free of the separator. */
  lemma {:induction false} SplitJoin(parts: seq<string>, sep: char)
    requires parts != [] && forall i :: 0 <= i < |parts| ==> sep !in parts[i]
    ensures Split(Join(parts, sep), sep) == parts
  {
    SplitWhole(parts[0], sep);
    if |parts| > 1 {
      SplitJoin(parts[1..], sep);
      SplitAcross(parts[0], Join(parts[1..], sep), sep);
      assert parts == [parts[0]] + parts[1..];
    }
  }
}
