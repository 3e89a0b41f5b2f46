/**
 `expand_vars`: `${NAME}` and `${NAME:-default}` in a configuration file. The
 scanner is proved against a grammar of pieces: every text it accepts is the
 printing of exactly one list of pieces, and its output is their meaning.
 */
module Template {
  import opened Common
  import opened Text
  import opened Utf8

  // ---- The grammar -----------------------------------------------------------

  /** `left` and `right` are the blanks a reference may carry around its name. */
  datatype Piece =
    | Literal(text: string)
    | Variable(left: string, name: string, right: string)
    | Defaulted(left: string, name: string, right: string, default: string)

  datatype Error = Unterminated(at: nat) | NotAName(inner: string) | Unset(name: string)

  type Lookup = string -> Option<string>

  predicate IsNameChar(c: char) {
    'a' <= c <= 'z' || 'A' <= c <= 'Z' || '0' <= c <= '9' || c == '_'
  }

  predicate IsName(s: string) {
    s != "" && forall i :: 0 <= i < |s| ==> IsNameChar(s[i])
  }

  /** A reference opens at `i`. */
  predicate OpensAt(s: string, i: nat) {
    i + 1 < |s| && s[i] == '$' && s[i + 1] == '{'
  }

  ghost predicate NoReference(s: string) {
    forall i: nat :: !OpensAt(s, i)
  }

  ghost predicate WellFormedPiece(p: Piece) {
    match p
    case Literal(text) => text != "" && NoReference(text)
    case Variable(left, name, right) => IsBlank(left) && IsName(name) && IsBlank(right)
    case Defaulted(left, name, right, default) => IsBlank(left) && IsName(name) && IsBlank(right) && '}' !in default
  }

  /** Pieces as an author would write them: no literal split in two. */
  ghost predicate WellFormed(ps: seq<Piece>) {
    && (forall i :: 0 <= i < |ps| ==> WellFormedPiece(ps[i]))
    && (forall i :: 0 <= i < |ps| - 1 ==> !(ps[i].Literal? && ps[i + 1].Literal?))
  }

  function Inner(p: Piece): string
    requires !p.Literal?
  {
    match p
    case Variable(left, name, right) => left + name + right
    case Defaulted(left, name, right, default) => left + name + right + ":-" + default
  }

  function Wrapped(inner: string): string {
    ['$', '{'] + inner + ['}']
  }

  function PrintPiece(p: Piece): string {
    if p.Literal? then p.text else Wrapped(Inner(p))
  }

  function Print(ps: seq<Piece>): string {
    if ps == [] then "" else PrintPiece(ps[0]) + Print(ps[1..])
  }

  function PieceValue(p: Piece, lookup: Lookup): Result<string, Error> {
    match p
    case Literal(text) => Ok(text)
    case Variable(_, name, _) =>
      (match lookup(name) case Some(v) => Ok(v) case None => Err(Unset(name)))
    case Defaulted(_, name, _, default) =>
      (match lookup(name) case Some(v) => Ok(v) case None => Ok(default))
  }

  function Prepend(s: string, r: Result<string, Error>): Result<string, Error> {
    match r case Ok(t) => Ok(s + t) case Err(e) => Err(e)
  }

  function Then(first: Result<string, Error>, rest: Result<string, Error>): Result<string, Error> {
    match first case Ok(s) => Prepend(s, rest) case Err(e) => Err(e)
  }

  /** What a list of pieces means; substituted values are taken verbatim. */
  function Meaning(ps: seq<Piece>, lookup: Lookup): Result<string, Error> {
    if ps == [] then Ok("") else Then(PieceValue(ps[0], lookup), Meaning(ps[1..], lookup))
  }

  // ---- Reading a text as pieces ----------------------------------------------

  /** The first `:-`, as `split_once` finds it. */
  function FindSeparator(s: string): (r: Option<nat>)
    ensures r.Some? ==> r.value + 1 < |s|
  {
    if |s| < 2 then None
    else if s[0] == ':' && s[1] == '-' then Some(0)
    else
      match FindSeparator(s[1..])
      case None => None
      case Some(k) => Some(k + 1)
  }

  /** What comes before the separator, or everything. */
  function NamePart(inner: string): string {
    var sep := FindSeparator(inner);
    if sep.Some? then inner[..sep.value] else inner
  }

  function ReadReference(inner: string): Option<Piece> {
    var sep := FindSeparator(inner);
    var (left, name, right) := Trimmed(NamePart(inner));
    if !IsName(name) then None
    else if sep.Some? then Some(Defaulted(left, name, right, inner[sep.value + 2..]))
    else Some(Variable(left, name, right))
  }

  /** A character in front of the pieces: it joins a literal that leads them. */
  function Absorb(c: char, ps: seq<Piece>): seq<Piece> {
    if ps != [] && ps[0].Literal? then [Literal([c] + ps[0].text)] + ps[1..]
    else [Literal([c])] + ps
  }

  datatype Fault = Unclosed | BadName(inner: string)

  /** The pieces up to the first malformed reference, and what is wrong there. */
  datatype Reading = Reading(pieces: seq<Piece>, fault: Option<Fault>)

  /** A piece in front of a reading. */
  function Before(p: Piece, r: Reading): Reading {
    Reading([p] + r.pieces, r.fault)
  }

  function Read(text: string): Reading {
    if text == "" then Reading([], None)
    else if OpensAt(text, 0) then
      match Find(text[2..], '}')
      case None => Reading([], Some(Unclosed))
      case Some(k) =>
        match ReadReference(text[2..2 + k])
        case None => Reading([], Some(BadName(text[2..2 + k])))
        case Some(p) => Before(p, Read(text[k + 3..]))
    else
      var rest := Read(text[1..]);
      Reading(Absorb(text[0], rest.pieces), rest.fault)
  }

  /** The first unset variable, else the fault and where it is, else the expanded text. */
  function Expanded(r: Reading, lookup: Lookup): Result<string, Error> {
    match Meaning(r.pieces, lookup)
    case Err(e) => Err(e)
    case Ok(s) =>
      match r.fault
      case None => Ok(s)
      case Some(Unclosed) => Err(Unterminated(ByteLen(Print(r.pieces))))
      case Some(BadName(inner)) => Err(NotAName(inner))
  }

  lemma MeaningOfAbsorb(c: char, ps: seq<Piece>, lookup: Lookup)
    ensures Meaning(Absorb(c, ps), lookup) == Prepend([c], Meaning(ps, lookup))
  {
    if ps != [] && ps[0].Literal? {
      assert Absorb(c, ps)[1..] == ps[1..];
      var rest := Meaning(ps[1..], lookup);
      if rest.Ok? {
        assert ([c] + ps[0].text) + rest.value == [c] + (ps[0].text + rest.value);
      }
    } else {
      assert Absorb(c, ps)[1..] == ps;
    }
  }

  lemma PrependTwice(s: string, t: string, r: Result<string, Error>)
    ensures Prepend(s, Prepend(t, r)) == Prepend(s + t, r)
  {
    if r.Ok? {
      assert s + (t + r.value) == (s + t) + r.value;
    }
  }

  // ---- Reading undoes printing ------------------------------------------------

  lemma {:induction false} SeparatorAfter(s: string, rest: string)
    requires ':' !in s
    ensures FindSeparator(s + ":-" + rest) == Some(|s|)
  {
    var t := s + ":-" + rest;
    if s != "" {
      assert t[0] == s[0] && s[0] in s;
      assert t[1..] == s[1..] + ":-" + rest;
      SeparatorAfter(s[1..], rest);
    }
  }

  lemma {:induction false} NoSeparator(s: string)
    requires ':' !in s
    ensures FindSeparator(s) == None
  {
    if |s| >= 2 {
      assert s[0] in s;
      NoSeparator(s[1..]);
    }
  }

  lemma TrimmedName(left: string, name: string, right: string)
    requires IsBlank(left) && IsName(name) && IsBlank(right)
    ensures Trimmed(left + name + right) == (left, name, right)
  {
    var s := left + name + right;
    assert s == left + (name + right);
    assert IsNameChar(name[0]) && IsNameChar(name[|name| - 1]);
    LeadingBlanksOf(left, name + right);
    assert s[|left|..] == name + right;
    TrailingBlanksOf(name, right);
    assert s[..|left|] == left;
  }

  lemma PlainName(left: string, name: string, right: string)
    requires IsBlank(left) && IsName(name) && IsBlank(right)
    ensures ':' !in left + name + right && '}' !in left + name + right
  {
  }

  lemma CutOfDefaulted(bare: string, default: string)
    requires ':' !in bare
    ensures var inner := bare + ":-" + default;
            FindSeparator(inner) == Some(|bare|) && NamePart(inner) == bare && inner[|bare| + 2..] == default
  {
    SeparatorAfter(bare, default);
  }

  lemma ReadOfInner(p: Piece)
    requires !p.Literal? && WellFormedPiece(p)
    ensures ReadReference(Inner(p)) == Some(p) && '}' !in Inner(p)
  {
    var bare := p.left + p.name + p.right;
    PlainName(p.left, p.name, p.right);
    TrimmedName(p.left, p.name, p.right);
    if p.Variable? {
      NoSeparator(bare);
    } else {
      CutOfDefaulted(bare, p.default);
    }
  }

  lemma NoReferenceTail(text: string)
    requires text != "" && NoReference(text)
    ensures NoReference(text[1..])
  {
    forall i: nat ensures !OpensAt(text[1..], i) {
      assert !OpensAt(text, i + 1);
    }
  }

  /** A character that opens nothing joins what is read behind it. */
  lemma ReadChar(text: string)
    requires text != "" && !OpensAt(text, 0)
    ensures Read(text) == Reading(Absorb(text[0], Read(text[1..]).pieces), Read(text[1..]).fault)
  {
  }

  lemma AbsorbLiteral(c: char, tail: string, ps: seq<Piece>)
    ensures Absorb(c, [Literal(tail)] + ps) == [Literal([c] + tail)] + ps
  {
    assert ([Literal(tail)] + ps)[1..] == ps;
  }

  /** One more character in front of a literal that is read whole. */
  lemma LiteralGrows(text: string, tail: string, behind: Reading)
    requires text != "" && !OpensAt(text, 0) && Read(text[1..]) == Before(Literal(tail), behind)
    ensures Read(text) == Before(Literal([text[0]] + tail), behind)
  {
    ReadChar(text);
    AbsorbLiteral(text[0], tail, behind.pieces);
  }

  lemma LiteralStarts(text: string)
    requires text != "" && !OpensAt(text, 0)
    requires Read(text[1..]).pieces == [] || !Read(text[1..]).pieces[0].Literal?
    ensures Read(text) == Before(Literal([text[0]]), Read(text[1..]))
  {
    ReadChar(text);
  }

  lemma FirstOfLiteral(text: string, rest: string)
    requires text != "" && NoReference(text) && (rest == "" || rest[0] != '{')
    ensures !OpensAt(text + rest, 0) && [(text + rest)[0]] + text[1..] == text
    ensures (text + rest)[1..] == text[1..] + rest
    ensures text[1..] == "" ==> (text + rest)[1..] == rest && [(text + rest)[0]] == text
  {
    assert !OpensAt(text, 0);
  }

  /** A literal in front of anything that does not open with a brace is read whole. */
  lemma {:induction false} ReadOfLiteral(text: string, rest: string)
    requires text != "" && NoReference(text) && (rest == "" || rest[0] != '{')
    requires Read(rest).pieces == [] || !Read(rest).pieces[0].Literal?
    ensures Read(text + rest) == Before(Literal(text), Read(rest))
  {
    FirstOfLiteral(text, rest);
    if text[1..] == "" {
      LiteralStarts(text + rest);
    } else {
      NoReferenceTail(text);
      ReadOfLiteral(text[1..], rest);
      LiteralGrows(text + rest, text[1..], Read(rest));
    }
  }

  lemma WrappedCut(inner: string, rest: string)
    ensures var text, k := Wrapped(inner) + rest, |inner|;
            && OpensAt(text, 0) && |text| >= k + 3
            && text[2..] == inner + ['}'] + rest && text[2..2 + k] == inner && text[k + 3..] == rest
  {
  }

  /** One reference read, with the rest of the text behind it. */
  lemma ReadStep(inner: string, rest: string)
    requires '}' !in inner
    ensures Read(Wrapped(inner) + rest) ==
            match ReadReference(inner)
            case None => Reading([], Some(BadName(inner)))
            case Some(p) => Before(p, Read(rest))
  {
    WrappedCut(inner, rest);
    FindAfter(inner, '}', rest);
  }

  lemma ReadOfReference(p: Piece, rest: string)
    requires !p.Literal? && WellFormedPiece(p)
    ensures Read(PrintPiece(p) + rest) == Before(p, Read(rest))
  {
    ReadOfInner(p);
    ReadStep(Inner(p), rest);
  }

  lemma TailKeepsForm(ps: seq<Piece>)
    requires WellFormed(ps) && ps != []
    ensures WellFormed(ps[1..]) && WellFormedPiece(ps[0])
    ensures ps[0].Literal? && |ps| > 1 ==> !ps[1..][0].Literal?
  {
    var qs := ps[1..];
    forall i | 0 <= i < |qs| - 1
      ensures !(qs[i].Literal? && qs[i + 1].Literal?)
    {
      assert qs[i] == ps[i + 1] && qs[i + 1] == ps[i + 2];
    }
  }

  lemma PrintOpens(ps: seq<Piece>)
    requires ps != [] && !ps[0].Literal?
    ensures Print(ps) != "" && Print(ps)[0] == '$'
  {
  }

  /** Printing then reading returns the very pieces printed, and no fault. */
  lemma {:induction false} ReadPrint(ps: seq<Piece>)
    requires WellFormed(ps)
    ensures Read(Print(ps)) == Reading(ps, None)
  {
    if ps != [] {
      var rest := Print(ps[1..]);
      TailKeepsForm(ps);
      ReadPrint(ps[1..]);
      assert Read(PrintPiece(ps[0]) + rest) == Before(ps[0], Read(rest)) by {
        if ps[0].Literal? {
          if |ps| > 1 {
            PrintOpens(ps[1..]);
          }
          ReadOfLiteral(ps[0].text, rest);
        } else {
          ReadOfReference(ps[0], rest);
        }
      }
      assert ps == [ps[0]] + ps[1..];
    }
  }

  /** The round trip: a printed template expands to what its pieces mean. */
  lemma ExpandPrint(ps: seq<Piece>, lookup: Lookup)
    requires WellFormed(ps)
    ensures Expanded(Read(Print(ps)), lookup) == Meaning(ps, lookup)
  {
    ReadPrint(ps);
  }

  // ---- Printing undoes reading ------------------------------------------------

  lemma PrintOfAbsorb(c: char, ps: seq<Piece>)
    ensures Print(Absorb(c, ps)) == [c] + Print(ps)
  {
    if ps != [] && ps[0].Literal? {
      assert Absorb(c, ps)[1..] == ps[1..];
      assert ([c] + ps[0].text) + Print(ps[1..]) == [c] + (ps[0].text + Print(ps[1..]));
    } else {
      assert Absorb(c, ps)[1..] == ps;
    }
  }

  lemma FirstSeparator(s: string)
    ensures FindSeparator(s).Some? ==> s[FindSeparator(s).value..][..2] == ":-"
  {
    if |s| >= 2 && !(s[0] == ':' && s[1] == '-') {
      FirstSeparator(s[1..]);
    }
  }

  lemma CutAtSeparator(inner: string, k: nat)
    requires FindSeparator(inner) == Some(k)
    ensures inner == inner[..k] + ":-" + inner[k + 2..]
  {
    FirstSeparator(inner);
    assert inner == inner[..k] + inner[k..][..2] + inner[k + 2..];
  }

  lemma InnerOfRead(inner: string)
    requires ReadReference(inner).Some? && '}' !in inner
    ensures var p := ReadReference(inner).value;
            !p.Literal? && WellFormedPiece(p) && Inner(p) == inner
  {
    var part := NamePart(inner);
    var (left, name, right) := Trimmed(part);
    TrimmedParts(part);
    var sep := FindSeparator(inner);
    if sep.Some? {
      var default := inner[sep.value + 2..];
      CutAtSeparator(inner, sep.value);
      assert ReadReference(inner) == Some(Defaulted(left, name, right, default));
      assert left + name + right + ":-" + default == inner;
    } else {
      assert ReadReference(inner) == Some(Variable(left, name, right));
    }
  }

  lemma AbsorbIntoLiteral(c: char, ps: seq<Piece>)
    requires WellFormed(ps) && ps != [] && ps[0].Literal? && !(c == '$' && ps[0].text[0] == '{')
    ensures WellFormed(Absorb(c, ps))
  {
    var qs := Absorb(c, ps);
    forall i: nat
      ensures !OpensAt(qs[0].text, i)
    {
      assert i > 0 ==> !OpensAt(ps[0].text, i - 1);
    }
    forall i | 0 <= i < |qs| - 1
      ensures !(qs[i].Literal? && qs[i + 1].Literal?)
    {
      assert !(ps[i].Literal? && ps[i + 1].Literal?);
    }
  }

  lemma AbsorbInFront(c: char, ps: seq<Piece>)
    requires WellFormed(ps) && (ps == [] || !ps[0].Literal?)
    ensures WellFormed(Absorb(c, ps))
  {
    FrontKeepsForm(Literal([c]), ps);
  }

  lemma FrontKeepsForm(p: Piece, ps: seq<Piece>)
    requires WellFormed(ps) && WellFormedPiece(p) && !(p.Literal? && ps != [] && ps[0].Literal?)
    ensures WellFormed([p] + ps)
  {
    var qs := [p] + ps;
    forall i | 0 <= i < |qs| - 1
      ensures !(qs[i].Literal? && qs[i + 1].Literal?)
    {
      assert i > 0 ==> qs[i] == ps[i - 1] && qs[i + 1] == ps[i];
    }
  }

  /** The reading accounts for the whole text, up to a reference it faults. */
  ghost predicate Faithful(r: Reading, text: string) {
    && WellFormed(r.pieces) && Print(r.pieces) <= text
    && (r.fault.None? <==> Print(r.pieces) == text)
    && (r.fault.Some? ==> OpensAt(text[|Print(r.pieces)|..], 0))
  }

  lemma FaithfulAbsorb(c: char, r: Reading, text: string)
    requires Faithful(r, text) && !OpensAt([c] + text, 0)
    ensures Faithful(Reading(Absorb(c, r.pieces), r.fault), [c] + text)
  {
    var ps := r.pieces;
    PrintOfAbsorb(c, ps);
    if ps != [] && ps[0].Literal? {
      assert Print(ps)[0] == ps[0].text[0] && text[0] == Print(ps)[0];
      AbsorbIntoLiteral(c, ps);
    } else {
      AbsorbInFront(c, ps);
    }
    assert ([c] + text)[1 + |Print(ps)|..] == text[|Print(ps)|..];
  }

  lemma FaithfulBefore(p: Piece, r: Reading, text: string)
    requires Faithful(r, text) && WellFormedPiece(p) && !p.Literal?
    ensures Faithful(Before(p, r), PrintPiece(p) + text)
  {
    FrontKeepsForm(p, r.pieces);
    PrintOfBefore(p, r.pieces);
    PrefixBehind(PrintPiece(p), Print(r.pieces), text);
  }

  lemma PrintOfBefore(p: Piece, ps: seq<Piece>)
    ensures Print([p] + ps) == PrintPiece(p) + Print(ps)
  {
    assert ([p] + ps)[1..] == ps;
  }

  lemma PrefixBehind(head: string, part: string, text: string)
    requires part <= text
    ensures head + part <= head + text && (head + part == head + text <==> part == text)
    ensures (head + text)[|head + part|..] == text[|part|..]
  {
    if head + part == head + text {
      assert part == (head + part)[|head|..] && text == (head + text)[|head|..];
    }
  }

  /** The text of a reference that is closed, taken apart. */
  lemma OpenText(text: string, k: nat)
    requires OpensAt(text, 0) && Find(text[2..], '}') == Some(k)
    ensures '}' !in text[2..2 + k] && text == Wrapped(text[2..2 + k]) + text[k + 3..]
  {
    FindIsFirst(text[2..], '}');
    assert text[2..2 + k] == text[2..][..k];
  }

  /**
   Every text is read as well-formed pieces, followed by nothing, or by the
   malformed reference the fault names.
   */
  lemma {:induction false} PrintRead(text: string)
    ensures Faithful(Read(text), text)
    decreases |text|
  {
    assert text[|Print([])|..] == text;
    if text == "" {
    } else if OpensAt(text, 0) {
      var k := Find(text[2..], '}');
      if k.Some? {
        var inner, rest := text[2..2 + k.value], text[k.value + 3..];
        OpenText(text, k.value);
        if ReadReference(inner).Some? {
          InnerOfRead(inner);
          PrintRead(rest);
          FaithfulBefore(ReadReference(inner).value, Read(rest), rest);
        }
      }
    } else {
      PrintRead(text[1..]);
      assert text == [text[0]] + text[1..];
      FaithfulAbsorb(text[0], Read(text[1..]), text[1..]);
    }
  }

  /** Text with no reference in it comes out as it went in. */
  lemma PlainTextIsUnchanged(text: string, lookup: Lookup)
    requires NoReference(text)
    ensures Expanded(Read(text), lookup) == Ok(text)
  {
    if text != "" {
      var ps := [Literal(text)];
      assert ps[1..] == [];
      assert Print(ps) == text + Print([]);
      assert text + "" == text;
      ExpandPrint(ps, lookup);
    }
  }

  // ---- The scanner --------------------------------------------------------------

  /** What is left to read at `i`, given what was written so far. */
  ghost predicate Resumes(text: string, i: nat, out: string, lookup: Lookup) {
    && i <= |text|
    && Read(text).fault == Read(text[i..]).fault
    && |Print(Read(text).pieces)| == i + |Print(Read(text[i..]).pieces)|
    && Meaning(Read(text).pieces, lookup) == Prepend(out, Meaning(Read(text[i..]).pieces, lookup))
  }

  lemma ResumesAtStart(text: string, lookup: Lookup)
    ensures Resumes(text, 0, "", lookup)
  {
    assert text[0..] == text;
    var m := Meaning(Read(text).pieces, lookup);
    assert m.Ok? ==> "" + m.value == m.value;
  }

  lemma ResumesPastChar(text: string, i: nat, out: string, lookup: Lookup)
    requires Resumes(text, i, out, lookup) && i < |text| && !OpensAt(text, i)
    ensures Resumes(text, i + 1, out + [text[i]], lookup)
  {
    var here := text[i..];
    assert !OpensAt(here, 0) && here[1..] == text[i + 1..] && here[0] == text[i];
    var rest := Read(text[i + 1..]).pieces;
    MeaningOfAbsorb(text[i], rest, lookup);
    PrintOfAbsorb(text[i], rest);
    PrependTwice(out, [text[i]], Meaning(rest, lookup));
  }

  /** A reference in front of pieces: its value leads, its text is printed first. */
  lemma MeaningOfBefore(p: Piece, ps: seq<Piece>, lookup: Lookup)
    ensures Print([p] + ps) == PrintPiece(p) + Print(ps)
    ensures Meaning([p] + ps, lookup) == Then(PieceValue(p, lookup), Meaning(ps, lookup))
  {
    assert ([p] + ps)[1..] == ps;
  }

  /** The reference that opens at `i` closes just before `next`, around `inner`. */
  ghost predicate ClosesAt(text: string, i: nat, next: nat, inner: string) {
    && OpensAt(text, i) && i + 3 <= next <= |text|
    && Find(text[i + 2..], '}') == Some(next - i - 3) && inner == text[i + 2..next - 1]
  }

  lemma ReadAtReference(text: string, i: nat, next: nat, inner: string)
    requires ClosesAt(text, i, next, inner)
    ensures ReadReference(inner).None? ==> Read(text[i..]) == Reading([], Some(BadName(inner)))
    ensures ReadReference(inner).Some? ==>
              && Read(text[i..]) == Before(ReadReference(inner).value, Read(text[next..]))
              && |PrintPiece(ReadReference(inner).value)| == next - i
  {
    var here, rest, k := text[i..], text[next..], next - i - 3;
    assert here[2..] == text[i + 2..] && here[2..2 + k] == inner && here[k + 3..] == rest;
    OpenText(here, k);
    ReadStep(inner, rest);
    if ReadReference(inner).Some? {
      InnerOfRead(inner);
    }
  }

  lemma ResumesPastReference(text: string, i: nat, out: string, lookup: Lookup, next: nat, inner: string, value: string)
    requires Resumes(text, i, out, lookup) && ClosesAt(text, i, next, inner)
    requires ReadReference(inner).Some? && PieceValue(ReadReference(inner).value, lookup) == Ok(value)
    ensures Resumes(text, next, out + value, lookup)
  {
    var p, ps := ReadReference(inner).value, Read(text[next..]).pieces;
    ReadAtReference(text, i, next, inner);
    MeaningOfBefore(p, ps, lookup);
    PrependTwice(out, value, Meaning(ps, lookup));
  }

  /** A reference that cannot be resolved settles the answer. */
  lemma SettledByUnset(text: string, i: nat, out: string, lookup: Lookup, next: nat, inner: string, e: Error)
    requires Resumes(text, i, out, lookup) && ClosesAt(text, i, next, inner)
    requires ReadReference(inner).Some? && PieceValue(ReadReference(inner).value, lookup) == Err(e)
    ensures Expanded(Read(text), lookup) == Err(e)
  {
    ReadAtReference(text, i, next, inner);
    MeaningOfBefore(ReadReference(inner).value, Read(text[next..]).pieces, lookup);
  }

  /** A reference that is never closed ends the reading where it opens. */
  lemma ReadAtUnclosed(text: string, i: nat)
    requires OpensAt(text, i) && Find(text[i + 2..], '}') == None
    ensures Read(text[i..]) == Reading([], Some(Unclosed))
  {
    assert OpensAt(text[i..], 0) && text[i..][2..] == text[i + 2..];
  }

  /** It settles the answer, once everything before it is written. */
  lemma SettledByFault(text: string, i: nat, out: string, lookup: Lookup, fault: Fault)
    requires Resumes(text, i, out, lookup) && Read(text[i..]) == Reading([], Some(fault))
    ensures fault.Unclosed? ==> Expanded(Read(text), lookup) == Err(Unterminated(ByteLen(text[..i])))
    ensures fault.BadName? ==> Expanded(Read(text), lookup) == Err(NotAName(fault.inner))
  {
    Settled(text, i, out, lookup);
  }

  lemma SettledByUnclosed(text: string, i: nat, out: string, lookup: Lookup)
    requires OpensAt(text, i) && Resumes(text, i, out, lookup) && Find(text[i + 2..], '}') == None
    ensures Expanded(Read(text), lookup) == Err(Unterminated(ByteLen(text[..i])))
  {
    ReadAtUnclosed(text, i);
    SettledByFault(text, i, out, lookup, Unclosed);
  }

  /** Where the scan stops for good: the answer is settled there. */
  lemma Settled(text: string, i: nat, out: string, lookup: Lookup)
    requires Resumes(text, i, out, lookup)
    ensures Read(text[i..]).pieces == [] ==> Print(Read(text).pieces) == text[..i]
    ensures Read(text[i..]).pieces == [] ==> Meaning(Read(text).pieces, lookup) == Ok(out)
  {
    PrintRead(text);
    assert out + "" == out;
  }

  function Resolved(inner: string, lookup: Lookup): Result<string, Error> {
    match ReadReference(inner)
    case None => Err(NotAName(inner))
    case Some(p) => PieceValue(p, lookup)
  }

  /** A closed reference either moves the scan past it or settles the answer. */
  lemma PastReference(text: string, i: nat, out: string, lookup: Lookup,
                      next: nat, inner: string, v: Result<string, Error>)
    requires Resumes(text, i, out, lookup) && ClosesAt(text, i, next, inner) && v == Resolved(inner, lookup)
    ensures v.Ok? ==> Resumes(text, next, out + v.value, lookup)
    ensures v.Err? ==> Expanded(Read(text), lookup) == Err(v.error)
  {
    if ReadReference(inner).None? {
      ReadAtReference(text, i, next, inner);
      SettledByFault(text, i, out, lookup, BadName(inner));
    } else if v.Err? {
      SettledByUnset(text, i, out, lookup, next, inner, v.error);
    } else {
      ResumesPastReference(text, i, out, lookup, next, inner, v.value);
    }
  }

  /** Looking a name up, with the default if there is one. */
  method LookUp(name: string, default: Option<string>, lookup: Lookup) returns (r: Result<string, Error>)
    ensures r == if default.Some? then PieceValue(Defaulted("", name, "", default.value), lookup)
                 else PieceValue(Variable("", name, ""), lookup)
  {
    match lookup(name) {
      case Some(value) => return Ok(value);
      case None => return if default.Some? then Ok(default.value) else Err(Unset(name));
    }
  }

  /** The inside of one `${...}`: split at `:-`, trimmed, checked and looked up. */
  method Resolve(inner: string, lookup: Lookup) returns (r: Result<string, Error>)
    ensures r == Resolved(inner, lookup)
  {
    var sep := FindSeparator(inner);
    var name := Trimmed(NamePart(inner)).1;
    if IsName(name) {
      var default := if sep.Some? then Some(inner[sep.value + 2..]) else None;
      r := LookUp(name, default, lookup);
    } else {
      r := Err(NotAName(inner));
    }
  }

  /** The reference from `i` up to `next`, or why it has no value. */
  method TakeClosed(text: string, i: nat, ghost out: string, lookup: Lookup, next: nat)
    returns (value: Result<string, Error>)
    requires Resumes(text, i, out, lookup)
    requires i + 3 <= next <= |text| && ClosesAt(text, i, next, text[i + 2..next - 1])
    ensures value.Ok? ==> Resumes(text, next, out + value.value, lookup)
    ensures value.Err? ==> Expanded(Read(text), lookup) == Err(value.error)
  {
    var inner := text[i + 2..next - 1];
    value := Resolve(inner, lookup);
    PastReference(text, i, out, lookup, next, inner, value);
  }

  /** A reference at `i`: the text it stands for and where the scan goes on, or the error. */
  method TakeReference(text: string, i: nat, ghost out: string, lookup: Lookup)
    returns (value: Result<string, Error>, next: nat)
    requires OpensAt(text, i) && Resumes(text, i, out, lookup)
    ensures value.Ok? ==> i < next && Resumes(text, next, out + value.value, lookup)
    ensures value.Err? ==> Expanded(Read(text), lookup) == Err(value.error)
  {
    var p := Find(text[i + 2..], '}');
    if p.None? {
      SettledByUnclosed(text, i, out, lookup);
      return Err(Unterminated(ByteLen(text[..i]))), i;
    }
    next := i + p.value + 3;
    value := TakeClosed(text, i, out, lookup, next);
  }

  /** `expand_vars`: one pass, an index and an output buffer. */
  method ExpandVars(text: string, lookup: Lookup) returns (r: Result<string, Error>)
    ensures r == Expanded(Read(text), lookup)
  {
    var out := "";
    var i := 0;
    ResumesAtStart(text, lookup);
    while i < |text|
      invariant Resumes(text, i, out, lookup)
      decreases |text| - i
    {
      if text[i] == '$' && i + 1 < |text| && text[i + 1] == '{' {
        var value, next := TakeReference(text, i, out, lookup);
        if value.Err? {
          return value;
        }
        out := out + value.value;
        i := next;
      } else {
        ResumesPastChar(text, i, out, lookup);
        out := out + [text[i]];
        i := i + 1;
      }
    }
    SettledAtEnd(text, out, lookup);
    return Ok(out);
  }

  lemma SettledAtEnd(text: string, out: string, lookup: Lookup)
    requires Resumes(text, |text|, out, lookup)
    ensures Expanded(Read(text), lookup) == Ok(out)
  {
    assert text[|text|..] == "";
    Settled(text, |text|, out, lookup);
  }

  // ---- What a reference stands for ---------------------------------------------------------

  /** A name is ASCII digits, letters of either case and underscores, at least one. */
  lemma NameIs(s: string)
    ensures IsName(s) <==> s != "" && forall i :: 0 <= i < |s| ==>
              var n := s[i] as int; 48 <= n <= 57 || 65 <= n <= 90 || n == 95 || 97 <= n <= 122
  {
  }

  lemma MeaningOfOne(p: Piece, lookup: Lookup)
    ensures Meaning([p], lookup) == PieceValue(p, lookup)
  {
    assert [p][1..] == [];
    var v := PieceValue(p, lookup);
    if v.Ok? {
      assert v.value + "" == v.value;
    }
  }

  lemma PrintOfOne(p: Piece)
    ensures Print([p]) == PrintPiece(p)
  {
    assert [p][1..] == [] && PrintPiece(p) + "" == PrintPiece(p);
  }

  /** A set variable is its value; an unset one is an error. */
  lemma VariableMeans(left: string, name: string, right: string, lookup: Lookup)
    requires IsBlank(left) && IsName(name) && IsBlank(right)
    ensures var r := Expanded(Read(Wrapped(left + name + right)), lookup);
            && (lookup(name).Some? ==> r == Ok(lookup(name).value))
            && (lookup(name).None? ==> r == Err(Unset(name)))
  {
    var p := Variable(left, name, right);
    ExpandPrint([p], lookup);
    PrintOfOne(p);
    MeaningOfOne(p, lookup);
  }

  /** With a default, a set variable is still its value; the default is for an unset one. */
  lemma DefaultedMeans(left: string, name: string, right: string, default: string, lookup: Lookup)
    requires IsBlank(left) && IsName(name) && IsBlank(right) && '}' !in default
    ensures var r := Expanded(Read(Wrapped(left + name + right + ":-" + default)), lookup);
            && (lookup(name).Some? ==> r == Ok(lookup(name).value))
            && (lookup(name).None? ==> r == Ok(default))
  {
    var p := Defaulted(left, name, right, default);
    ExpandPrint([p], lookup);
    PrintOfOne(p);
    MeaningOfOne(p, lookup);
  }

  /** A template means its parts, one after the other. */
  lemma {:induction false} MeaningAcross(ps: seq<Piece>, qs: seq<Piece>, lookup: Lookup)
    ensures Meaning(ps + qs, lookup) == Then(Meaning(ps, lookup), Meaning(qs, lookup))
  {
    var last := Meaning(qs, lookup);
    if ps == [] {
      assert ps + qs == qs;
      assert last.Ok? ==> "" + last.value == last.value;
    } else {
      assert (ps + qs)[1..] == ps[1..] + qs;
      MeaningAcross(ps[1..], qs, lookup);
      var first, rest := PieceValue(ps[0], lookup), Meaning(ps[1..], lookup);
      if first.Ok? && rest.Ok? {
        PrependTwice(first.value, rest.value, last);
      }
    }
  }

  /** What follows a plain text decides, when it opens with a reference that is at fault. */
  lemma FaultBehind(plain: string, rest: string, fault: Fault, lookup: Lookup)
    requires NoReference(plain) && rest != "" && rest[0] == '$' && Read(rest) == Reading([], Some(fault))
    ensures Expanded(Read(plain + rest), lookup)
         == Expanded(Reading(if plain == "" then [] else [Literal(plain)], Some(fault)), lookup)
    ensures Print(if plain == "" then [] else [Literal(plain)]) == plain
    ensures Meaning(if plain == "" then [] else [Literal(plain)], lookup) == Ok(plain)
  {
    if plain == "" {
      assert plain + rest == rest;
    } else {
      ReadOfLiteral(plain, rest);
      PrintOfOne(Literal(plain));
      MeaningOfOne(Literal(plain), lookup);
      assert [Literal(plain)] + [] == [Literal(plain)];
    }
  }

  /** A reference that is never closed is reported at the byte it opens. */
  lemma UnclosedMeans(plain: string, rest: string, lookup: Lookup)
    requires NoReference(plain) && '}' !in rest
    ensures Expanded(Read(plain + (['$', '{'] + rest)), lookup) == Err(Unterminated(ByteLen(plain)))
  {
    var open := ['$', '{'] + rest;
    assert open[2..] == rest;
    FindNone(rest, '}');
    assert OpensAt(open, 0);
    FaultBehind(plain, open, Unclosed, lookup);
  }

  /** A reference whose trimmed name is not a name is reported with its inside. */
  lemma BadNameMeans(plain: string, inner: string, rest: string, lookup: Lookup)
    requires NoReference(plain) && '}' !in inner && !IsName(Trimmed(NamePart(inner)).1)
    ensures Expanded(Read(plain + (Wrapped(inner) + rest)), lookup) == Err(NotAName(inner))
  {
    ReadStep(inner, rest);
    assert (Wrapped(inner) + rest)[0] == '$';
    FaultBehind(plain, Wrapped(inner) + rest, BadName(inner), lookup);
  }

  /** The name ends at the first `:-`, and without one it is everything. */
  lemma NamePartIs(name: string, default: string)
    requires ':' !in name
    ensures NamePart(name) == name && NamePart(name + ":-" + default) == name
  {
    NoSeparator(name);
    CutOfDefaulted(name, default);
  }
}
