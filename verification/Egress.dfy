/**
 The egress proxy value `[scheme://][user:password@]host[:port]`, the URL it is
 printed back to, and the list of destinations that bypass it.
 */
module Egress {
  import opened Common
  import opened Text

  datatype Proxy = Proxy(host: string, port: nat, credentials: Option<(string, string)>)

  datatype ParseError =
    | Empty | HttpsProxy | UnknownScheme(scheme: string) | HasPath | NoHost
    | UnclosedBracket | NoPortAfterBracket | PortWithoutHost | BadPort | EmptyCredential

  // ---- Ports ---------------------------------------------------------------------

  predicate IsDigit(c: char) {
    '0' <= c <= '9'
  }

  function DigitsValue(s: string): Option<nat> {
    if s == "" then Some(0)
    else
      match DigitsValue(s[..|s| - 1])
      case None => None
      case Some(n) =>
        var c := s[|s| - 1];
        if IsDigit(c) then Some(10 * n + (c as int - '0' as int)) else None
  }

  /** `parse::<u16>`: an optional plus sign, then digits, at most 65535. */
  function ParsePort(s: string): Option<nat> {
    var digits := if |s| > 1 && s[0] == '+' then s[1..] else s;
    if digits == "" then None
    else
      match DigitsValue(digits)
      case None => None
      case Some(n) => if n <= 0xFFFF then Some(n) else None
  }

  function PrintNat(n: nat): string {
    var digit := (n % 10 + '0' as int) as char;
    if n < 10 then [digit] else PrintNat(n / 10) + [digit]
  }

  lemma {:induction false} PrintNatRoundTrip(n: nat)
    ensures DigitsValue(PrintNat(n)) == Some(n)
    ensures PrintNat(n) != "" && forall i :: 0 <= i < |PrintNat(n)| ==> IsDigit(PrintNat(n)[i])
  {
    var s := PrintNat(n);
    if n < 10 {
      assert s[..|s| - 1] == "";
    } else {
      PrintNatRoundTrip(n / 10);
      assert s[..|s| - 1] == PrintNat(n / 10);
    }
  }

  lemma PortRoundTrip(port: nat)
    requires port <= 0xFFFF
    ensures ParsePort(PrintNat(port)) == Some(port)
  {
    PrintNatRoundTrip(port);
    assert IsDigit(PrintNat(port)[0]);
  }

  // ---- Host and port ----------------------------------------------------------------

  /** The last occurrence, as `rsplit_once` finds it. */
  function FindLast(s: string, c: char): (r: Option<nat>)
    ensures r.Some? ==> r.value < |s|
  {
    if s == "" then None
    else if s[|s| - 1] == c then Some(|s| - 1)
    else FindLast(s[..|s| - 1], c)
  }

  lemma {:induction false} FindLastBefore(head: string, c: char, tail: string)
    requires c !in tail
    ensures FindLast(head + [c] + tail, c) == Some(|head|)
  {
    var s := head + [c] + tail;
    if tail == "" {
      assert s == head + [c];
    } else {
      assert s[|s| - 1] == tail[|tail| - 1] && tail[|tail| - 1] in tail;
      assert s[..|s| - 1] == head + [c] + tail[..|tail| - 1];
      FindLastBefore(head, c, tail[..|tail| - 1]);
    }
  }

  lemma {:induction false} FindAbsent(s: string, c: char)
    requires c !in s
    ensures Find(s, c) == None && FindLast(s, c) == None
  {
    if s != "" {
      assert s[0] in s && s[|s| - 1] in s;
      FindAbsent(s[1..], c);
      FindAbsent(s[..|s| - 1], c);
    }
  }

  function WithPort(host: string, port: string): Result<(string, nat), ParseError> {
    match ParsePort(port)
    case None => Err(BadPort)
    case Some(n) => Ok((host, n))
  }

  /** What follows an opening bracket: `v6]:port`. */
  function SplitBracketed(rest: string): Result<(string, nat), ParseError> {
    match Find(rest, ']')
    case None => Err(UnclosedBracket)
    case Some(k) =>
      var tail := rest[k + 1..];
      if tail == "" || tail[0] != ':' then Err(NoPortAfterBracket) else WithPort(rest[..k], tail[1..])
  }

  /** `split_host_port`, with its `[v6]:port` form. */
  function SplitHostPort(raw: string): Result<(string, nat), ParseError> {
    if raw != "" && raw[0] == '[' then SplitBracketed(raw[1..])
    else
      match FindLast(raw, ':')
      case None => Ok((raw, 80))
      case Some(0) => Err(PortWithoutHost)
      case Some(k) => WithPort(raw[..k], raw[k + 1..])
  }

  // ---- The whole value ----------------------------------------------------------------

  /** The first `://`. */
  function FindScheme(s: string): (r: Option<nat>)
    ensures r.Some? ==> r.value + 3 <= |s|
  {
    if |s| < 3 then None
    else if s[0] == ':' && s[1] == '/' && s[2] == '/' then Some(0)
    else
      match FindScheme(s[1..])
      case None => None
      case Some(k) => Some(k + 1)
  }

  function TrimEnd(s: string, c: char): string {
    if s != "" && s[|s| - 1] == c then TrimEnd(s[..|s| - 1], c) else s
  }

  function SplitCredential(c: string): (string, string) {
    match Find(c, ':')
    case Some(k) => (c[..k], c[k + 1..])
    case None => (c, "")
  }

  /** What follows the last `@`, or everything. */
  function HostPart(rest: string): string {
    var at := FindLast(rest, '@');
    if at.Some? then rest[at.value + 1..] else rest
  }

  /** What follows the scheme. */
  function ParseRest(raw: string): Result<Proxy, ParseError> {
    var rest := TrimEnd(raw, '/');
    if '/' in rest then Err(HasPath)
    else
      var at := FindLast(rest, '@');
      var hostport := HostPart(rest);
      if hostport == "" then Err(NoHost)
      else
        match SplitHostPort(hostport)
        case Err(e) => Err(e)
        case Ok((host, port)) =>
          if at.None? then Ok(Proxy(host, port, None))
          else if at.value == 0 then Err(EmptyCredential)
          else Ok(Proxy(host, port, Some(SplitCredential(rest[..at.value]))))
  }

  function Parse(input: string): Result<Proxy, ParseError> {
    var raw := Trimmed(input).1;
    if raw == "" then Err(Empty)
    else
      match FindScheme(raw)
      case None => ParseRest(raw)
      case Some(k) =>
        var scheme := Lower(raw[..k]);
        if scheme == "http" then ParseRest(raw[k + 3..])
        else if scheme == "https" then Err(HttpsProxy)
        else Err(UnknownScheme(scheme))
  }

  /** Host and port as a URL writes them: an IPv6 literal goes in brackets. */
  function Authority(host: string, port: nat): string {
    (if ':' in host then "[" + host + "]" else host) + ":" + PrintNat(port)
  }

  function Url(p: Proxy): string {
    "http://" + Authority(p.host, p.port)
  }

  // ---- Printing and parsing back ---------------------------------------------------------

  /** The hosts whose printed form reads back as themselves. */
  predicate Printable(host: string) {
    host != "" && if ':' in host then ']' !in host else host[0] != '['
  }

  lemma PrintedPort(port: nat)
    ensures var s := PrintNat(port);
            s != "" && !IsSpace(s[|s| - 1]) && s[|s| - 1] != '/' && forall c :: c in ":]@/" ==> c !in s
  {
    PrintNatRoundTrip(port);
    var s := PrintNat(port);
    assert IsDigit(s[|s| - 1]);
    forall c | c in s ensures IsDigit(c) {
    }
  }

  lemma SplitOfClean(host: string, port: nat, digits: string)
    requires ':' in host && ']' !in host && digits == PrintNat(port) && ParsePort(digits) == Some(port)
    ensures SplitHostPort(Authority(host, port)) == Ok((host, port))
  {
    var rest := host + [']'] + ([':'] + digits);
    AuthorityOfLiteral(host, port, digits, rest);
    assert (['['] + rest)[1..] == rest;
    BracketedSplits(host, [':'] + digits, digits);
  }

  lemma AuthorityOfLiteral(host: string, port: nat, digits: string, rest: string)
    requires ':' in host && digits == PrintNat(port) && rest == host + [']'] + ([':'] + digits)
    ensures Authority(host, port) == ['['] + rest
  {
  }

  lemma BracketedSplits(host: string, tail: string, digits: string)
    requires ']' !in host && tail == [':'] + digits
    ensures SplitBracketed(host + [']'] + tail) == WithPort(host, digits)
  {
    var rest := host + [']'] + tail;
    FindAfter(host, ']', tail);
    assert rest[..|host|] == host && rest[|host| + 1..] == tail && tail[1..] == digits;
  }

  /** A bracket inside the host closes it too early. */
  lemma SplitOfBracketInside(host: string, port: nat)
    requires ':' in host && ']' in host
    ensures SplitHostPort(Authority(host, port)) != Ok((host, port))
  {
    var raw, tail := Authority(host, port), [']', ':'] + PrintNat(port);
    assert raw[0] == '[' && raw[1..] == host + tail;
    FindWithin(host, ']', tail);
  }

  lemma SplitOfBracketed(host: string, port: nat)
    requires ':' in host && port <= 0xFFFF
    ensures SplitHostPort(Authority(host, port)) == Ok((host, port)) <==> ']' !in host
  {
    PortRoundTrip(port);
    if ']' in host {
      SplitOfBracketInside(host, port);
    } else {
      SplitOfClean(host, port, PrintNat(port));
    }
  }

  /** A character in the head is found in the head. */
  lemma {:induction false} FindWithin(head: string, c: char, tail: string)
    requires c in head
    ensures Find(head + tail, c).Some? && Find(head + tail, c).value < |head|
  {
    if head[0] != c {
      assert (head + tail)[1..] == head[1..] + tail;
      FindWithin(head[1..], c, tail);
    }
  }

  lemma SplitOfName(host: string, port: nat, digits: string)
    requires ':' !in host && host != "" && host[0] != '['
    requires digits == PrintNat(port) && ':' !in digits && ParsePort(digits) == Some(port)
    ensures SplitHostPort(Authority(host, port)) == Ok((host, port))
  {
    var raw := Authority(host, port);
    assert raw == host + [':'] + digits;
    FindLastBefore(host, ':', digits);
    assert raw[..|host|] == host && raw[|host| + 1..] == digits;
  }

  /** A name that opens with a bracket is taken for a literal. */
  lemma SplitOfOpened(host: string, port: nat, digits: string)
    requires ':' !in host && host != "" && host[0] == '[' && digits == PrintNat(port) && ']' !in digits
    ensures SplitHostPort(Authority(host, port)) != Ok((host, port))
  {
    var raw, tail := Authority(host, port), [':'] + digits;
    assert raw[0] == '[' && raw[1..] == host[1..] + tail;
    if ']' in host[1..] {
      FindWithin(host[1..], ']', tail);
    } else {
      FindAbsent(raw[1..], ']');
    }
  }

  lemma SplitOfPlain(host: string, port: nat)
    requires ':' !in host && port <= 0xFFFF
    ensures SplitHostPort(Authority(host, port)) == Ok((host, port)) <==> host != "" && host[0] != '['
  {
    var digits := PrintNat(port);
    PrintedPort(port);
    assert ':' in ":]@/" && ']' in ":]@/";
    PortRoundTrip(port);
    if host == "" {
      assert Authority(host, port) == host + [':'] + digits;
      FindLastBefore(host, ':', digits);
    } else if host[0] == '[' {
      SplitOfOpened(host, port, digits);
    } else {
      SplitOfName(host, port, digits);
    }
  }

  lemma {:induction false} SchemeAfter(s: string, rest: string)
    requires ':' !in s
    ensures FindScheme(s + [':', '/', '/'] + rest) == Some(|s|)
  {
    var t := s + [':', '/', '/'] + rest;
    if s != "" {
      assert t[0] == s[0] && s[0] in s;
      assert t[1..] == s[1..] + [':', '/', '/'] + rest;
      SchemeAfter(s[1..], rest);
    }
  }

  /** Nothing to trim from a text that starts and ends on a visible character. */
  lemma TrimmedWhole(s: string)
    requires s != "" && !IsSpace(s[0]) && !IsSpace(s[|s| - 1])
    ensures Trimmed(s).1 == s
  {
    LeadingBlanksOf("", s);
    assert "" + s == s && s[0..] == s;
    TrailingBlanksOf(s, "");
    assert s + "" == s;
  }

  lemma ParseOfHttp(rest: string)
    requires rest != "" && !IsSpace(rest[|rest| - 1])
    ensures Parse("http://" + rest) == ParseRest(rest)
  {
    var raw := "http://" + rest;
    assert raw[0] == 'h' && raw[|raw| - 1] == rest[|rest| - 1];
    TrimmedWhole(raw);
    assert raw == "http" + [':', '/', '/'] + rest;
    SchemeAfter("http", rest);
    assert raw[..4] == "http" && raw[7..] == rest;
    assert Lower("http") == "http";
  }

  lemma AuthorityEnds(host: string, port: nat)
    requires '/' !in host && '@' !in host
    ensures var a := Authority(host, port);
            a != "" && !IsSpace(a[|a| - 1]) && a[|a| - 1] != '/' && '/' !in a && '@' !in a
  {
    PrintedPort(port);
    var a, s := Authority(host, port), PrintNat(port);
    assert a[|a| - 1] == s[|s| - 1];
  }

  lemma SplitOfAuthority(host: string, port: nat)
    requires port <= 0xFFFF
    ensures SplitHostPort(Authority(host, port)) == Ok((host, port)) <==> Printable(host)
  {
    if ':' in host {
      SplitOfBracketed(host, port);
    } else {
      SplitOfPlain(host, port);
    }
  }

  /** The URL of a proxy reads back as that host and port exactly when the host is printable. */
  lemma UrlRoundTrip(p: Proxy)
    requires p.port <= 0xFFFF && '/' !in p.host && '@' !in p.host
    ensures Parse(Url(p)) == Ok(p.(credentials := None)) <==> Printable(p.host)
  {
    var a := Authority(p.host, p.port);
    AuthorityEnds(p.host, p.port);
    ParseOfHttp(a);
    FindAbsent(a, '@');
    SplitOfAuthority(p.host, p.port);
  }

  /** The credential splits back exactly when the user has no colon. */
  lemma CredentialSplits(user: string, password: string)
    ensures SplitCredential(user + [':'] + password) == (user, password) <==> ':' !in user
  {
    var cred := user + [':'] + password;
    if ':' in user {
      FindWithin(user, ':', [':'] + password);
      assert cred == user + ([':'] + password);
    } else {
      FindAfter(user, ':', password);
      assert cred[..|user|] == user && cred[|user| + 1..] == password;
    }
  }

  /** The last `@` ends the credential. */
  lemma RestOfCredential(cred: string, a: string)
    requires cred != "" && '/' !in cred && '@' !in a && '/' !in a && a != ""
    ensures var r, split := ParseRest(cred + ['@'] + a), SplitHostPort(a);
            && (r.Ok? <==> split.Ok?)
            && (r.Ok? ==> r.value == Proxy(split.value.0, split.value.1, Some(SplitCredential(cred))))
  {
    var rest := cred + ['@'] + a;
    assert rest[|rest| - 1] == a[|a| - 1] && a[|a| - 1] in a;
    FindLastBefore(cred, '@', a);
    assert rest[|cred| + 1..] == a && rest[..|cred|] == cred;
  }

  lemma SlashIsRefused(rest: string)
    requires '/' in rest && rest[|rest| - 1] != '/'
    ensures ParseRest(rest) == Err(HasPath)
  {
  }

  function CredentialUrl(user: string, password: string, host: string, port: nat): string {
    "http://" + (user + ":" + password + "@" + Authority(host, port))
  }

  lemma CredentialUrlParses(user: string, password: string, host: string, port: nat)
    requires '/' !in host && '@' !in host
    ensures Parse(CredentialUrl(user, password, host, port))
         == ParseRest(user + [':'] + password + ['@'] + Authority(host, port))
    ensures '/' in user + password ==> Parse(CredentialUrl(user, password, host, port)) == Err(HasPath)
  {
    var a := Authority(host, port);
    var rest := user + [':'] + password + ['@'] + a;
    AuthorityEnds(host, port);
    assert rest[|rest| - 1] == a[|a| - 1];
    assert rest == user + ":" + password + "@" + a;
    ParseOfHttp(rest);
    if '/' in user + password {
      SlashIsRefused(rest);
    }
  }

  /**
   User, password, host and port all read back exactly when the user has no
   colon, the credential no slash, and the host is one a URL can carry.
   */
  lemma CredentialRoundTrip(user: string, password: string, host: string, port: nat)
    requires port <= 0xFFFF
    ensures Parse(CredentialUrl(user, password, host, port)) == Ok(Proxy(host, port, Some((user, password))))
       <==> ':' !in user && '/' !in user + password && '/' !in host && '@' !in host && Printable(host)
  {
    if '/' in host || '@' in host {
      if Parse(CredentialUrl(user, password, host, port)).Ok? {
        ParsedHost(CredentialUrl(user, password, host, port));
      }
    } else {
      CredentialUrlParses(user, password, host, port);
      if '/' !in user + password {
        AuthorityEnds(host, port);
        SplitOfAuthority(host, port);
        RestOfCredential(user + [':'] + password, Authority(host, port));
        CredentialSplits(user, password);
      }
    }
  }

  // ---- What a parsed proxy can be -----------------------------------------------------------

  lemma {:induction false} FindLastIsLast(s: string, c: char)
    ensures FindLast(s, c).Some? ==> c !in s[FindLast(s, c).value + 1..]
    ensures FindLast(s, c).None? ==> c !in s
  {
    if s != "" && s[|s| - 1] != c {
      FindLastIsLast(s[..|s| - 1], c);
      var r := FindLast(s[..|s| - 1], c);
      if r.Some? {
        assert s[r.value + 1..] == s[..|s| - 1][r.value + 1..] + [s[|s| - 1]];
      } else {
        assert s == s[..|s| - 1] + [s[|s| - 1]];
      }
    }
  }

  lemma SplitHostIsPart(raw: string, c: char)
    requires c !in raw && SplitHostPort(raw).Ok?
    ensures c !in SplitHostPort(raw).value.0 && SplitHostPort(raw).value.1 <= 0xFFFF
  {
  }

  lemma ParsedHost(input: string)
    requires Parse(input).Ok?
    ensures var p := Parse(input).value; p.port <= 0xFFFF && '/' !in p.host && '@' !in p.host
  {
    var raw := Trimmed(input).1;
    var k := FindScheme(raw);
    ParsedRest(if k.Some? then raw[k.value + 3..] else raw);
  }

  /** A parsed proxy always meets the round trip's side conditions: only its host decides. */
  lemma ParsedProxy(input: string)
    requires Parse(input).Ok?
    ensures var p := Parse(input).value;
            && p.port <= 0xFFFF && '/' !in p.host && '@' !in p.host
            && (Parse(Url(p)) == Ok(p.(credentials := None)) <==> Printable(p.host))
  {
    ParsedHost(input);
    UrlRoundTrip(Parse(input).value);
  }

  lemma HostPartIsClean(rest: string, c: char)
    requires c !in rest || c == '@'
    ensures c !in HostPart(rest)
  {
    FindLastIsLast(rest, '@');
  }

  lemma ParsedRest(raw: string)
    requires ParseRest(raw).Ok?
    ensures var p := ParseRest(raw).value; p.port <= 0xFFFF && '/' !in p.host && '@' !in p.host
  {
    var hostport := HostPart(TrimEnd(raw, '/'));
    var split := SplitHostPort(hostport);
    assert split.Ok? && ParseRest(raw).value.host == split.value.0 && ParseRest(raw).value.port == split.value.1;
    HostPartIsClean(TrimEnd(raw, '/'), '/');
    HostPartIsClean(TrimEnd(raw, '/'), '@');
    SplitHostIsPart(hostport, '/');
    SplitHostIsPart(hostport, '@');
  }

  /** A host that does not survive is reachable: empty brackets parse, and their URL does not. */
  lemma EmptyBracketsParse()
    ensures Parse("[]:80") == Ok(Proxy("", 80, None)) && !Printable("")
  {
    var raw := "[]:80";
    TrimmedWhole(raw);
    SchemeAbsent(raw);
    EmptyBracketsRest(raw);
  }

  lemma EmptyBracketsRest(raw: string)
    requires raw == "[]:80"
    ensures ParseRest(raw) == Ok(Proxy("", 80, None))
  {
    assert TrimEnd(raw, '/') == raw;
    FindAbsent(raw, '@');
    assert HostPart(raw) == raw;
    EmptyBracketsSplit(raw);
  }

  lemma EmptyBracketsSplit(raw: string)
    requires raw == "[]:80"
    ensures SplitHostPort(raw) == Ok(("", 80))
  {
    assert raw[1..] == "]:80" && "]:80"[1..] == ":80" && "]:80"[..0] == "" && ":80"[1..] == "80";
    assert ParsePort("80") == Some(80) by {
      assert "80"[..1] == "8" && "8"[..0] == "";
      assert DigitsValue("8") == Some(8) && DigitsValue("80") == Some(80);
    }
  }

  lemma {:induction false} SchemeAbsent(s: string)
    requires '/' !in s
    ensures FindScheme(s) == None
  {
    if |s| >= 3 {
      assert s[1] in s;
      SchemeAbsent(s[1..]);
    }
  }

  // ---- Bypass ------------------------------------------------------------------------------

  datatype Entry = Host(name: string) | Suffix(name: string)

  function Normalized(s: string): string {
    Lower(TrimEnd(s, '.'))
  }

  function Stripped(s: string): Option<string> {
    if |s| >= 2 && s[0] == '*' && s[1] == '.' then Some(s[2..])
    else if |s| >= 1 && s[0] == '.' then Some(s[1..])
    else None
  }

  /** One comma-separated entry; a blank one is skipped. */
  function EntryOf(part: string): Option<Entry> {
    var entry := Normalized(Trimmed(part).1);
    if entry == "" then None
    else
      match Stripped(entry)
      case Some(suffix) => if suffix != "" then Some(Suffix(suffix)) else Some(Host(entry))
      case None => Some(Host(entry))
  }

  function AsList(entry: Option<Entry>): seq<Entry> {
    if entry.Some? then [entry.value] else []
  }

  function EntriesOf(parts: seq<string>): seq<Entry> {
    if parts == [] then [] else AsList(EntryOf(parts[0])) + EntriesOf(parts[1..])
  }

  lemma EntriesAt(parts: seq<string>, i: nat)
    requires i < |parts|
    ensures EntriesOf(parts[i..]) == AsList(EntryOf(parts[i])) + EntriesOf(parts[i + 1..])
  {
    assert parts[i..][1..] == parts[i + 1..];
  }

  lemma EntriesFrom(parts: seq<string>, i: nat, done: seq<Entry>)
    requires i < |parts| && EntriesOf(parts) == done + EntriesOf(parts[i..])
    ensures EntriesOf(parts) == done + AsList(EntryOf(parts[i])) + EntriesOf(parts[i + 1..])
  {
    EntriesAt(parts, i);
    Regroup(done, AsList(EntryOf(parts[i])), EntriesOf(parts[i + 1..]));
  }

  /** `EgressBypass::parse`. */
  method ParseBypass(raw: string) returns (entries: seq<Entry>)
    ensures entries == EntriesOf(Split(raw, ','))
  {
    entries := ParseParts(Split(raw, ','));
  }

  /** Its loop. */
  method ParseParts(parts: seq<string>) returns (entries: seq<Entry>)
    ensures entries == EntriesOf(parts)
  {
    entries := [];
    assert parts[0..] == parts;
    for i := 0 to |parts|
      invariant EntriesOf(parts) == entries + EntriesOf(parts[i..])
    {
      var next := EntryFrom(parts[i]);
      EntriesFrom(parts, i, entries);
      entries := entries + AsList(next);
    }
  }

  /** One turn of its loop. */
  method EntryFrom(part: string) returns (r: Option<Entry>)
    ensures r == EntryOf(part)
  {
    var entry := Normalized(Trimmed(part).1);
    if entry == "" {
      return None;
    }
    var suffix := Stripped(entry);
    return if suffix.Some? && suffix.value != "" then Some(Suffix(suffix.value)) else Some(Host(entry));
  }

  lemma {:induction false} EntriesAre(parts: seq<string>)
    ensures forall e :: e in EntriesOf(parts) <==> exists i :: 0 <= i < |parts| && EntryOf(parts[i]) == Some(e)
  {
    if parts != [] {
      EntriesAre(parts[1..]);
      forall e ensures e in EntriesOf(parts) <==> exists i :: 0 <= i < |parts| && EntryOf(parts[i]) == Some(e) {
        if e in EntriesOf(parts[1..]) {
          var i :| 0 <= i < |parts| - 1 && EntryOf(parts[1..][i]) == Some(e);
          assert parts[i + 1] == parts[1..][i];
        }
        if i :| 0 <= i < |parts| && EntryOf(parts[i]) == Some(e) {
          assert i > 0 ==> parts[1..][i - 1] == parts[i];
        }
      }
    }
  }

  predicate EndsWith(s: string, tail: string) {
    |tail| <= |s| && s[|s| - |tail|..] == tail
  }

  predicate IsLoopback(host: string) {
    host in ["localhost", "127.0.0.1", "::1", "[::1]"]
  }

  predicate Matches(e: Entry, host: string) {
    match e
    case Host(name) => name == host
    case Suffix(suffix) => host == suffix || EndsWith(host, "." + suffix)
  }

  /** `covers`. */
  predicate Covers(entries: seq<Entry>, name: string) {
    var host := Normalized(name);
    IsLoopback(host) || exists i :: 0 <= i < |entries| && Matches(entries[i], host)
  }

  /** The labels of `domain` are the last labels of `host`. */
  ghost predicate InDomain(host: string, domain: string) {
    var h, d := Split(host, '.'), Split(domain, '.');
    |d| <= |h| && h[|h| - |d|..] == d
  }

  lemma UnderDomain(head: string, domain: string)
    ensures InDomain(head + ['.'] + domain, domain)
  {
    SplitAcross(head, domain, '.');
  }

  lemma InDomainEnds(host: string, domain: string)
    requires InDomain(host, domain) && host != domain
    ensures exists head: string :: host == head + ['.'] + domain
  {
    var h, d := Split(host, '.'), Split(domain, '.');
    JoinSplit(host, '.');
    JoinSplit(domain, '.');
    assert h[0..] == h;
    assert |d| < |h|;
    var head := h[..|h| - |d|];
    assert h == head + d;
    JoinAcross(head, d, '.');
    assert host == Join(head, '.') + ['.'] + domain;
  }

  lemma EndsWithMeans(host: string, domain: string)
    ensures EndsWith(host, "." + domain) <==> exists head: string :: host == head + ['.'] + domain
  {
    if EndsWith(host, "." + domain) {
      var head := host[..|host| - |domain| - 1];
      assert host == head + ['.'] + domain;
    }
    if head: string :| host == head + ['.'] + domain {
      assert host[|host| - |domain| - 1..] == ['.'] + domain;
    }
  }

  /** A suffix match is a label match: `evilcorp` is never under `corp`. */
  lemma SuffixIsLabels(host: string, domain: string)
    ensures Matches(Suffix(domain), host) <==> InDomain(host, domain)
  {
    EndsWithMeans(host, domain);
    if head: string :| host == head + ['.'] + domain {
      UnderDomain(head, domain);
    }
    if InDomain(host, domain) && host != domain {
      InDomainEnds(host, domain);
    }
  }

  /** Off loopback, a host is covered by an exact name or by a domain it lies in. */
  lemma CoversMeans(parts: seq<string>, name: string)
    requires !IsLoopback(Normalized(name))
    ensures Covers(EntriesOf(parts), name) <==>
            exists i :: 0 <= i < |parts| && EntryOf(parts[i]).Some? &&
              match EntryOf(parts[i]).value
              case Host(n) => n == Normalized(name)
              case Suffix(d) => InDomain(Normalized(name), d)
  {
    var host, entries := Normalized(name), EntriesOf(parts);
    EntriesAre(parts);
    forall d ensures Matches(Suffix(d), host) <==> InDomain(host, d) {
      SuffixIsLabels(host, d);
    }
    if k :| 0 <= k < |entries| && Matches(entries[k], host) {
      assert entries[k] in entries;
    }
    if i :| 0 <= i < |parts| && EntryOf(parts[i]).Some? && Matches(EntryOf(parts[i]).value, host) {
      assert EntryOf(parts[i]).value in entries;
    }
  }

  // ---- What an entry is, and what is covered ------------------------------------------------

  /** A name as the list keeps it: lower case, no outer blank, no trailing dot. */
  predicate Tidy(d: string) {
    d != "" && Lower(d) == d && !IsSpace(d[0]) && !IsSpace(d[|d| - 1]) && d[|d| - 1] != '.'
  }

  lemma LowerAcross(a: string, b: string)
    ensures Lower(a + b) == Lower(a) + Lower(b)
  {
  }

  lemma TrimEndKeeps(s: string, c: char)
    requires s == "" || s[|s| - 1] != c
    ensures TrimEnd(s, c) == s
  {
  }

  lemma LowerMark(mark: string)
    requires mark in ["", ".", "*."]
    ensures Lower(mark) == mark
  {
  }

  lemma TidyBehind(mark: string, d: string, part: string)
    requires Tidy(d) && mark in ["", ".", "*."] && part == mark + d
    ensures Normalized(Trimmed(part).1) == part
  {
    assert part[|part| - 1] == d[|d| - 1];
    assert part[0] == (if mark == "" then d[0] else mark[0]);
    assert !IsSpace(part[0]);
    TrimmedWhole(part);
    TrimEndKeeps(part, '.');
    LowerAcross(mark, d);
    LowerMark(mark);
  }

  lemma DottedEntry(mark: string, d: string)
    requires Tidy(d) && mark in [".", "*."]
    ensures EntryOf(mark + d) == Some(Suffix(d))
  {
    TidyBehind(mark, d, mark + d);
    StrippedMark(mark, d);
  }

  lemma StrippedMark(mark: string, d: string)
    requires mark in [".", "*."] && d != ""
    ensures Stripped(mark + d) == Some(d)
  {
    assert (mark + d)[|mark|..] == d;
  }

  lemma PlainEntry(d: string)
    requires Tidy(d) && d[0] != '.' && !(|d| > 1 && d[0] == '*' && d[1] == '.')
    ensures EntryOf(d) == Some(Host(d))
  {
    assert "" + d == d;
    TidyBehind("", d, d);
  }

  /** `.corp` and `*.corp` are the domain; a plain name is that host. */
  lemma EntryMeans(d: string)
    requires Tidy(d)
    ensures EntryOf("." + d) == Some(Suffix(d)) && EntryOf("*." + d) == Some(Suffix(d))
    ensures d[0] != '.' && !(|d| > 1 && d[0] == '*' && d[1] == '.') ==> EntryOf(d) == Some(Host(d))
  {
    DottedEntry(".", d);
    DottedEntry("*.", d);
    if d[0] != '.' && !(|d| > 1 && d[0] == '*' && d[1] == '.') {
      PlainEntry(d);
    }
  }

  lemma OneEntry(part: string, e: Entry, name: string)
    requires EntryOf(part) == Some(e)
    ensures Covers(EntriesOf([part]), name) <==> IsLoopback(Normalized(name)) || Matches(e, Normalized(name))
  {
    var entries := EntriesOf([part]);
    assert [part][1..] == [] && entries == [e] + EntriesOf([part][1..]) == [e];
    assert entries[0] == e;
  }

  /** A dotted or starred entry covers the domain and everything under it, and nothing else off loopback. */
  lemma DomainIsCovered(d: string, host: string)
    requires Tidy(d) && Normalized(host) !in ["localhost", "127.0.0.1", "::1", "[::1]"]
    ensures Covers(EntriesOf(["." + d]), host) <==> InDomain(Normalized(host), d)
    ensures Covers(EntriesOf(["*." + d]), host) <==> InDomain(Normalized(host), d)
  {
    EntryMeans(d);
    OneEntry("." + d, Suffix(d), host);
    OneEntry("*." + d, Suffix(d), host);
    SuffixIsLabels(Normalized(host), d);
  }

  /** A plain entry covers that name alone. */
  lemma NameIsCovered(d: string, host: string)
    requires Tidy(d) && d[0] != '.' && !(|d| > 1 && d[0] == '*' && d[1] == '.')
    requires Normalized(host) !in ["localhost", "127.0.0.1", "::1", "[::1]"]
    ensures Covers(EntriesOf([d]), host) <==> Normalized(host) == d
  {
    EntryMeans(d);
    OneEntry(d, Host(d), host);
  }

  lemma TidyIsNormal(d: string)
    requires Tidy(d)
    ensures Normalized(d) == d
  {
    assert TrimEnd(d, '.') == d;
  }

  /** This machine is always direct, whatever the list says. */
  lemma LoopbackIsCovered(entries: seq<Entry>)
    ensures Covers(entries, "localhost") && Covers(entries, "127.0.0.1")
    ensures Covers(entries, "::1") && Covers(entries, "[::1]")
  {
    TidyIsNormal("localhost");
    TidyIsNormal("127.0.0.1");
    TidyIsNormal("::1");
    TidyIsNormal("[::1]");
  }

  lemma {:induction false} TrimEndOf(s: string, c: char, tail: string)
    requires forall i :: 0 <= i < |tail| ==> tail[i] == c
    ensures TrimEnd(s + tail, c) == TrimEnd(s, c)
  {
    if tail == "" {
      assert s + tail == s;
    } else {
      var t := s + tail;
      assert t[|t| - 1] == tail[|tail| - 1] && t[..|t| - 1] == s + tail[..|tail| - 1];
      TrimEndOf(s, c, tail[..|tail| - 1]);
    }
  }

  lemma {:induction false} LowerTrims(s: string)
    ensures Lower(TrimEnd(s, '.')) == TrimEnd(Lower(s), '.')
  {
    if s != "" {
      var n := |s| - 1;
      assert Lower(s)[n] == LowerChar(s[n]) && (LowerChar(s[n]) == '.' <==> s[n] == '.');
      assert Lower(s)[..n] == Lower(s[..n]);
      LowerTrims(s[..n]);
    }
  }

  /** Case and trailing dots make no difference to a name. */
  lemma NormalizedIgnores(s: string, dots: string)
    requires forall i :: 0 <= i < |dots| ==> dots[i] == '.'
    ensures Normalized(s + dots) == Normalized(s) == Normalized(Lower(s))
  {
    TrimEndOf(s, '.', dots);
    LowerTrims(s);
    LowerTwice(s);
    LowerTrims(Lower(s));
  }

  /** Nor to an entry, around which blanks make none either. */
  lemma EntryIgnores(left: string, s: string, dots: string, right: string)
    requires IsBlank(left) && IsBlank(right) && (forall i :: 0 <= i < |dots| ==> dots[i] == '.')
    requires s != "" && !IsSpace(s[0]) && !IsSpace(s[|s| - 1]) && !IsSpace(Lower(s)[0]) && !IsSpace(Lower(s)[|s| - 1])
    ensures EntryOf(left + (s + dots) + right) == EntryOf(s) == EntryOf(Lower(s))
  {
    var whole := s + dots;
    assert whole[0] == s[0] && (dots != "" ==> whole[|whole| - 1] == '.') && (dots == "" ==> whole == s);
    TrimmedOf(left, whole, right);
    TrimmedWhole(s);
    TrimmedWhole(Lower(s));
    NormalizedIgnores(s, dots);
  }

  /** A blank entry is no entry, and a comma is a cut between entries. */
  lemma ListIsCut(x: string, y: string, blank: string)
    requires IsBlank(blank)
    ensures EntryOf(blank) == None
    ensures EntriesOf(Split(x + [','] + y, ',')) == EntriesOf(Split(x, ',')) + EntriesOf(Split(y, ','))
  {
    TrimmedOf(blank, "", "");
    assert blank + "" + "" == blank;
    SplitAcross(x, y, ',');
    EntriesAcross(Split(x, ','), Split(y, ','));
  }

  lemma {:induction false} EntriesAcross(xs: seq<string>, ys: seq<string>)
    ensures EntriesOf(xs + ys) == EntriesOf(xs) + EntriesOf(ys)
  {
    if xs == [] {
      assert xs + ys == ys;
    } else {
      assert (xs + ys)[1..] == xs[1..] + ys;
      EntriesAcross(xs[1..], ys);
      Regroup(AsList(EntryOf(xs[0])), EntriesOf(xs[1..]), EntriesOf(ys));
    }
  }

  // ---- What is refused, and what is taken for granted -----------------------------------------

  /** The scheme, in any case: `http` is read on, `https` and every other is refused by name. */
  lemma SchemeDecides(scheme: string, rest: string)
    requires ':' !in scheme && (scheme == "" || !IsSpace(scheme[0])) && (rest == "" || !IsSpace(rest[|rest| - 1]))
    ensures var r := Parse(scheme + [':', '/', '/'] + rest);
            && (Lower(scheme) == "http" ==> r == ParseRest(rest))
            && (Lower(scheme) == "https" ==> r == Err(HttpsProxy))
            && (Lower(scheme) != "http" && Lower(scheme) != "https" ==> r == Err(UnknownScheme(Lower(scheme))))
  {
    var raw := scheme + [':', '/', '/'] + rest;
    assert raw[0] == (if scheme == "" then ':' else scheme[0]);
    assert raw[|raw| - 1] == (if rest == "" then '/' else rest[|rest| - 1]);
    TrimmedWhole(raw);
    SchemeAfter(scheme, rest);
    assert raw[..|scheme|] == scheme && raw[|scheme| + 3..] == rest;
  }

  /** Without a scheme it is read as it stands; outer blanks are ignored; nothing at all is refused. */
  lemma BareValue(left: string, raw: string, right: string)
    requires IsBlank(left) && IsBlank(right) && '/' !in raw
    requires raw == "" || (!IsSpace(raw[0]) && !IsSpace(raw[|raw| - 1]))
    ensures Parse(left + raw + right) == if raw == "" then Err(Empty) else ParseRest(raw)
  {
    TrimmedOf(left, raw, right);
    SchemeAbsent(raw);
  }

  /** A host alone gets port 80. */
  lemma DefaultPort(host: string)
    requires host != "" && host[0] != '[' && ':' !in host && '/' !in host && '@' !in host
    ensures ParseRest(host) == Ok(Proxy(host, 80, None))
  {
    assert host[|host| - 1] in host;
    FindAbsent(host, '@');
    FindAbsent(host, ':');
  }

  /** Slashes at the end are ignored; one anywhere before is a path. */
  lemma SlashesAtTheEnd(rest: string, slashes: string)
    requires forall i :: 0 <= i < |slashes| ==> slashes[i] == '/'
    ensures ParseRest(rest + slashes) == ParseRest(rest)
  {
    TrimEndOf(rest, '/', slashes);
  }

  /** Host and port: the last colon divides them, and each malformed shape has its own refusal. */
  lemma HostPortShapes(host: string, port: string, tail: string)
    requires ':' !in port
    ensures SplitHostPort([':'] + port) == Err(PortWithoutHost)
    ensures host != "" && host[0] != '[' ==> SplitHostPort(host + [':'] + port) == WithPort(host, port)
    ensures ']' !in host ==> SplitHostPort(['['] + host) == Err(UnclosedBracket)
    ensures ']' !in host && (tail == "" || tail[0] != ':') ==>
              SplitHostPort(['['] + (host + [']'] + tail)) == Err(NoPortAfterBracket)
    ensures ParsePort(port).None? ==> WithPort(host, port) == Err(BadPort)
  {
    FindLastBefore("", ':', port);
    assert "" + [':'] + port == [':'] + port;
    FindLastBefore(host, ':', port);
    var named := host + [':'] + port;
    assert named[..|host|] == host && named[|host| + 1..] == port;
    if ']' !in host {
      assert (['['] + host)[1..] == host;
      FindNone(host, ']');
      var rest := host + [']'] + tail;
      assert (['['] + rest)[1..] == rest;
      FindAfter(host, ']', tail);
      assert rest[|host| + 1..] == tail;
    }
  }

  /** A port is digits worth at most 65535, after at most one plus sign. */
  lemma PortIs(s: string)
    ensures s != "" && s[0] != '+' ==> ParsePort(['+'] + s) == ParsePort(s)
    ensures s != "" && s[0] != '+' ==>
              (ParsePort(s).Some? <==> DigitsValue(s).Some? && DigitsValue(s).value <= 65535)
    ensures ParsePort("") == None
  {
    assert s != "" ==> (['+'] + s)[1..] == s;
  }

  /** Digits are worth what they say in base ten. */
  lemma DigitsAre(s: string, d: char)
    ensures IsDigit(d) && DigitsValue(s).Some? ==>
              DigitsValue(s + [d]) == Some(10 * DigitsValue(s).value + (d as int - '0' as int))
    ensures !IsDigit(d) || DigitsValue(s).None? ==> DigitsValue(s + [d]) == None
  {
    assert (s + [d])[..|s|] == s;
  }

  /** No host, no credential before the `@`, no password after the user. */
  lemma CredentialShapes(cred: string, a: string)
    requires '/' !in cred && '/' !in a && '@' !in a
    ensures ParseRest("") == Err(NoHost) && ParseRest(cred + ['@']) == Err(NoHost)
    ensures a != "" && SplitHostPort(a).Ok? ==> ParseRest(['@'] + a) == Err(EmptyCredential)
    ensures ':' !in cred ==> SplitCredential(cred) == (cred, "")
  {
    FindLastBefore(cred, '@', "");
    assert cred + ['@'] + "" == cred + ['@'];
    FindNone(cred, ':');
    if a != "" {
      var rest := ['@'] + a;
      assert rest[|rest| - 1] == a[|a| - 1] && a[|a| - 1] in a;
      FindLastBefore("", '@', a);
      assert "" + ['@'] + a == rest && rest[1..] == a;
    }
  }
}
