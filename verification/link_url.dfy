/**
 The part of URL parsing that decides what a share link means: scheme, user
 information, authority (section 3.2 of RFC 3986), query and fragment.  Whether
 a bracketed text is an IPv6 address is left to the parameter `v6`.
 */
module LinkUrl {
  import opened Wrappers
  import opened GoText
  import opened Percent

  datatype User = NoUser | Name(name: string) | NamePassword(name: string, password: string)

  datatype Url = Url(scheme: string, user: User, host: string, query: string)

  function Username(u: Url): string {
    if u.user.NoUser? then "" else u.user.name
  }

  function Password(u: Url): string {
    if u.user.NamePassword? then u.user.password else ""
  }

  predicate IsControl(c: char) { c as int < 32 || c as int == 127 }

  predicate IsSchemeText(s: string) {
    s != "" && (IsLower(s[0]) || IsUpper(s[0])) && forall c <- s :: IsAlnum(c) || c == '+' || c == '-' || c == '.'
  }

  predicate IsUserinfoChar(c: char) {
    IsAlnum(c) || c in {'-', '.', '_', ':', '~', '!', '$', '&', '\'', '(', ')', '*', '+', ',', ';', '=', '%', '@'}
  }

  predicate AllDigits(s: string) { forall c <- s :: IsDigit(c) }

  function ParseUser(text: string): Option<User> {
    if exists c <- text :: !IsUserinfoChar(c) then None
    else
      var (name, password, colon) := Cut(text, ':');
      match (Unescape(UserInfo, name), Unescape(UserInfo, password))
      case (Some(n), Some(p)) => Some(if colon then NamePassword(n, p) else Name(n))
      case _ => None
  }

  /** What follows an opening bracket: an IPv6 address, the closing bracket and
      an optional port.  Zone identifiers are not part of this model. */
  predicate BracketedOk(body: string, v6: string -> bool) {
    var (inside, port, closed) := CutLast(body, ']');
    && closed && (port == "" || (port[0] == ':' && AllDigits(port[1..])))
    && '%' !in inside && Unescape(Host, inside).Some? && v6(inside)
  }

  function ParseHost(host: string, v6: string -> bool): Option<string> {
    if host != "" && host[0] == '[' then
      if BracketedOk(host[1..], v6) then Some(host) else None
    else if '[' in host then None
    else
      var (name, port, colon) := CutLast(host, ':');
      if colon && (!AllDigits(port) || ':' in name) then None else Unescape(Host, host)
  }

  function ParseAuthority(authority: string, v6: string -> bool): Option<(User, string)> {
    var (userinfo, hostText, at) := CutLast(authority, '@');
    match ParseHost(hostText, v6)
    case None => None
    case Some(host) =>
      if !at then Some((NoUser, host))
      else
        match ParseUser(userinfo)
        case None => None
        case Some(user) => Some((user, host))
  }

  /** What follows "scheme:": authority (if any), path and query. */
  function SplitRest(rest: string): (Option<string>, string, string) {
    var (before, query, _) := Cut(rest, '?');
    if "//" <= before then
      var (authority, path, _) := Cut(before[2..], '/');
      (Some(authority), path, query)
    else (None, before, query)
  }

  function ParseRest(scheme: string, rest: string, v6: string -> bool): Option<Url> {
    var (authority, path, query) := SplitRest(rest);
    if Unescape(PathSegment, path).None? then None
    else if authority.None? then Some(Url(ToLower(scheme), NoUser, "", query))
    else
      match ParseAuthority(authority.value, v6)
      case None => None
      case Some((user, host)) => Some(Url(ToLower(scheme), user, host, query))
  }

  function ParseMain(main: string, v6: string -> bool): Option<Url> {
    var (scheme, rest, hasScheme) := Cut(main, ':');
    if (exists c <- main :: IsControl(c)) || !hasScheme || !IsSchemeText(scheme) then None
    else ParseRest(scheme, rest, v6)
  }

  function Parse(link: string, v6: string -> bool): Option<Url> {
    var (main, fragment, _) := Cut(link, '#');
    if Unescape(Fragment, fragment).None? then None else ParseMain(main, v6)
  }

  /** Host name and port of an accepted host text. */
  function SplitHostPort(host: string): (string, string) {
    var (before, after, colon) := CutLast(host, ':');
    var (name, port) := if colon && AllDigits(after) then (before, after) else (host, "");
    if |name| >= 2 && name[0] == '[' && name[|name| - 1] == ']' then (name[1..|name| - 1], port) else (name, port)
  }

  // ---------- Printing ----------

  function TrimBrackets(server: string): string {
    var s := if server != "" && server[|server| - 1] == ']' then server[..|server| - 1] else server;
    if s != "" && s[0] == '[' then s[1..] else s
  }

  function JoinHostPort(host: string, port: nat): string {
    (if ':' in host then "[" + host + "]" else host) + ":" + Itoa(port)
  }

  /** `net.JoinHostPort` after removing brackets the address already carries. */
  function HostPort(server: string, port: nat): string {
    JoinHostPort(TrimBrackets(server), port)
  }

  function Link(scheme: string, user: string, hostPort: string, query: string, fragment: string): string {
    scheme + "://" + user + "@" + hostPort + (if query == "" then "" else "?" + query) + "#" + fragment
  }

  predicate IsHostChar(c: char) {
    c != '[' && c != ']' && c as int < 256 && (c as int >= 128 || !ShouldEscape(Host, c))
  }

  /** A host name, an IPv4 address, or an IPv6 address without zone. */
  predicate HostOk(host: string, v6: string -> bool) {
    (forall c <- host :: IsHostChar(c)) && (':' in host ==> v6(host))
  }

  lemma {:induction false} UnescapeHost(s: string)
    requires forall c <- s :: IsHostChar(c) || c == ':'
    ensures Unescape(Host, s) == Some(s)
  {
    if s != "" {
      UnescapeHost(s[1..]);
      assert s[0] in s && s == [s[0]] + s[1..];
    }
  }

  lemma BracketedParses(host: string, digits: string, v6: string -> bool)
    requires HostOk(host, v6) && v6(host) && AllDigits(digits)
    ensures var t := "[" + host + "]" + ":" + digits; ParseHost(t, v6) == Some(t)
  {
    BracketBody(host, digits, v6);
    assert ("[" + host + "]" + ":" + digits)[1..] == host + [']'] + ([':'] + digits);
  }

  lemma PercentIsNoHostChar()
    ensures !IsHostChar('%')
  {
    assert ShouldEscape(Host, '%');
  }

  lemma BracketBody(host: string, digits: string, v6: string -> bool)
    requires HostOk(host, v6) && v6(host) && AllDigits(digits)
    ensures BracketedOk(host + [']'] + ([':'] + digits), v6)
  {
    var tail := [':'] + digits;
    CutLastAt(host, ']', tail);
    assert tail[1..] == digits;
    UnescapeHost(host);
    PercentIsNoHostChar();
  }

  lemma BracketedSplits(host: string, digits: string)
    requires AllDigits(digits)
    ensures SplitHostPort("[" + host + "]" + ":" + digits) == (host, digits)
  {
    var t, name := "[" + host + "]" + ":" + digits, "[" + host + "]";
    assert t == name + [':'] + digits;
    CutLastAt(name, ':', digits);
    assert name[1..|name| - 1] == host;
  }

  lemma PlainParses(host: string, digits: string, v6: string -> bool)
    requires HostOk(host, v6) && ':' !in host && AllDigits(digits)
    ensures var t := host + ":" + digits; ParseHost(t, v6) == Some(t)
  {
    var t := host + ":" + digits;
    assert t == host + [':'] + digits;
    CutLastAt(host, ':', digits);
    assert forall c <- t :: c in host || c == ':' || c in digits;
    assert '[' !in t;
    UnescapeHost(t);
  }

  lemma PlainSplits(host: string, digits: string, v6: string -> bool)
    requires HostOk(host, v6) && AllDigits(digits)
    ensures SplitHostPort(host + ":" + digits) == (host, digits)
  {
    assert host + ":" + digits == host + [':'] + digits;
    CutLastAt(host, ':', digits);
    assert host != "" ==> host[0] in host;
  }

  /** A printed authority is accepted as it stands and splits into the address
      and the port it was printed from. */
  lemma HostPortRoundTrip(host: string, port: nat, v6: string -> bool)
    requires HostOk(host, v6)
    ensures var t := JoinHostPort(host, port);
            ParseHost(t, v6) == Some(t) && SplitHostPort(t) == (host, Itoa(port))
  {
    if ':' in host {
      BracketedParses(host, Itoa(port), v6);
      BracketedSplits(host, Itoa(port));
    } else {
      PlainParses(host, Itoa(port), v6);
      PlainSplits(host, Itoa(port), v6);
    }
  }

  lemma HostPortAlphabet(host: string, port: nat, v6: string -> bool)
    requires HostOk(host, v6)
    ensures forall c <- JoinHostPort(host, port) :: IsHostChar(c) || c == '[' || c == ']'
  {
  }

  // ---------- Reading a printed link ----------

  lemma Regroup(a: string, b: string, c: string)
    ensures a + b + c == a + (b + c)
  {
  }

  lemma CutLong(p: string, r: string, c: char)
    requires c !in p
    ensures Cut(p + r, c) == (p + Cut(r, c).0, Cut(r, c).1, Cut(r, c).2)
  {
    var (before, after, found) := Cut(r, c);
    if found {
      assert p + r == (p + before) + [c] + after;
      CutAt(p + before, c, after);
    }
  }

  lemma CutShort(p: string, s: string, r: string, c: char)
    requires c !in p && c in s
    ensures |Cut(p + s + r, c).0| < |p| + |s|
    ensures p <= Cut(p + s + r, c).0
  {
    var (before, after, _) := Cut(s, c);
    assert s == before + [c] + after;
    Regroup(p, before + [c], after);
    Regroup(p, before, [c]);
    Regroup(p + before + [c], after, r);
    CutAt(p + before, c, after + r);
  }

  /** What the scheme, host, query and fragment of a printed link must satisfy. */
  predicate Printable(scheme: string, hostPort: string, query: string, fragment: string) {
    && IsSchemeText(scheme)
    && (forall c <- hostPort :: IsHostChar(c) || c == '[' || c == ']')
    && (forall c <- query :: IsQueryChar(c))
    && Unescape(Fragment, fragment).Some?
  }

  lemma PrintableAvoidsDelimiters(scheme: string, hostPort: string, query: string, fragment: string)
    requires Printable(scheme, hostPort, query, fragment)
    ensures forall c <- scheme :: !IsControl(c) && c !in {'#', ':', '?', '/'}
    ensures forall c <- hostPort :: !IsControl(c) && c !in {'#', '?', '/', '@'}
    ensures forall c <- query :: !IsControl(c) && c != '#'
  {
  }

  predicate FreeOfDelimiters(user: string) {
    forall c <- user :: c != '#' && c != '?' && c != '/' && !IsControl(c)
  }

  /** The meaning of a link's user and host texts. */
  function Meaning(scheme: string, user: string, hostPort: string, query: string, v6: string -> bool): Option<Url> {
    match ParseHost(hostPort, v6)
    case None => None
    case Some(host) =>
      match ParseUser(user)
      case None => None
      case Some(u) => Some(Url(ToLower(scheme), u, host, query))
  }

  lemma ParseAuthorityOf(user: string, hostPort: string, v6: string -> bool)
    requires '@' !in hostPort
    ensures ParseAuthority(user + "@" + hostPort, v6) ==
            (match ParseHost(hostPort, v6)
             case None => None
             case Some(host) =>
               match ParseUser(user)
               case None => None
               case Some(u) => Some((u, host)))
  {
    assert user + "@" + hostPort == user + ['@'] + hostPort;
    CutLastAt(user, '@', hostPort);
  }

  function QueryTail(query: string): string { if query == "" then "" else "?" + query }

  lemma SplitRestOf(authority: string, query: string)
    requires '?' !in authority && '/' !in authority
    ensures SplitRest("//" + authority + QueryTail(query)) == (Some(authority), "", query)
  {
    var before := "//" + authority;
    if query == "" {
      assert before + QueryTail(query) == before;
      assert Cut(before, '?') == (before, "", false);
    } else {
      assert before + QueryTail(query) == before + ['?'] + query;
      CutAt(before, '?', query);
    }
    assert before[2..] == authority;
    assert Cut(authority, '/') == (authority, "", false);
  }

  lemma ParseRestOf(scheme: string, user: string, hostPort: string, query: string, v6: string -> bool)
    requires FreeOfDelimiters(user) && FreeOfDelimiters(hostPort) && '@' !in hostPort
    ensures ParseRest(scheme, "//" + (user + "@" + hostPort) + QueryTail(query), v6) == Meaning(scheme, user, hostPort, query, v6)
  {
    SplitRestOf(user + "@" + hostPort, query);
    ParseAuthorityOf(user, hostPort, v6);
  }

  /** A printed link means what its user, host and query texts mean. */
  lemma ParseLink(scheme: string, user: string, hostPort: string, query: string, fragment: string, v6: string -> bool)
    requires Printable(scheme, hostPort, query, fragment) && FreeOfDelimiters(user)
    ensures Parse(Link(scheme, user, hostPort, query, fragment), v6) == Meaning(scheme, user, hostPort, query, v6)
  {
    PrintableAvoidsDelimiters(scheme, hostPort, query, fragment);
    var rest := "//" + (user + "@" + hostPort) + QueryTail(query);
    var main := scheme + ":" + rest;
    assert Link(scheme, user, hostPort, query, fragment) == main + ['#'] + fragment;
    assert main == scheme + [':'] + rest;
    assert forall c <- rest :: c != '#' && !IsControl(c);
    CutAt(main, '#', fragment);
    CutAt(scheme, ':', rest);
    ParseRestOf(scheme, user, hostPort, query, v6);
  }

  /** A printed link ends in its fragment. */
  lemma FragmentOf(scheme: string, user: string, hostPort: string, query: string, fragment: string)
    requires Printable(scheme, hostPort, query, fragment) && FreeOfDelimiters(user)
    ensures var (_, rest, found) := Cut(Link(scheme, user, hostPort, query, fragment), '#'); found && rest == fragment
  {
    PrintableAvoidsDelimiters(scheme, hostPort, query, fragment);
    var main := scheme + "://" + user + "@" + hostPort + QueryTail(query);
    assert Link(scheme, user, hostPort, query, fragment) == main + ['#'] + fragment;
    assert '#' !in main;
    CutAt(main, '#', fragment);
  }

  /** A link with a control character before its fragment is rejected. */
  lemma ControlIsRejected(main: string, fragment: string, c: char, v6: string -> bool)
    requires '#' !in main && c in main && (c < ' ' || c == 127 as char)
    ensures Parse(main + "#" + fragment, v6) == None
  {
    assert main + "#" + fragment == main + ['#'] + fragment;
    CutAt(main, '#', fragment);
  }

  // ---------- Exactly which raw user texts survive ----------

  /** Text that user information may hold unescaped and that is neither a name
      separator nor an escape. */
  predicate PlainUser(user: string) {
    forall c <- user :: IsUserinfoChar(c) && c != ':' && c != '%'
  }

  lemma UserLength(text: string)
    ensures var r := ParseUser(text);
            r.Some? ==> |r.value.name| <= |text| && (|r.value.name| == |text| ==> PlainUser(text))
  {
    UnescapeLength(UserInfo, Cut(text, ':').0);
  }

  lemma UsernameLength(scheme: string, rest: string, v6: string -> bool)
    ensures var r, authority := ParseRest(scheme, rest, v6), SplitRest(rest).0;
            r.Some? ==> |Username(r.value)| <= if authority.Some? then |authority.value| else 0
  {
    var authority := SplitRest(rest).0;
    if authority.Some? {
      AuthorityUserLength(authority.value, v6);
    }
  }

  function NameOf(user: User): string { if user.NoUser? then "" else user.name }

  lemma AuthorityUserLength(authority: string, v6: string -> bool)
    ensures var r := ParseAuthority(authority, v6); r.Some? ==> |NameOf(r.value.0)| <= |authority|
  {
    var (userinfo, hostText, at) := CutLast(authority, '@');
    if at {
      UserLength(userinfo);
      assert |userinfo| < |authority|;
    }
  }

  /** A delimiter inside `user` ends the authority early. */
  lemma AuthorityCut(user: string, tail: string)
    requires '?' in user || '/' in user
    ensures var authority := SplitRest("//" + user + tail).0; authority.Some? && |authority.value| < |user|
  {
    if '?' in user {
      CutShort("//", user, tail, '?');
    } else {
      SlashCuts(user, tail);
    }
  }

  lemma SplitBefore(rest: string, before: string)
    requires Cut(rest, '?').0 == before && "//" <= before
    ensures SplitRest(rest).0 == Some(Cut(before[2..], '/').0)
  {
  }

  lemma SlashCuts(user: string, tail: string)
    requires '?' !in user && '/' in user
    ensures var authority := SplitRest("//" + user + tail).0; authority.Some? && |authority.value| < |user|
  {
    var head, more := "//" + user, Cut(tail, '?').0;
    CutLong(head, tail, '?');
    SplitBefore(head + tail, head + more);
    CutShort("", user, more, '/');
    Unslash(user, more);
  }

  lemma Unslash(user: string, more: string)
    ensures ("//" + user + more)[2..] == "" + user + more
  {
  }

  lemma MainTooShort(scheme: string, main: string, v6: string -> bool)
    requires IsSchemeText(scheme) && scheme + "://" <= main
    ensures var r := ParseMain(main, v6); r.Some? ==> |Username(r.value)| <= |main| - |scheme| - 3
  {
    var rest := main[|scheme| + 1..];
    assert main == scheme + [':'] + rest;
    assert forall c <- scheme :: c != ':';
    CutAt(scheme, ':', rest);
    UsernameLength(scheme, rest, v6);
  }

  lemma MainWithDelimiter(scheme: string, user: string, tail: string, v6: string -> bool)
    requires IsSchemeText(scheme) && !FreeOfDelimiters(user) && '#' !in user
    ensures var r := ParseMain(scheme + ":" + ("//" + user + tail), v6); r.Some? ==> |Username(r.value)| < |user|
  {
    var rest := "//" + user + tail;
    assert scheme + ":" + rest == scheme + [':'] + rest;
    if c :| c in user && IsControl(c) {
      assert c in scheme + ":" + rest;
    } else {
      assert forall c <- scheme :: c != ':';
      CutAt(scheme, ':', rest);
      AuthorityCut(user, tail);
      UsernameLength(scheme, rest, v6);
    }
  }

  lemma HashCuts(scheme: string, user: string, tail: string, v6: string -> bool)
    requires IsSchemeText(scheme) && '#' in user
    ensures var r := Parse(scheme + "://" + user + tail, v6); r.Some? ==> |Username(r.value)| < |user|
  {
    var head := scheme + "://";
    assert forall c <- scheme :: c != '#';
    CutShort(head, user, tail, '#');
    MainTooShort(scheme, Cut(head + user + tail, '#').0, v6);
  }

  /** A text containing a delimiter is cut short, or the link is refused. */
  lemma DelimitedUserIsLost(scheme: string, user: string, hostPort: string, query: string, fragment: string, v6: string -> bool)
    requires Printable(scheme, hostPort, query, fragment) && !FreeOfDelimiters(user)
    ensures var r := Parse(Link(scheme, user, hostPort, query, fragment), v6); r.Some? ==> |Username(r.value)| < |user|
  {
    var tail := "@" + hostPort + QueryTail(query);
    LinkText(scheme, user, hostPort, query, fragment);
    if '#' in user {
      HashCuts(scheme, user, tail + "#" + fragment, v6);
    } else {
      var main := scheme + ":" + ("//" + user + tail);
      PrintableAvoidsDelimiters(scheme, hostPort, query, fragment);
      assert '#' !in main;
      CutAt(main, '#', fragment);
      MainWithDelimiter(scheme, user, tail, v6);
    }
  }

  lemma LinkText(scheme: string, user: string, hostPort: string, query: string, fragment: string)
    ensures var tail := "@" + hostPort + QueryTail(query);
            && Link(scheme, user, hostPort, query, fragment) == scheme + "://" + user + (tail + "#" + fragment)
            && Link(scheme, user, hostPort, query, fragment) == scheme + ":" + ("//" + user + tail) + ['#'] + fragment
  {
    var front, tail, q := scheme + "://" + user, "@" + hostPort + QueryTail(query), QueryTail(query);
    Regroup(front, "@", hostPort);
    Regroup(front, "@" + hostPort, q);
    assert Link(scheme, user, hostPort, query, fragment) == front + tail + "#" + fragment;
    Regroup(front, tail, "#");
    Regroup(front, tail + "#", fragment);
    assert "://" == ":" + "//";
    Regroup(scheme, ":", "//");
    Regroup(scheme + ":", "//", user);
    Regroup(scheme + ":", "//" + user, tail);
  }

  lemma PlainUserParses(user: string)
    requires PlainUser(user)
    ensures ParseUser(user) == Some(Name(user)) && FreeOfDelimiters(user)
  {
    assert ':' !in user && '%' !in user;
    UncutUser(user);
    UnescapePlain(UserInfo, user);
    UserOfParts(user, user, "", false, user, "");
    assert forall c :: IsUserinfoChar(c) ==> c != '#' && c != '?' && c != '/' && !IsControl(c);
  }

  lemma UserOfParts(text: string, before: string, after: string, colon: bool, name: string, password: string)
    requires (forall c <- text :: IsUserinfoChar(c)) && Cut(text, ':') == (before, after, colon)
    requires Unescape(UserInfo, before) == Some(name) && Unescape(UserInfo, after) == Some(password)
    ensures ParseUser(text) == Some(if colon then NamePassword(name, password) else Name(name))
  {
  }

  lemma UncutUser(user: string)
    requires ':' !in user
    ensures Cut(user, ':') == (user, "", false) && Unescape(UserInfo, "") == Some("")
  {
  }

  lemma MeaningNames(scheme: string, user: string, hostPort: string, query: string, v6: string -> bool)
    requires ParseHost(hostPort, v6).Some?
    ensures var r := Meaning(scheme, user, hostPort, query, v6); r.Some? && Username(r.value) == user <==> PlainUser(user)
  {
    UserLength(user);
    if PlainUser(user) {
      PlainUserParses(user);
    }
  }

  lemma DelimitedIsNotPlain(user: string)
    requires !FreeOfDelimiters(user)
    ensures !PlainUser(user)
  {
    var c :| c in user && (c == '#' || c == '?' || c == '/' || IsControl(c));
    assert !IsUserinfoChar(c);
  }

  /** A raw text printed as user information is the user name that is read back
      if and only if it is plain. */
  lemma RawUserIff(scheme: string, user: string, hostPort: string, query: string, fragment: string, v6: string -> bool)
    requires Printable(scheme, hostPort, query, fragment) && ParseHost(hostPort, v6).Some?
    ensures var r := Parse(Link(scheme, user, hostPort, query, fragment), v6);
            r.Some? && Username(r.value) == user <==> PlainUser(user)
  {
    if FreeOfDelimiters(user) {
      ParseLink(scheme, user, hostPort, query, fragment, v6);
      MeaningNames(scheme, user, hostPort, query, v6);
    } else {
      DelimitedUserIsLost(scheme, user, hostPort, query, fragment, v6);
      DelimitedIsNotPlain(user);
    }
  }
}
