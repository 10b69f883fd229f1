/** The proxy URL handed to the gateway, and reading one back. The parser is the WHATWG
    URL parser as far as an http authority goes (section 3.2 of RFC 3986); what it makes of
    a host (IPv4, IPv6, IDNA) is a parameter. */
module ProxyUrl {
  import opened Options
  import opened Text
  import UriComponent
  import opened UserinfoSet

  datatype ProxyType = Http | Socks5

  datatype Config = Config(kind: ProxyType, host: string, port: nat, username: Option<string>, password: Option<string>)

  datatype Parsed = Parsed(kind: Option<ProxyType>, host: string, port: nat, username: Option<string>,
                           password: Option<string>)

  type HostParser = string -> Option<string>

  // ----- printing -----

  function Scheme(kind: ProxyType): string {
    if kind == Http then "http" else "socks5"
  }

  /** Empty is falsy, like absent. */
  function Given(s: Option<string>): string {
    if s.Some? then s.value else ""
  }

  function Credentials(username: string, password: string): string {
    if username == "" then ""
    else UriComponent.Encode(username) + (if password == "" then "" else ":" + UriComponent.Encode(password)) + "@"
  }

  function Authority(c: Config): string {
    Credentials(Given(c.username), Given(c.password)) + (c.host + (":" + Decimal(c.port)))
  }

  function ProxyUrl(c: Config): string {
    Scheme(c.kind) + ("://" + Authority(c))
  }

  function RedactProxyUrl(c: Config): string {
    ProxyUrl(c.(password := if Given(c.password) != "" then Some("***") else None))
  }

  // ----- the URL parser -----

  datatype Url = Url(username: string, password: string, hostname: string, port: Option<nat>)

  predicate EndsAuthority(c: char) {
    c == '/' || c == '\\' || c == '?' || c == '#'
  }

  predicate InAuthority(c: char) {
    !EndsAuthority(c)
  }

  /** The last `@` before `n`. */
  function LastAt(s: string, n: nat): (i: Option<nat>)
    requires n <= |s|
    ensures i.Some? ==> i.value < n && s[i.value] == '@' && forall k :: i.value < k < n ==> s[k] != '@'
    ensures i.None? ==> forall k :: 0 <= k < n ==> s[k] != '@'
  {
    if n == 0 then None
    else if s[n - 1] == '@' then Some(n - 1)
    else LastAt(s, n - 1)
  }

  predicate NotColon(c: char) {
    c != ':'
  }

  /** Where the host ends: the first colon that is not between brackets. */
  function HostEnd(s: string, i: nat, inside: bool): (end: nat)
    requires i <= |s|
    ensures i <= end <= |s|
    decreases |s| - i
  {
    if i == |s| || (s[i] == ':' && !inside) then i
    else HostEnd(s, i + 1, if s[i] == '[' then true else if s[i] == ']' then false else inside)
  }

  function Number(s: string): Option<nat> {
    if s == "" then Some(0)
    else if '0' <= s[|s| - 1] <= '9' && Number(s[..|s| - 1]).Some? then
      Some(Number(s[..|s| - 1]).value * 10 + (s[|s| - 1] as int - '0' as int))
    else None
  }

  /** The default port of the scheme is the same as none. */
  function PortOf(s: string): Result<Option<nat>, ()> {
    var n := Number(s);
    if n.None? || n.value > 65_535 then Err(())
    else if s == "" || n.value == 80 then Ok(None)
    else Ok(n)
  }

  function HostAndPort(s: string, hosts: HostParser): Option<(string, Option<nat>)> {
    var end := HostEnd(s, 0, false);
    if end == 0 || hosts(s[..end]).None? then None
    else
      var port := PortOf(if end < |s| then s[end + 1..] else "");
      if port.Err? then None else Some((hosts(s[..end]).value, port.value))
  }

  /** `new URL("http://" + rest)`, for a rest without tabs and line breaks, which the parser
      would drop, and with no space or control character at its end. */
  function ParseHttp(rest: string, hosts: HostParser): Option<Url> {
    var slashes := SpanEnd(rest, 0, EndsAuthoritySlash);
    var authority := rest[slashes..SpanEnd(rest, slashes, InAuthority)];
    var at := LastAt(authority, |authority|);
    WithUserinfo(if at.Some? then authority[..at.value] else "",
                 HostAndPort(if at.Some? then authority[at.value + 1..] else authority, hosts))
  }

  function WithUserinfo(userinfo: string, hostAndPort: Option<(string, Option<nat>)>): Option<Url> {
    if hostAndPort.None? then None
    else
      var colon := SpanEnd(userinfo, 0, NotColon);
      Some(Url(UserinfoEncode(userinfo[..colon]),
               if colon < |userinfo| then UserinfoEncode(userinfo[colon + 1..]) else "",
               hostAndPort.value.0, hostAndPort.value.1))
  }

  predicate EndsAuthoritySlash(c: char) {
    c == '/' || c == '\\'
  }

  // ----- reading one back -----

  predicate InScheme(c: char) {
    'a' <= c <= 'z' || 'A' <= c <= 'Z' || '0' <= c <= '9' || c == '+' || c == '.' || c == '-'
  }

  function Lower(s: string): (t: string)
    ensures |t| == |s|
  {
    if s == "" then "" else [if 'A' <= s[0] <= 'Z' then s[0] + ('a' - 'A') else s[0]] + Lower(s[1..])
  }

  predicate StartsWith(s: string, prefix: string) {
    |prefix| <= |s| && s[..|prefix|] == prefix
  }

  function KindOf(scheme: string): Option<ProxyType> {
    var s := Lower(scheme);
    if StartsWith(s, "socks") then Some(Socks5) else if StartsWith(s, "http") then Some(Http) else None
  }

  /** Err is the URIError that decoding a malformed escape throws past the caller; Ok(None)
      is the refusal the caller can fall back from. */
  function FromUrl(kind: Option<ProxyType>, url: Option<Url>): Result<Option<Parsed>, ()> {
    if kind.None? || url.None? || url.value.hostname == "" || url.value.port.None? then Ok(None)
    else
      var username := UriComponent.Decode(url.value.username);
      var password := UriComponent.Decode(url.value.password);
      if username.None? || password.None? then Err(())
      else Ok(Some(Parsed(kind, url.value.hostname, url.value.port.value,
                          NonEmpty(username.value), NonEmpty(password.value))))
  }

  function SplitAtColons(s: string): (parts: seq<string>)
    ensures parts != []
    decreases |s|
  {
    var end := SpanEnd(s, 0, NotColon);
    if end == |s| then [s] else [s[..end]] + SplitAtColons(s[end + 1..])
  }

  /** `host:port[:user[:password]]`; what counts as a number is JavaScript's. */
  function FromParts(parts: seq<string>, numberOf: string -> Option<int>): Option<Parsed> {
    if |parts| < 2 || |parts| > 4 then None
    else
      var port := numberOf(parts[1]);
      if port.None? || port.value < 1 || port.value > 65_535 then None
      else Some(Parsed(None, parts[0], port.value,
                       if |parts| > 2 then NonEmpty(parts[2]) else None,
                       if |parts| > 3 then NonEmpty(parts[3]) else None))
  }

  function ParseProxyUrl(raw: string, hosts: HostParser, numberOf: string -> Option<int>): Result<Option<Parsed>, ()> {
    var text := Trim(raw);
    if text == "" then Ok(None)
    else
      var scheme := SpanEnd(text, 0, InScheme);
      if scheme > 0 && StartsWith(text[scheme..], "://") then
        FromUrl(KindOf(text[..scheme]), ParseHttp(text[scheme + 3..], hosts))
      else
        Ok(FromParts(SplitAtColons(text), numberOf))
  }

  // ----- what a configuration may hold -----

  /** What a host parser gives back is a host: no separators, and colons only in brackets. */
  ghost predicate Sane(hosts: HostParser) {
    forall s :: hosts(s).Some? ==> IsHost(hosts(s).value)
  }

  predicate HostChar(c: char) {
    !EndsAuthority(c) && c != '@' && c > ' ' && !IsSpace(c)
  }

  predicate LeftOpen(s: string, i: nat, inside: bool)
    requires i <= |s|
    decreases |s| - i
  {
    if i == |s| then inside else LeftOpen(s, i + 1, if s[i] == '[' then true else if s[i] == ']' then false else inside)
  }

  predicate IsHost(s: string) {
    && s != "" && (forall i :: 0 <= i < |s| ==> HostChar(s[i]))
    && HostEnd(s, 0, false) == |s| && !LeftOpen(s, 0, false)
  }

  /** The form's check: the parser, given the host alone, must give it back. */
  predicate CheckHost(host: string, hosts: HostParser) {
    && host != ""
    && (forall i :: 0 <= i < |host| ==> host[i] != '@' && host[i] != '/' && !IsSpace(host[i]))
    && ParseHttp(host, hosts).Some? && ParseHttp(host, hosts).value.hostname == host
  }

  lemma {:induction false} HostEndsAtColon(s: string, rest: string, i: nat, inside: bool)
    requires i <= |s| && HostEnd(s, i, inside) == |s| && !LeftOpen(s, i, inside)
    requires rest != "" && rest[0] == ':'
    ensures HostEnd(s + rest, i, inside) == |s|
    decreases |s| - i
  {
    if i == |s| {
    } else {
      assert (s + rest)[i] == s[i];
      HostEndsAtColon(s, rest, i + 1, if s[i] == '[' then true else if s[i] == ']' then false else inside);
    }
  }

  predicate IsNameChar(c: char) {
    'a' <= c <= 'z' || 'A' <= c <= 'Z' || '0' <= c <= '9' || c == '-' || c == '.'
  }

  lemma {:induction false} NameRuns(s: string, i: nat)
    requires i <= |s| && forall k :: i <= k < |s| ==> IsNameChar(s[k])
    ensures HostEnd(s, i, false) == |s| && !LeftOpen(s, i, false)
    decreases |s| - i
  {
    if i == |s| {
    } else {
      NameRuns(s, i + 1);
    }
  }

  /** Domain names and IPv4 addresses are hosts. */
  lemma NamesAreHosts(s: string)
    requires s != "" && forall k :: 0 <= k < |s| ==> IsNameChar(s[k])
    ensures IsHost(s)
  {
    NameRuns(s, 0);
  }

  lemma {:induction false} BracketRuns(s: string, i: nat)
    requires i < |s| && s[|s| - 1] == ']' && forall k :: i <= k < |s| - 1 ==> s[k] != '[' && s[k] != ']'
    ensures HostEnd(s, i, true) == |s| && !LeftOpen(s, i, true)
    decreases |s| - i
  {
    if i == |s| - 1 {
    } else {
      BracketRuns(s, i + 1);
    }
  }

  /** And so is an IPv6 address in its brackets, colons and all. */
  lemma LiteralsAreHosts(address: string)
    requires forall k :: 0 <= k < |address| ==> IsNameChar(address[k]) || address[k] == ':'
    ensures IsHost("[" + address + "]")
  {
    var s := "[" + address + "]";
    assert s[0] == '[' && s[|s| - 1] == ']';
    forall k | 1 <= k < |s| - 1 ensures s[k] != '[' && s[k] != ']' { assert s[k] == address[k - 1]; }
    BracketRuns(s, 1);
    forall k | 0 <= k < |s| ensures HostChar(s[k]) {
      if 0 < k < |s| - 1 { assert s[k] == address[k - 1]; }
    }
  }

  lemma CheckedHost(host: string, hosts: HostParser)
    requires Sane(hosts) && CheckHost(host, hosts)
    ensures IsHost(host) && hosts(host) == Some(host)
  {
    var url := ParseHttp(host, hosts).value;
    assert exists s :: hosts(s) == Some(host);
    SpanIs(host, 0, 0, EndsAuthoritySlash);
    SpanIs(host, 0, |host|, InAuthority);
    assert host[0..|host|] == host && host[..|host|] == host;
  }

  lemma NumberSnoc(s: string, d: nat)
    requires Number(s).Some? && d < 10
    ensures Number(s + ['0' + d as char]) == Some(Number(s).value * 10 + d)
  {
    var t := s + ['0' + d as char];
    assert t[..|t| - 1] == s;
  }

  lemma {:induction false} NumberRoundTrip(n: nat)
    ensures Number(Decimal(n)) == Some(n)
  {
    if n < 10 {
    } else {
      NumberRoundTrip(n / 10);
    }
    NumberSnoc(if n < 10 then "" else Decimal(n / 10), n % 10);
  }

  lemma HostAndPortRoundTrip(host: string, port: nat, hosts: HostParser)
    requires IsHost(host) && hosts(host) == Some(host) && 1 <= port <= 65_535
    ensures HostAndPort(host + (":" + Decimal(port)), hosts) == Some((host, if port == 80 then None else Some(port)))
  {
    var digits := Decimal(port);
    var s := host + (":" + digits);
    NumberRoundTrip(port);
    HostEndsAtColon(host, ":" + digits, 0, false);
    assert s[..|host|] == host && s[|host| + 1..] == digits;
  }

  predicate OnlyAuthority(s: string) {
    forall i :: 0 <= i < |s| ==> InAuthority(s[i])
  }

  predicate NoAt(s: string) {
    forall i :: 0 <= i < |s| ==> s[i] != '@'
  }

  lemma NoSlashes(s: string)
    requires s != "" && OnlyAuthority(s)
    ensures SpanEnd(s, 0, EndsAuthoritySlash) == 0 && SpanEnd(s, 0, InAuthority) == |s|
  {
    SpanIs(s, 0, 0, EndsAuthoritySlash);
    SpanIs(s, 0, |s|, InAuthority);
  }

  lemma ParseBare(tail: string, hosts: HostParser)
    requires tail != "" && OnlyAuthority(tail) && NoAt(tail)
    ensures ParseHttp(tail, hosts) == WithUserinfo("", HostAndPort(tail, hosts))
  {
    NoSlashes(tail);
    assert tail[0..|tail|] == tail;
    assert LastAt(tail, |tail|).None?;
  }

  lemma {:induction false} LastAtIs(s: string, i: nat, n: nat)
    requires i < n <= |s| && s[i] == '@' && forall k :: i < k < n ==> s[k] != '@'
    ensures LastAt(s, n) == Some(i)
  {
    if n == i + 1 {
    } else {
      LastAtIs(s, i, n - 1);
    }
  }

  /** The last `@` is the one that separates. */
  lemma ParseUserinfo(info: string, tail: string, hosts: HostParser)
    requires OnlyAuthority(info) && OnlyAuthority(tail) && NoAt(tail)
    ensures ParseHttp(info + ("@" + tail), hosts) == WithUserinfo(info, HostAndPort(tail, hosts))
  {
    var s := info + ("@" + tail);
    NoSlashes(s);
    assert s[0..|s|] == s && s[..|info|] == info && s[|info| + 1..] == tail;
    forall k | |info| < k < |s| ensures s[k] != '@' { assert s[k] == tail[k - |info| - 1]; }
    LastAtIs(s, |info|, |s|);
  }

  function Userinfo(user: string, pass: string): string {
    user + (if pass == "" then "" else ":" + pass)
  }

  lemma SplitPlain(user: string, pass: string, hostAndPort: (string, Option<nat>))
    requires UriComponent.AllPlain(user) && UriComponent.AllPlain(pass)
    ensures WithUserinfo(Userinfo(user, pass), Some(hostAndPort)) == Some(Url(user, pass, hostAndPort.0, hostAndPort.1))
  {
    var s := Userinfo(user, pass);
    SpanIs(s, 0, |user|, NotColon);
    assert s[..|user|] == user;
    PlainStays(user);
    PlainStays(pass);
    if pass != "" { assert s[|user| + 1..] == pass; }
  }

  function Tail(c: Config): string {
    c.host + (":" + Decimal(c.port))
  }

  lemma TailIsAuthority(c: Config)
    requires IsHost(c.host)
    ensures OnlyAuthority(Tail(c)) && NoAt(Tail(c))
  {
  }

  predicate Valid(c: Config, hosts: HostParser) {
    CheckHost(c.host, hosts) && 1 <= c.port <= 65_535
  }

  /** What the URL parser finds in a printed authority. */
  lemma ParsePrinted(c: Config, hosts: HostParser)
    requires Sane(hosts) && Valid(c, hosts)
    ensures var user := Given(c.username);
            var pass := if user == "" then "" else Given(c.password);
            ParseHttp(Authority(c), hosts)
            == Some(Url(UriComponent.Encode(user), UriComponent.Encode(pass), c.host,
                        if c.port == 80 then None else Some(c.port)))
  {
    var user := Given(c.username);
    var pass := if user == "" then "" else Given(c.password);
    CheckedHost(c.host, hosts);
    HostAndPortRoundTrip(c.host, c.port, hosts);
    TailIsAuthority(c);
    AuthorityParts(c);
    if user == "" {
      ParseBare(Tail(c), hosts);
    } else {
      UriComponent.EncodedIsPlain(user);
      UriComponent.EncodedIsPlain(pass);
      ParseParts(UriComponent.Encode(user), UriComponent.Encode(pass), Tail(c), hosts);
    }
  }

  lemma AuthorityParts(c: Config)
    ensures Given(c.username) == "" ==> Authority(c) == Tail(c)
    ensures Given(c.username) != "" ==>
              Authority(c) ==
              Userinfo(UriComponent.Encode(Given(c.username)), UriComponent.Encode(Given(c.password))) + ("@" + Tail(c))
  {
    var user, pass := Given(c.username), Given(c.password);
    if user == "" {
      assert Credentials(user, pass) == "";
    } else {
      UriComponent.EncodedIsPlain(pass);
      assert Credentials(user, pass) == Userinfo(UriComponent.Encode(user), UriComponent.Encode(pass)) + "@";
    }
  }

  lemma ParseParts(u: string, p: string, tail: string, hosts: HostParser)
    requires UriComponent.AllPlain(u) && UriComponent.AllPlain(p)
    requires OnlyAuthority(tail) && NoAt(tail) && HostAndPort(tail, hosts).Some?
    ensures var found := HostAndPort(tail, hosts).value;
            ParseHttp(Userinfo(u, p) + ("@" + tail), hosts) == Some(Url(u, p, found.0, found.1))
  {
    ParseUserinfo(Userinfo(u, p), tail, hosts);
    SplitPlain(u, p, HostAndPort(tail, hosts).value);
  }

  function Spelled(scheme: string, authority: string): string {
    scheme + ("://" + authority)
  }

  /** A scheme, in any case, that stands for one of the two types. */
  predicate IsScheme(s: string) {
    s != "" && (forall i :: 0 <= i < |s| ==> InScheme(s[i])) && KindOf(s).Some?
  }

  lemma KindIsRead(kind: ProxyType)
    ensures IsScheme(Scheme(kind)) && KindOf(Scheme(kind)) == Some(kind)
  {
    if kind == Http {
      assert Lower("http") == "http";
    } else {
      assert Lower("socks5") == "socks5";
    }
  }

  lemma NothingToTrim(text: string)
    requires text != "" && !IsSpace(text[0]) && !IsSpace(text[|text| - 1])
    ensures Trim(text) == text
  {
    SpanIs(text, 0, 0, IsSpace);
    assert text[0..] == text;
  }

  lemma SchemeIsRead(scheme: string, authority: string)
    requires IsScheme(scheme)
    ensures var text := Spelled(scheme, authority);
            && SpanEnd(text, 0, InScheme) == |scheme| && text[..|scheme|] == scheme
            && StartsWith(text[|scheme|..], "://") && text[|scheme| + 3..] == authority
  {
    SpanIs(Spelled(scheme, authority), 0, |scheme|, InScheme);
  }

  lemma UrlIsRead(scheme: string, authority: string, hosts: HostParser, numberOf: string -> Option<int>)
    requires IsScheme(scheme) && authority != "" && !IsSpace(authority[|authority| - 1])
    ensures ParseProxyUrl(Spelled(scheme, authority), hosts, numberOf) ==
              FromUrl(KindOf(scheme), ParseHttp(authority, hosts))
  {
    assert InScheme(scheme[0]) && !IsSpace(scheme[0]);
    NothingToTrim(Spelled(scheme, authority));
    SchemeIsRead(scheme, authority);
  }

  lemma EndOfConcat(a: string, b: string)
    requires b != ""
    ensures a + b != "" && (a + b)[|a + b| - 1] == b[|b| - 1]
  {
  }

  lemma TailEndsInDigit(c: Config)
    ensures Tail(c) != "" && !IsSpace(Tail(c)[|Tail(c)| - 1])
  {
    EndOfConcat(":", Decimal(c.port));
    EndOfConcat(c.host, ":" + Decimal(c.port));
  }

  lemma CredentialsAreRead(kind: ProxyType, user: string, pass: string, host: string, port: Option<nat>)
    requires host != ""
    ensures FromUrl(Some(kind), Some(Url(UriComponent.Encode(user), UriComponent.Encode(pass), host, port)))
            == Ok(if port.None? then None
                  else Some(Parsed(Some(kind), host, port.value, NonEmpty(user), NonEmpty(pass))))
  {
    UriComponent.RoundTrip(user);
    UriComponent.RoundTrip(pass);
  }

  lemma WithoutCredentials(scheme: string, tail: string, hosts: HostParser, numberOf: string -> Option<int>)
    requires IsScheme(scheme) && tail != "" && OnlyAuthority(tail) && NoAt(tail) && !IsSpace(tail[|tail| - 1])
    requires HostAndPort(tail, hosts).None? || HostAndPort(tail, hosts).value.1.None?
    ensures ParseProxyUrl(Spelled(scheme, tail), hosts, numberOf) == Ok(None)
  {
    UrlIsRead(scheme, tail, hosts, numberOf);
    ParseBare(tail, hosts);
  }

  /** A URL that names no port is not recognized. */
  lemma PortIsNeeded(scheme: string, host: string, hosts: HostParser, numberOf: string -> Option<int>)
    requires IsScheme(scheme) && IsHost(host) && hosts(host) == Some(host)
    ensures ParseProxyUrl(Spelled(scheme, host), hosts, numberOf) == Ok(None)
  {
    assert host[..|host|] == host && HostChar(host[|host| - 1]);
    WithoutCredentials(scheme, host, hosts, numberOf);
  }

  /** Nor one whose port no host has. */
  lemma PortIsBounded(scheme: string, host: string, port: nat, hosts: HostParser, numberOf: string -> Option<int>)
    requires IsScheme(scheme) && IsHost(host) && hosts(host) == Some(host) && port > 65_535
    ensures ParseProxyUrl(Spelled(scheme, host + (":" + Decimal(port))), hosts, numberOf) == Ok(None)
  {
    var c := Config(Http, host, port, None, None);
    NumberRoundTrip(port);
    HostEndsAtColon(host, ":" + Decimal(port), 0, false);
    assert Tail(c)[..|host|] == host && Tail(c)[|host| + 1..] == Decimal(port);
    TailIsAuthority(c);
    TailEndsInDigit(c);
    WithoutCredentials(scheme, Tail(c), hosts, numberOf);
  }

  /** A printed configuration reads back as itself, whatever its credentials hold, except
      that the parser cannot tell port 80 from no port: then nothing is recognized. */
  lemma RoundTripIff(c: Config, hosts: HostParser, numberOf: string -> Option<int>)
    requires Sane(hosts) && Valid(c, hosts)
    ensures ParseProxyUrl(ProxyUrl(c), hosts, numberOf)
            == Ok(if c.port == 80 then None
                  else Some(Parsed(Some(c.kind), c.host, c.port, NonEmpty(Given(c.username)),
                                   if Given(c.username) == "" then None else NonEmpty(Given(c.password)))))
  {
    var user := Given(c.username);
    var pass := if user == "" then "" else Given(c.password);
    TailEndsInDigit(c);
    EndOfConcat(Credentials(user, Given(c.password)), Tail(c));
    KindIsRead(c.kind);
    UrlIsRead(Scheme(c.kind), Authority(c), hosts, numberOf);
    ParsePrinted(c, hosts);
    CredentialsAreRead(c.kind, user, pass, c.host, if c.port == 80 then None else Some(c.port));
  }

  /** What is logged says where the traffic goes and as whom, and of the password only that
      there is one. */
  lemma RedactedReadsBack(c: Config, hosts: HostParser, numberOf: string -> Option<int>)
    requires Sane(hosts) && Valid(c, hosts)
    ensures ParseProxyUrl(RedactProxyUrl(c), hosts, numberOf)
            == Ok(if c.port == 80 then None
                  else Some(Parsed(Some(c.kind), c.host, c.port, NonEmpty(Given(c.username)),
                                   if Given(c.username) == "" || Given(c.password) == "" then None else Some("***"))))
    ensures Given(c.password) != "" ==>
              forall secret :: secret != "" ==> RedactProxyUrl(c.(password := Some(secret))) == RedactProxyUrl(c)
  {
    RoundTripIff(c.(password := if Given(c.password) != "" then Some("***") else None), hosts, numberOf);
  }

  /** What a pasted URL may hold before its last `@`, other `@`s included. */
  predicate IsUserinfo(s: string) {
    forall i :: 0 <= i < |s| ==> InAuthority(s[i]) && s[i] != '\t' && s[i] != '\n' && s[i] != '\r'
  }

  function UserOf(userinfo: string): string {
    userinfo[..SpanEnd(userinfo, 0, NotColon)]
  }

  function PassOf(userinfo: string): string {
    var colon := SpanEnd(userinfo, 0, NotColon);
    if colon < |userinfo| then userinfo[colon + 1..] else ""
  }

  /** A provider's URL, whatever its credentials are spelled with: it is neither read nor
      refused, but raises past the caller that was promised null, if and only if its port is
      one that shows and its username or password holds a percent sign that does not begin
      an escape of UTF-8. */
  lemma ThrowsIff(scheme: string, userinfo: string, host: string, port: nat, hosts: HostParser,
                  numberOf: string -> Option<int>)
    requires Sane(hosts) && CheckHost(host, hosts) && 1 <= port <= 65_535 && IsScheme(scheme) && IsUserinfo(userinfo)
    ensures ParseProxyUrl(Spelled(scheme, userinfo + ("@" + (host + (":" + Decimal(port))))), hosts, numberOf).Err?
            <==> port != 80
                 && (UriComponent.Decode(UserOf(userinfo)).None? || UriComponent.Decode(PassOf(userinfo)).None?)
  {
    var c := Config(Http, host, port, None, None);
    TailEndsInDigit(c);
    EndOfConcat("@", Tail(c));
    EndOfConcat(userinfo, "@" + Tail(c));
    UrlIsRead(scheme, userinfo + ("@" + Tail(c)), hosts, numberOf);
    CheckedHost(host, hosts);
    HostAndPortRoundTrip(host, port, hosts);
    TailIsAuthority(c);
    ParseUserinfo(userinfo, Tail(c), hosts);
    DecodeSeesThrough(UserOf(userinfo));
    DecodeSeesThrough(PassOf(userinfo));
  }

  lemma {:induction false} RunStopsShort(s: string, n: nat)
    requires s != "" && s[|s| - 1] == '%' && UriComponent.EscapedRun(s, n).Some?
    ensures 3 * n < |s|
    decreases n
  {
    if n == 0 {
    } else {
      assert UriComponent.Escaped(s).Some? && |s| > 3;
      RunStopsShort(s[3..], n - 1);
    }
  }

  /** Whatever is before it, a percent sign at the end is such a one: a password may well end
      in it. */
  lemma {:induction false} TrailingPercent(s: string)
    requires s != "" && s[|s| - 1] == '%'
    ensures UriComponent.Decode(s).None?
    decreases |s|
  {
    var first := UriComponent.DecodeChar(s);
    if first.Some? && s[0] == '%' {
      RunStopsShort(s, UriComponent.Width(UriComponent.Escaped(s).value).value);
    }
    if first.Some? && first.value.1 < |s| {
      TrailingPercent(s[first.value.1..]);
    }
  }

  // ----- the other shape -----

  predicate NoColon(s: string) {
    forall i :: 0 <= i < |s| ==> s[i] != ':'
  }

  lemma SplitsOff(a: string, b: string)
    requires NoColon(a)
    ensures SplitAtColons(a + (":" + b)) == [a] + SplitAtColons(b)
  {
    var s := a + (":" + b);
    SpanIs(s, 0, |a|, NotColon);
    assert s[..|a|] == a && s[|a| + 1..] == b;
  }

  lemma SplitsOnce(s: string)
    ensures |SplitAtColons(s)| == 1 <==> NoColon(s)
    ensures NoColon(s) ==> SplitAtColons(s) == [s]
  {
    if NoColon(s) {
      SpanIs(s, 0, |s|, NotColon);
    }
  }

  function ShortForm(host: string, port: nat, user: string, pass: string): string {
    host + (":" + (Decimal(port) + (":" + (user + (":" + pass)))))
  }

  lemma NotAScheme(host: string, port: nat, rest: string)
    requires NoColon(host)
    ensures var text := host + (":" + (Decimal(port) + rest));
            !StartsWith(text[SpanEnd(text, 0, InScheme)..], "://")
  {
    var text := host + (":" + (Decimal(port) + rest));
    assert text[|host|] == ':' && text[|host| + 1] == Decimal(port)[0];
  }

  lemma ThreeParts(b: string, c: string, d: string)
    requires NoColon(b) && NoColon(c)
    ensures SplitAtColons(b + (":" + (c + (":" + d)))) == [b] + ([c] + SplitAtColons(d))
  {
    SplitsOff(b, c + (":" + d));
    SplitsOff(c, d);
  }

  lemma FourParts(a: string, b: string, c: string, d: string)
    requires NoColon(a) && NoColon(b) && NoColon(c)
    ensures SplitAtColons(a + (":" + (b + (":" + (c + (":" + d)))))) == [a] + ([b] + ([c] + SplitAtColons(d)))
  {
    SplitsOff(a, b + (":" + (c + (":" + d))));
    ThreeParts(b, c, d);
  }

  lemma PartsAreRead(text: string, hosts: HostParser, numberOf: string -> Option<int>)
    requires text != "" && Trim(text) == text && !StartsWith(text[SpanEnd(text, 0, InScheme)..], "://")
    ensures ParseProxyUrl(text, hosts, numberOf) == Ok(FromParts(SplitAtColons(text), numberOf))
  {
  }

  /** Fields with colons between them. */
  function Joined(fields: seq<string>): string
    requires fields != []
  {
    if |fields| == 1 then fields[0] else fields[0] + (":" + Joined(fields[1..]))
  }

  lemma {:induction false} FieldsAreSplit(fields: seq<string>)
    requires fields != [] && forall i :: 0 <= i < |fields| ==> NoColon(fields[i])
    ensures SplitAtColons(Joined(fields)) == fields
  {
    if |fields| == 1 {
      SplitsOnce(fields[0]);
    } else {
      FieldsAreSplit(fields[1..]);
      SplitsOff(fields[0], Joined(fields[1..]));
      assert fields == [fields[0]] + fields[1..];
    }
  }

  /** Whatever has colons and is not a URL is recognized exactly when it has two to four fields and
      the second is a port: a host, then a port, and a username and a password where there are
      any and they are not blank. */
  lemma FieldsAreRead(fields: seq<string>, hosts: HostParser, numberOf: string -> Option<int>)
    requires fields != [] && forall i :: 0 <= i < |fields| ==> NoColon(fields[i])
    requires var text := Joined(fields);
             text != "" && Trim(text) == text && !StartsWith(text[SpanEnd(text, 0, InScheme)..], "://")
    ensures var r := ParseProxyUrl(Joined(fields), hosts, numberOf);
            && r.Ok?
            && (r.value.Some? <==>
                  && 2 <= |fields| <= 4 && numberOf(fields[1]).Some? && 1 <= numberOf(fields[1]).value <= 65_535)
            && (r.value.Some? ==>
                  var p := r.value.value;
                  && p.kind.None? && p.host == fields[0] && Some(p.port as int) == numberOf(fields[1])
                  && p.username == (if |fields| == 2 || fields[2] == "" then None else Some(fields[2]))
                  && p.password == (if |fields| < 4 || fields[3] == "" then None else Some(fields[3])))
  {
    FieldsAreSplit(fields);
    PartsAreRead(Joined(fields), hosts, numberOf);
  }

  /** What the gateway is handed begins with the scheme of the proxy's type, spelled so. */
  lemma SchemeIsSpelled(c: Config)
    ensures c.kind == Http ==> "http://" <= ProxyUrl(c)
    ensures c.kind == Socks5 ==> "socks5://" <= ProxyUrl(c)
  {
    assert "http" + "://" == "http://" && "socks5" + "://" == "socks5://";
    assert ProxyUrl(c) == Scheme(c.kind) + "://" + Authority(c);
  }

  lemma ShortFormEnds(host: string, port: nat, user: string, pass: string)
    requires host != ""
    ensures ShortForm(host, port, user, pass) != "" && ShortForm(host, port, user, pass)[0] == host[0]
    ensures ShortForm(host, port, user, pass)[|ShortForm(host, port, user, pass)| - 1]
            == (if pass == "" then ':' else pass[|pass| - 1])
  {
  }

  /** `host:port:user:password` is read field by field, unless the password has a colon: the
      parts are then too many, and nothing is recognized. */
  lemma ShortFormIff(host: string, port: nat, user: string, pass: string, hosts: HostParser,
                     numberOf: string -> Option<int>)
    requires host != "" && NoColon(host) && NoColon(user) && !IsSpace(host[0])
             && (pass == "" || !IsSpace(pass[|pass| - 1]))
    requires 1 <= port <= 65_535 && numberOf(Decimal(port)) == Some(port)
    ensures ParseProxyUrl(ShortForm(host, port, user, pass), hosts, numberOf)
            == Ok(if NoColon(pass) then Some(Parsed(None, host, port, NonEmpty(user), NonEmpty(pass))) else None)
  {
    ShortFormEnds(host, port, user, pass);
    NothingToTrim(ShortForm(host, port, user, pass));
    NotAScheme(host, port, ":" + (user + (":" + pass)));
    FourParts(host, Decimal(port), user, pass);
    SplitsOnce(pass);
    PartsAreRead(ShortForm(host, port, user, pass), hosts, numberOf);
  }
}
