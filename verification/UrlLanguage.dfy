/** Which URLs `_check_url` (tests/config_corpus.py) lets out, for every string and in terms
    of its parts: scheme, authority, host, and the address blocks of the policy. */
module UrlLanguage {
  import opened UrlAuthority

  // --- the parts of a URL -------------------------------------------------------------------

  /** `authority` is `host` with an optional port, and brackets around it taken off. */
  ghost predicate HostIn(authority: string, host: string) {
    exists named :: PortOff(authority, named) && BracketsOff(named, host)
  }

  /** A port is a last colon and what follows it, with no closing bracket after the colon. */
  ghost predicate PortOff(authority: string, named: string) {
    || (exists port :: authority == named + ":" + port && ':' !in port && ']' !in port)
    || (authority == named && NoPortIn(authority))
  }

  /** Every colon has a closing bracket after it. */
  ghost predicate NoPortIn(authority: string) {
    forall i :: 0 <= i < |authority| && authority[i] == ':' ==> ']' in authority[i..]
  }

  ghost predicate BracketsOff(named: string, host: string) {
    || named == "[" + host + "]"
    || (named == host && !(|named| >= 2 && named[0] == '[' && named[|named| - 1] == ']'))
  }

  function Scheme(secure: bool): string {
    if secure then "https://" else "http://"
  }

  ghost predicate Parts(value: string, secure: bool, authority: string, tail: string) {
    && value == Scheme(secure) + authority + tail
    && '/' !in authority && '?' !in authority
    && (tail == "" || tail[0] == '/' || tail[0] == '?')
  }

  /** No character is a space, a control character, a non-ASCII one or `#`. */
  predicate CleanUrl(value: string) {
    forall i :: 0 <= i < |value| ==> '!' <= value[i] <= '~' && value[i] != '#'
  }

  // --- the host of an authority ----------------------------------------------------------------

  lemma PortIsOff(authority: string)
    ensures PortOff(authority, WithoutPort(authority))
  {
    var colon, bracket := LastIndex(authority, ':'), LastIndex(authority, ']');
    if colon > bracket {
      var port := authority[colon + 1..];
      assert authority == authority[..colon] + ":" + port;
    } else {
      forall i | 0 <= i < |authority| && authority[i] == ':'
        ensures ']' in authority[i..]
      {
        assert authority[i..][bracket - i] == ']';
      }
    }
  }

  lemma PortOffIs(authority: string, named: string)
    requires PortOff(authority, named)
    ensures WithoutPort(authority) == named
  {
    if port :| authority == named + ":" + port && ':' !in port && ']' !in port {
      PortRemoved(named, port);
    } else {
      var colon := LastIndex(authority, ':');
      if colon >= 0 {
        var k :| 0 <= k < |authority[colon..]| && authority[colon..][k] == ']';
        assert authority[colon + k] == ']';
      }
    }
  }

  lemma BracketsIff(named: string, host: string)
    ensures BracketsOff(named, host) <==> WithoutBrackets(named) == host
  {
    if |named| >= 2 && named[0] == '[' && named[|named| - 1] == ']' {
      assert named == "[" + named[1..|named| - 1] + "]";
    }
    if named == "[" + host + "]" {
      assert named[1..|named| - 1] == host;
    }
  }

  lemma HostIff(authority: string, host: string)
    ensures HostIn(authority, host) <==> WithoutBrackets(WithoutPort(authority)) == host
  {
    PortIsOff(authority);
    BracketsIff(WithoutPort(authority), host);
    forall named | PortOff(authority, named) && BracketsOff(named, host)
      ensures WithoutBrackets(WithoutPort(authority)) == host
    {
      PortOffIs(authority, named);
    }
  }

  // --- the origin of a URL ------------------------------------------------------------------------

  function AuthorityPart(rest: string): string {
    Before(Before(rest, '/'), '?')
  }

  lemma AuthorityCut(rest: string)
    ensures var a := AuthorityPart(rest);
            && a <= rest && '/' !in a && '?' !in a
            && var tail := rest[|a|..]; tail == "" || tail[0] == '/' || tail[0] == '?'
  {
    var outer := Before(rest, '/');
    var a := Before(outer, '?');
    assert a <= rest;
    if |a| < |rest| {
      assert rest[|a|..][0] == rest[|a|];
      assert |a| < |outer| ==> outer[|a|] == rest[|a|];
    }
  }

  lemma PartsOf(value: string, secure: bool, rest: string)
    requires value == Scheme(secure) + rest
    ensures var a := AuthorityPart(rest); a <= rest && Parts(value, secure, a, rest[|a|..])
  {
    AuthorityCut(rest);
    var a := AuthorityPart(rest);
    assert rest == a + rest[|a|..];
    Joined(Scheme(secure), a, rest[|a|..]);
  }

  lemma Joined(a: string, b: string, c: string)
    ensures a + (b + c) == a + b + c
  {
  }

  lemma CleanIff(value: string)
    ensures CleanUrl(value) <==> forall i :: 0 <= i < |value| ==> PermittedChar(value[i])
  {
  }

  ghost predicate HasOrigin(value: string, secure: bool, authority: string, tail: string, host: string) {
    && CleanUrl(value) && Parts(value, secure, authority, tail)
    && authority != "" && '@' !in authority && host != "" && HostIn(authority, host)
  }

  lemma AuthorityOriginIff(secure: bool, authority: string, host: string)
    ensures AuthorityOrigin(secure, authority) == Origin(secure, host) <==>
            authority != "" && '@' !in authority && host != "" && HostIn(authority, host)
  {
    HostIff(authority, host);
  }

  lemma OriginUnfolds(value: string, secure: bool, rest: string)
    requires value == Scheme(secure) + rest && CleanUrl(value)
    ensures OriginOf(value) == AuthorityOrigin(secure, AuthorityPart(rest))
  {
    CleanIff(value);
    assert value[|Scheme(secure)|..] == rest;
    if !secure {
      assert value[4] == ':' && "https://"[4] == 's';
    }
  }

  lemma OriginIsClean(value: string, secure: bool, host: string) returns (rest: string)
    requires OriginOf(value) == Origin(secure, host)
    ensures CleanUrl(value) && value == Scheme(secure) + rest
  {
    CleanIff(value);
    if "https://" <= value {
      rest := value[8..];
      assert value == "https://" + rest;
    } else {
      rest := value[7..];
      assert value == "http://" + rest;
    }
  }

  lemma OriginHasParts(value: string, secure: bool, host: string)
    requires OriginOf(value) == Origin(secure, host)
    ensures exists authority, tail :: HasOrigin(value, secure, authority, tail, host)
  {
    var rest := OriginIsClean(value, secure, host);
    OriginUnfolds(value, secure, rest);
    PartsOf(value, secure, rest);
    var a := AuthorityPart(rest);
    AuthorityOriginIff(secure, a, host);
    assert HasOrigin(value, secure, a, rest[|a|..], host);
  }

  lemma PartsHaveOrigin(value: string, secure: bool, authority: string, tail: string, host: string)
    requires HasOrigin(value, secure, authority, tail, host)
    ensures OriginOf(value) == Origin(secure, host)
  {
    Joined(Scheme(secure), authority, tail);
    OriginUnfolds(value, secure, authority + tail);
    AuthorityEndsAtTail(authority, tail);
    AuthorityOriginIff(secure, authority, host);
  }

  /** For every string: the origin read from a URL is the one its parts spell. */
  lemma OriginIff(value: string, secure: bool, host: string)
    ensures OriginOf(value) == Origin(secure, host) <==> exists authority, tail :: HasOrigin(value, secure, authority, tail, host)
  {
    if OriginOf(value) == Origin(secure, host) {
      OriginHasParts(value, secure, host);
    }
    forall authority, tail | HasOrigin(value, secure, authority, tail, host)
      ensures OriginOf(value) == Origin(secure, host)
    {
      PartsHaveOrigin(value, secure, authority, tail, host);
    }
  }

  // --- the policy -------------------------------------------------------------------------------------

  predicate Octets(n: nat, a: nat, b: nat, c: nat, d: nat) {
    a < 256 && b < 256 && c < 256 && d < 256 && n == ((a * 256 + b) * 256 + c) * 256 + d
  }

  /** The private IPv4 blocks, as written: 10/8, 172.16/12, 192.168/16, 169.254/16; and the
      loopback address. */
  lemma DottedQuads(n: nat, a: nat, b: nat, c: nat, d: nat)
    requires Octets(n, a, b, c, d)
    ensures IsPrivate(V4(n)) <==> a == 10 || (a == 172 && 16 <= b < 32) || (a == 192 && b == 168) || (a == 169 && b == 254)
    ensures n == 0x7F00_0001 <==> a == 127 && b == 0 && c == 0 && d == 1
  {
  }

  /** The private IPv6 blocks by their first sixteen bits: fc00::/7 and fe80::/10. */
  lemma FirstGroups(first: nat, rest: nat, scoped: bool)
    requires first < 0x1_0000 && rest < 0x1_0000_0000_0000_0000_0000_0000_0000
    ensures IsPrivate(V6(first * 0x1_0000_0000_0000_0000_0000_0000_0000 + rest, scoped)) <==>
            0xFC00 <= first <= 0xFDFF || 0xFE80 <= first <= 0xFEBF
  {
  }

  /** A URL is let out if and only if it has an origin and that is encrypted, or the loopback,
      or a private address when the entry allows those. */
  lemma PermittedIff(value: string, allowInsecure: bool, parse: AddressParser)
    ensures Judge(OriginOf(value), allowInsecure, parse).Permitted? <==>
            exists secure, authority, tail, host :: HasOrigin(value, secure, authority, tail, host)
              && LetOut(secure, host, allowInsecure, parse)
  {
    var o := OriginOf(value);
    if o.Origin? {
      OriginIff(value, o.secure, o.host);
    }
    forall secure, authority, tail, host | HasOrigin(value, secure, authority, tail, host)
      ensures o == Origin(secure, host)
    {
      OriginIff(value, secure, host);
    }
  }

  predicate LetOut(secure: bool, host: string, allowInsecure: bool, parse: AddressParser) {
    || secure
    || host == "localhost" || parse(host) in {V4(0x7F00_0001), V6(1, false)}
    || (allowInsecure && IsPrivate(parse(host)))
  }
}
