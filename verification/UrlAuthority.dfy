/** `_check_url` (tests/config_corpus.py): the outbound URL policy. The authority is
    cut out by hand, as section 3.2 of RFC 3986 lays it out; reading an address
    literal is left to a parameter. */
module UrlAuthority {
  import opened Bytes

  /** What `ipaddress.ip_address` makes of a host. */
  datatype Address = NotAnAddress | V4(number: nat) | V6(number: nat, scoped: bool)

  type AddressParser = string -> Address

  datatype Verdict = Rejected | Permitted(loopback: bool)

  predicate PermittedChar(c: char) {
    0x21 <= c as int <= 0x7E && c != '#'
  }

  // --- address policy -----------------------------------------------------------------

  predicate IsLoopback(host: string, parse: AddressParser) {
    host == "localhost" || parse(host) == V4(0x7F00_0001) || parse(host) == V6(1, false)
  }

  /** 10/8, 172.16/12, 192.168/16, 169.254/16; fc00::/7, fe80::/10. */
  predicate IsPrivate(a: Address) {
    match a
    case NotAnAddress => false
    case V4(n) =>
      || 0x0A00_0000 <= n < 0x0B00_0000
      || 0xAC10_0000 <= n < 0xAC20_0000
      || 0xC0A8_0000 <= n < 0xC0A9_0000
      || 0xA9FE_0000 <= n < 0xA9FF_0000
    case V6(n, _) =>
      || 0xFC00_0000_0000_0000_0000_0000_0000_0000 <= n < 0xFE00_0000_0000_0000_0000_0000_0000_0000
      || 0xFE80_0000_0000_0000_0000_0000_0000_0000 <= n < 0xFEC0_0000_0000_0000_0000_0000_0000_0000
  }

  function Policy(secure: bool, host: string, allowInsecure: bool, parse: AddressParser): Verdict {
    var loopback := IsLoopback(host, parse);
    if secure || loopback || (IsPrivate(parse(host)) && allowInsecure) then Permitted(loopback) else Rejected
  }

  // --- cutting out the host ---------------------------------------------------------------

  /** `s.find(c)` cut: everything before the first `c`. */
  function Before(s: string, c: char): (r: string)
    ensures r <= s && c !in r
    ensures r == s || s[|r|] == c
  {
    if s == "" || s[0] == c then "" else [s[0]] + Before(s[1..], c)
  }

  /** `s.rfind(c)`. */
  function LastIndex(s: string, c: char): (r: int)
    ensures -1 <= r < |s|
    ensures r >= 0 ==> s[r] == c
    ensures forall i :: r < i < |s| ==> s[i] != c
  {
    if s == "" then -1
    else if s[|s| - 1] == c then |s| - 1
    else LastIndex(s[..|s| - 1], c)
  }

  function WithoutPort(authority: string): string {
    var colon := LastIndex(authority, ':');
    if colon > LastIndex(authority, ']') then authority[..colon] else authority
  }

  function WithoutBrackets(host: string): string {
    if |host| >= 2 && host[0] == '[' && host[|host| - 1] == ']' then host[1..|host| - 1] else host
  }

  datatype Origin = Origin(secure: bool, host: string) | NoOrigin

  function AuthorityOrigin(secure: bool, authority: string): Origin {
    if authority == "" || '@' in authority then NoOrigin
    else
      var host := WithoutBrackets(WithoutPort(authority));
      if host == "" then NoOrigin else Origin(secure, host)
  }

  /** Scheme and host of a URL, or nothing when the policy refuses it unread. */
  function OriginOf(value: string): Origin {
    if exists i :: 0 <= i < |value| && !PermittedChar(value[i]) then NoOrigin
    else if "https://" <= value then AuthorityOrigin(true, Before(Before(value[8..], '/'), '?'))
    else if "http://" <= value then AuthorityOrigin(false, Before(Before(value[7..], '/'), '?'))
    else NoOrigin
  }

  function Judge(origin: Origin, allowInsecure: bool, parse: AddressParser): Verdict {
    match origin
    case NoOrigin => Rejected
    case Origin(secure, host) => Policy(secure, host, allowInsecure, parse)
  }

  /** `_check_url`. */
  method CheckUrl(value: string, allowInsecure: bool, parse: AddressParser) returns (verdict: Verdict)
    ensures verdict == Judge(OriginOf(value), allowInsecure, parse)
  {
    for i := 0 to |value|
      invariant forall k :: 0 <= k < i ==> PermittedChar(value[k])
    {
      if !PermittedChar(value[i]) {
        return Rejected;
      }
    }
    var secure, rest;
    if "https://" <= value {
      secure, rest := true, value[8..];
    } else if "http://" <= value {
      secure, rest := false, value[7..];
    } else {
      return Rejected;
    }
    verdict := CheckAuthority(secure, Before(Before(rest, '/'), '?'), allowInsecure, parse);
  }

  /** The second half of `_check_url`: from the authority to the verdict. */
  method CheckAuthority(secure: bool, authority: string, allowInsecure: bool, parse: AddressParser) returns (verdict: Verdict)
    ensures verdict == Judge(AuthorityOrigin(secure, authority), allowInsecure, parse)
  {
    if authority == "" || '@' in authority {
      return Rejected;
    }
    var host := authority;
    var bracket, colon := LastIndex(host, ']'), LastIndex(host, ':');
    if colon > bracket {
      host := host[..colon];
    }
    if |host| >= 2 && host[0] == '[' && host[|host| - 1] == ']' {
      host := host[1..|host| - 1];
    }
    if host == "" {
      return Rejected;
    }
    var address := parse(host);
    var loopback := host == "localhost" || address == V4(0x7F00_0001) || address == V6(1, false);
    if !secure && !loopback && (!IsPrivate(address) || !allowInsecure) {
      return Rejected;
    }
    return Permitted(loopback);
  }

  // --- rendering ------------------------------------------------------------------------

  datatype Host = Plain(text: string) | Bracketed(text: string) {
    /** A registered name or address; a bracketed one may contain colons. */
    predicate Valid() {
      && text != "" && Free(text, {'/', '?', '@', ']'})
      && (Plain? ==> ':' !in text)
    }
    function Render(): string {
      if Plain? then text else "[" + text + "]"
    }
  }

  predicate Free(s: string, banned: set<char>) {
    forall i :: 0 <= i < |s| ==> PermittedChar(s[i]) && s[i] !in banned
  }

  datatype Url = Url(secure: bool, host: Host, hasPort: bool, port: string, tail: string) {
    predicate Valid() {
      && host.Valid()
      && Free(port, {'/', '?', '@', ':', ']'})
      && Free(tail, {})
      && (tail == "" || tail[0] == '/' || tail[0] == '?')
    }
    function Authority(): string {
      host.Render() + if hasPort then ":" + port else ""
    }
    function Render(): string {
      (if secure then "https://" else "http://") + Authority() + tail
    }
  }

  lemma {:induction false} BeforeStops(s: string, c: char, t: string)
    requires c !in s && (t == "" || t[0] == c)
    ensures Before(s + t, c) == s
  {
    if s == "" {
      assert s + t == t;
    } else {
      assert (s + t)[1..] == s[1..] + t;
      BeforeStops(s[1..], c, t);
    }
  }

  lemma {:induction false} BeforeSkips(s: string, c: char, t: string)
    requires c !in s
    ensures Before(s + t, c) == s + Before(t, c)
  {
    if s == "" {
      assert s + t == t && s + Before(t, c) == Before(t, c);
    } else {
      assert (s + t)[1..] == s[1..] + t;
      BeforeSkips(s[1..], c, t);
    }
  }

  /** Whatever starts with `/` or `?` is no part of the authority. */
  lemma AuthorityEndsAtTail(a: string, tail: string)
    requires '/' !in a && '?' !in a
    requires tail == "" || tail[0] == '/' || tail[0] == '?'
    ensures Before(Before(a + tail, '/'), '?') == a
  {
    BeforeSkips(a, '/', tail);
    var t := Before(tail, '/');
    assert t == "" || t[0] == '?';
    BeforeStops(a, '?', t);
  }

  lemma LastIndexIs(s: string, c: char, r: int)
    requires -1 <= r < |s| && (r >= 0 ==> s[r] == c)
    requires forall i :: r < i < |s| ==> s[i] != c
    ensures LastIndex(s, c) == r
  {
  }

  lemma PortRemoved(h: string, port: string)
    requires ':' !in port && ']' !in port
    ensures WithoutPort(h + ":" + port) == h
  {
    var a := h + ":" + port;
    LastIndexIs(a, ':', |h|);
    assert forall i :: |h| <= i < |a| ==> a[i] != ']';
    assert a[..|h|] == h;
  }

  lemma NoPort(host: Host)
    requires host.Valid()
    ensures WithoutPort(host.Render()) == host.Render()
  {
    var h := host.Render();
    if host.Plain? {
      LastIndexIs(h, ':', -1);
    } else {
      LastIndexIs(h, ']', |h| - 1);
    }
  }

  lemma HostRecovered(u: Url)
    requires u.Valid()
    ensures WithoutBrackets(WithoutPort(u.Authority())) == u.host.text
  {
    var h := u.host.Render();
    if u.hasPort {
      assert u.Authority() == h + ":" + u.port;
      PortRemoved(h, u.port);
    } else {
      assert u.Authority() == h;
      NoPort(u.host);
    }
    if u.host.Bracketed? {
      assert h[1..|h| - 1] == u.host.text;
    } else if |h| >= 2 {
      assert h[|h| - 1] != ']';
    }
  }

  lemma SchemeCut(u: Url)
    requires u.Valid()
    ensures var value, rest := u.Render(), u.Authority() + u.tail;
            if u.secure then "https://" <= value && value[8..] == rest
            else "http://" <= value && !("https://" <= value) && value[7..] == rest
  {
    var value := u.Render();
    if !u.secure {
      assert value[4] == ':';
      assert "https://"[4] == 's';
    }
  }

  lemma RenderedCharsPermitted(u: Url)
    requires u.Valid()
    ensures forall i :: 0 <= i < |u.Render()| ==> PermittedChar(u.Render()[i])
  {
    var scheme := if u.secure then "https://" else "http://";
    var pieces := [scheme, u.host.Render(), if u.hasPort then ":" + u.port else "", u.tail];
    assert forall i :: 0 <= i < |scheme| ==> PermittedChar(scheme[i]);
    assert u.Render() == scheme + u.host.Render() + pieces[2] + u.tail;
  }

  /** Host extraction inverts rendering, whatever the port and the tail. */
  lemma ExtractionInvertsRendering(u: Url)
    requires u.Valid()
    ensures OriginOf(u.Render()) == Origin(u.secure, u.host.text)
  {
    RenderedCharsPermitted(u);
    SchemeCut(u);
    var a := u.Authority();
    assert forall c :: c in a ==> c != '/' && c != '?' && c != '@' by { AuthorityChars(u); }
    AuthorityEndsAtTail(a, u.tail);
    HostRecovered(u);
  }

  lemma AuthorityChars(u: Url)
    requires u.Valid()
    ensures forall c :: c in u.Authority() ==> c != '/' && c != '?' && c != '@'
  {
    var h := u.host.Render();
    assert forall i :: 0 <= i < |h| ==> h[i] != '/' && h[i] != '?' && h[i] != '@';
    var p := if u.hasPort then ":" + u.port else "";
    assert forall i :: 0 <= i < |p| ==> p[i] != '/' && p[i] != '?' && p[i] != '@';
    assert u.Authority() == h + p;
  }

  /** The verdict on a URL is the policy on its scheme and host: neither the port nor
      the tail can change it, and plain HTTP passes only to a loopback host, or to a
      private literal when that is allowed. */
  lemma VerdictIgnoresPortAndTail(u: Url, v: Url, allowInsecure: bool, parse: AddressParser)
    requires u.Valid() && v.Valid() && u.secure == v.secure && u.host.text == v.host.text
    ensures Judge(OriginOf(u.Render()), allowInsecure, parse) == Judge(OriginOf(v.Render()), allowInsecure, parse)
    ensures Judge(OriginOf(u.Render()), allowInsecure, parse).Permitted? <==>
            || u.secure
            || IsLoopback(u.host.text, parse)
            || (allowInsecure && IsPrivate(parse(u.host.text)))
  {
    ExtractionInvertsRendering(u);
    ExtractionInvertsRendering(v);
  }

  /** No accepted URL, well formed or not, reaches a public host in the clear. */
  lemma PlaintextStaysPrivate(value: string, allowInsecure: bool, parse: AddressParser)
    requires Judge(OriginOf(value), allowInsecure, parse).Permitted?
    ensures var o := OriginOf(value);
            && o.Origin? && o.host != ""
            && (!o.secure ==> IsLoopback(o.host, parse) || (allowInsecure && IsPrivate(parse(o.host))))
            && (!o.secure <==> !("https://" <= value))
            && (forall i :: 0 <= i < |value| ==> PermittedChar(value[i]))
  {
    if "https://" <= value {
      assert value[4] == "https://"[4] == 's';
    }
  }
}
