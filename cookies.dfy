/** The cookie helpers of the auth plugin: which domains the session cookies
    are written for, and the cookie writes and clears issued on a response.
    The environment variables SITE_DOMAIN and ALLOW_LOCALHOST are parameters
    (`None` when unset). */
module Cookies {
  import opened Wrappers
  import opened Strings

  /** The length of the match of `/^(https?:\/\/)/i`: a leading "http://" or
      "https://" in any letter case, or nothing. */
  function SchemeLength(s: string): (n: nat)
    ensures n == 0 || n == 7 || n == 8
    ensures n <= |s|
  {
    var l := ToLower(s);
    if StartsWith(l, "https://") then 8 else if StartsWith(l, "http://") then 7 else 0
  }

  /** `s.replace(PATTERN, '')`: the first (and only possible) match removed. */
  function StripScheme(s: string): (r: string)
    ensures |r| <= |s| && r == s[|s| - |r|..]
  {
    s[SchemeLength(s)..]
  }

  /** `isLocalhost(domain)`. */
  predicate IsLocalhost(domain: string) {
    Contains(StripScheme(ToLower(domain)), "localhost")
  }

  /** An environment variable is truthy when it is set and not empty. */
  predicate Truthy(v: Option<string>) {
    v.Some? && v.value != ""
  }

  function SiteDomainOrEmpty(siteDomain: Option<string>): string {
    if Truthy(siteDomain) then siteDomain.value else ""
  }

  /** `.map(f)` over a list of domains. */
  function MapEach(ds: seq<string>, f: string -> string): (r: seq<string>)
    ensures |r| == |ds| && forall i :: 0 <= i < |ds| ==> r[i] == f(ds[i])
    decreases |ds|
  {
    if ds == [] then [] else [f(ds[0])] + MapEach(ds[1..], f)
  }

  /** `.map(domain => domain.trim())`. */
  function TrimAll(ds: seq<string>): seq<string> {
    MapEach(ds, Trim)
  }

  /** `.filter(domain => !drop(domain))`: the entries `drop` rejects are
      left out, the rest keep their order. */
  function Without(ds: seq<string>, drop: string -> bool): (r: seq<string>)
    ensures |r| <= |ds|
    decreases |ds|
  {
    if ds == [] then []
    else (if drop(ds[0]) then [] else [ds[0]]) + Without(ds[1..], drop)
  }

  /** `.filter(domain => !isLocalhost(domain))`. */
  function DropLocalhost(ds: seq<string>): seq<string> {
    Without(ds, IsLocalhost)
  }

  /** An entry survives the filter exactly when it was there and is not
      rejected. */
  lemma {:induction false} WithoutMembers(ds: seq<string>, drop: string -> bool, d: string)
    ensures d in Without(ds, drop) <==> d in ds && !drop(d)
    decreases |ds|
  {
    if ds != [] {
      WithoutMembers(ds[1..], drop, d);
      assert d in ds <==> d == ds[0] || d in ds[1..];
    }
  }

  /** `.map(domain => domain.replace(PATTERN, ''))`. */
  function StripAll(ds: seq<string>): seq<string> {
    MapEach(ds, StripScheme)
  }

  /** The domain pushed when ALLOW_LOCALHOST is set. */
  const Localhost: string := "localhost"

  /** What ALLOW_LOCALHOST appends. */
  function Extra(allowLocalhost: Option<string>): seq<string> {
    if Truthy(allowLocalhost) then [Localhost] else []
  }

  /** `getDomains()`. */
  function GetDomains(siteDomain: Option<string>, allowLocalhost: Option<string>): seq<string> {
    var kept := DropLocalhost(TrimAll(Split(SiteDomainOrEmpty(siteDomain), ',')));
    StripAll(kept + Extra(allowLocalhost))
  }

  /** A mapped list holds exactly the images of the entries. */
  lemma MapEachMembers(ds: seq<string>, f: string -> string, t: string)
    ensures t in MapEach(ds, f) <==> exists e :: e in ds && t == f(e)
  {
    var r := MapEach(ds, f);
    if t in r {
      var i :| 0 <= i < |r| && r[i] == t;
      assert ds[i] in ds;
    }
    if exists e :: e in ds && t == f(e) {
      var e :| e in ds && t == f(e);
      var i :| 0 <= i < |ds| && ds[i] == e;
      assert r[i] == t;
    }
  }

  /** What is known of the literal 'localhost': no scheme, already lower
      case, and it names localhost. */
  lemma LocalhostFacts(l: string)
    requires l == "localhost"
    ensures ToLower(l) == l && SchemeLength(l) == 0 && StripScheme(l) == l && IsLocalhost(l)
  {
    forall i | 0 <= i < |l| ensures ToLower(l)[i] == l[i] {
    }
    assert ToLower(l)[0] != 'h';
    assert l[0..] == l;
    assert StartsWith(StripScheme(ToLower(l))[0..], "localhost");
  }

  /** The domains are exactly the trimmed SITE_DOMAIN entries that do not
      name localhost, each with its scheme removed, plus 'localhost' when
      ALLOW_LOCALHOST is set. */
  lemma GetDomainsMembers(siteDomain: Option<string>, allowLocalhost: Option<string>, d: string)
    ensures d in GetDomains(siteDomain, allowLocalhost) <==>
            (exists e :: e in Split(SiteDomainOrEmpty(siteDomain), ',') && !IsLocalhost(Trim(e)) && d == StripScheme(Trim(e)))
            || (Truthy(allowLocalhost) && d == "localhost")
  {
    var parts := Split(SiteDomainOrEmpty(siteDomain), ',');
    GetDomainsStages(siteDomain, allowLocalhost, parts);
    StagesMembers(parts, Extra(allowLocalhost), d);
    ExtraMembers(allowLocalhost, d);
  }

  /** `getDomains()` as its three stages over the SITE_DOMAIN entries. */
  lemma GetDomainsStages(siteDomain: Option<string>, allowLocalhost: Option<string>, parts: seq<string>)
    requires parts == Split(SiteDomainOrEmpty(siteDomain), ',')
    ensures GetDomains(siteDomain, allowLocalhost) ==
            MapEach(Without(MapEach(parts, Trim), IsLocalhost) + Extra(allowLocalhost), StripScheme)
  {
  }

  lemma StagesMembers(parts: seq<string>, extra: seq<string>, d: string)
    ensures d in MapEach(Without(MapEach(parts, Trim), IsLocalhost) + extra, StripScheme) <==>
            (exists e :: e in parts && !IsLocalhost(Trim(e)) && d == StripScheme(Trim(e))) ||
            (exists x :: x in extra && d == StripScheme(x))
  {
    DomainsMembers(parts, Trim, IsLocalhost, StripScheme, extra, d);
  }

  lemma ExtraMembers(allowLocalhost: Option<string>, d: string)
    ensures (exists x :: x in Extra(allowLocalhost) && d == StripScheme(x)) <==>
            Truthy(allowLocalhost) && d == "localhost"
  {
    LocalhostFacts(Localhost);
    if Truthy(allowLocalhost) {
      assert Localhost in Extra(allowLocalhost);
    }
  }

  /** The same, for any entries, any trimming, filter and scheme removal
      and any appended domains. */
  lemma DomainsMembers(parts: seq<string>, trim: string -> string, drop: string -> bool,
                       strip: string -> string, extra: seq<string>, d: string)
    ensures d in MapEach(Without(MapEach(parts, trim), drop) + extra, strip) <==>
            (exists e :: e in parts && !drop(trim(e)) && d == strip(trim(e))) ||
            (exists x :: x in extra && d == strip(x))
  {
    var trimmed := MapEach(parts, trim);
    var kept := Without(trimmed, drop);
    MapEachMembers(kept + extra, strip, d);
    if exists x :: x in kept + extra && d == strip(x) {
      var x :| x in kept + extra && d == strip(x);
      if x in kept {
        WithoutMembers(trimmed, drop, x);
        MapEachMembers(parts, trim, x);
      }
    }
    if exists e :: e in parts && !drop(trim(e)) && d == strip(trim(e)) {
      var e :| e in parts && !drop(trim(e)) && d == strip(trim(e));
      MapEachMembers(parts, trim, trim(e));
      WithoutMembers(trimmed, drop, trim(e));
      assert trim(e) in kept + extra;
    }
    if exists x :: x in extra && d == strip(x) {
      var x :| x in extra && d == strip(x);
      assert x in kept + extra;
    }
  }

  lemma {:induction false} LowerIdempotent(s: string)
    ensures ToLower(ToLower(s)) == ToLower(s)
  {
  }

  /** Removing the scheme commutes with lower-casing, since the pattern
      ignores case. */
  lemma StripLower(s: string)
    ensures ToLower(StripScheme(s)) == StripScheme(ToLower(s))
  {
    LowerIdempotent(s);
    assert SchemeLength(ToLower(s)) == SchemeLength(s);
  }

  /** `isLocalhost` ignores letter case and a leading scheme: it asks
      whether the domain, without its scheme, contains 'localhost' in any
      letter case. */
  lemma IsLocalhostIgnoresCase(d: string)
    ensures IsLocalhost(d) == IsLocalhost(ToLower(d))
    ensures IsLocalhost(d) <==> Contains(ToLower(StripScheme(d)), "localhost")
  {
    LowerIdempotent(d);
    StripLower(d);
  }

  /** Without ALLOW_LOCALHOST no domain is 'localhost': an entry that comes
      out as 'localhost' names localhost and was filtered out. */
  lemma NoLocalhostUnlessAllowed(siteDomain: Option<string>, allowLocalhost: Option<string>)
    requires !Truthy(allowLocalhost)
    ensures "localhost" !in GetDomains(siteDomain, allowLocalhost)
  {
    var parts := Split(SiteDomainOrEmpty(siteDomain), ',');
    GetDomainsMembers(siteDomain, allowLocalhost, "localhost");
    forall e | e in parts && StripScheme(Trim(e)) == "localhost"
      ensures IsLocalhost(Trim(e))
    {
      NamesLocalhost(Trim(e));
    }
  }

  /** A domain whose scheme-free form is 'localhost' names localhost. */
  lemma NamesLocalhost(x: string)
    requires StripScheme(x) == "localhost"
    ensures IsLocalhost(x)
  {
    StripLower(x);
    LocalhostFacts(StripScheme(x));
    assert StripScheme(ToLower(x)) == "localhost";
  }

  /** With ALLOW_LOCALHOST, 'localhost' is the last domain. */
  lemma LocalhostLastWhenAllowed(siteDomain: Option<string>, allowLocalhost: Option<string>)
    requires Truthy(allowLocalhost)
    ensures var r := GetDomains(siteDomain, allowLocalhost);
            |r| > 0 && r[|r| - 1] == "localhost"
  {
    var kept := DropLocalhost(TrimAll(Split(SiteDomainOrEmpty(siteDomain), ',')));
    assert GetDomains(siteDomain, allowLocalhost) == StripAll(kept + [Localhost]);
    StripLast(kept, Localhost);
    LocalhostFacts(Localhost);
  }

  lemma StripLast(ds: seq<string>, x: string)
    ensures var r := StripAll(ds + [x]);
            |r| == |ds| + 1 && r[|ds|] == StripScheme(x)
  {
    assert (ds + [x])[|ds|] == x;
  }

  /** With SITE_DOMAIN unset or empty, `''.split(',')` is `['']`, so the
      empty domain is still returned. */
  lemma UnsetSiteDomain(allowLocalhost: Option<string>)
    ensures GetDomains(None, allowLocalhost) ==
            [""] + (if Truthy(allowLocalhost) then [Localhost] else [])
  {
    var e := SiteDomainOrEmpty(None);
    var extra: seq<string> := if Truthy(allowLocalhost) then [Localhost] else [];
    EmptyEntry(e);
    assert TrimAll([e]) == [e];
    assert DropLocalhost([e]) == [e];
    assert GetDomains(None, allowLocalhost) == StripAll([e] + extra);
    LocalhostFacts(Localhost);
    assert StripAll([e] + extra) == [e] + extra;
  }

  lemma EmptyEntry(e: string)
    requires e == ""
    ensures Split(e, ',') == [e] && Trim(e) == e && !IsLocalhost(e) && StripScheme(e) == e
  {
    assert ToLower(e) == e;
  }

  /** The pattern is anchored and not global: only one scheme is removed,
      so 'http://http://x' comes out as 'http://x'. */
  lemma OneSchemeRemoved(h: string, s: string)
    requires h == "http://"
    ensures StripScheme(h + h + s) == h + s
  {
    var t := h + h + s;
    assert t[..7] == h;
    forall i | 0 <= i < 7 ensures ToLower(t)[i] == h[i] {
    }
    assert ToLower(t)[..7] == h;
    assert ToLower(t)[4] == ':';
    assert t[7..] == h + s;
  }

  /** The options every cookie is written and cleared with. */
  datatype CookieOptions = CookieOptions(httpOnly: bool, domain: string, path: string)

  function Options(domain: string): CookieOptions {
    CookieOptions(true, domain, "/")
  }

  /** One call on the response: `res.cookie` or `res.clearCookie`. */
  datatype CookieOp =
    | SetCookie(name: string, value: string, options: CookieOptions)
    | ClearCookie(name: string, options: CookieOptions)

  /** The cookie calls issued for `domains`, in loop order. */
  function SetOps(domains: seq<string>, token: string, refreshToken: string): (ops: seq<CookieOp>)
    decreases |domains|
  {
    if domains == [] then []
    else
      var d := domains[|domains| - 1];
      SetOps(domains[..|domains| - 1], token, refreshToken)
        + [SetCookie("token", token, Options(d)), SetCookie("refreshToken", refreshToken, Options(d))]
  }

  function ClearOps(domains: seq<string>): (ops: seq<CookieOp>)
    decreases |domains|
  {
    if domains == [] then []
    else
      var d := domains[|domains| - 1];
      ClearOps(domains[..|domains| - 1]) + [ClearCookie("token", Options(d)), ClearCookie("refreshToken", Options(d))]
  }

  /** For each domain i, calls 2i and 2i+1 write 'token' and then
      'refreshToken' for that domain, httpOnly with path '/'. */
  lemma {:induction false} SetOpsPerDomain(domains: seq<string>, token: string, refreshToken: string)
    ensures |SetOps(domains, token, refreshToken)| == 2 * |domains|
    ensures forall i :: 0 <= i < |domains| ==>
              SetOps(domains, token, refreshToken)[2 * i] == SetCookie("token", token, Options(domains[i])) &&
              SetOps(domains, token, refreshToken)[2 * i + 1] == SetCookie("refreshToken", refreshToken, Options(domains[i]))
    decreases |domains|
  {
    if domains != [] {
      var init := domains[..|domains| - 1];
      SetOpsPerDomain(init, token, refreshToken);
      forall i | 0 <= i < |init| ensures domains[i] == init[i] {
      }
    }
  }

  /** Which cookie, on which domain, a call touches. */
  function Target(op: CookieOp): (string, CookieOptions) {
    (op.name, op.options)
  }

  function Targets(ops: seq<CookieOp>): (ts: seq<(string, CookieOptions)>)
    ensures |ts| == |ops|
    decreases |ops|
  {
    if ops == [] then [] else Targets(ops[..|ops| - 1]) + [Target(ops[|ops| - 1])]
  }

  lemma {:induction false} TargetsAppend(a: seq<CookieOp>, b: seq<CookieOp>)
    ensures Targets(a + b) == Targets(a) + Targets(b)
    decreases |b|
  {
    if b != [] {
      assert (a + b)[..|a + b| - 1] == a + b[..|b| - 1];
      TargetsAppend(a, b[..|b| - 1]);
    } else {
      assert a + b == a;
    }
  }

  /** Signing out clears exactly the cookies signing in wrote, in the same
      order: the same names with the same domain and options. */
  lemma {:induction false} ClearUndoesSet(domains: seq<string>, token: string, refreshToken: string)
    ensures Targets(ClearOps(domains)) == Targets(SetOps(domains, token, refreshToken))
    decreases |domains|
  {
    if domains != [] {
      var d := domains[|domains| - 1];
      var init := domains[..|domains| - 1];
      ClearUndoesSet(init, token, refreshToken);
      var c := [ClearCookie("token", Options(d)), ClearCookie("refreshToken", Options(d))];
      var s := [SetCookie("token", token, Options(d)), SetCookie("refreshToken", refreshToken, Options(d))];
      TargetsAppend(ClearOps(init), c);
      TargetsAppend(SetOps(init, token, refreshToken), s);
      assert Targets(c) == Targets(s) by {
        assert c[..1] == [c[0]];
        assert s[..1] == [s[0]];
      }
    }
  }

  /** The calls made on one response, in order. */
  class Response {
    var cookies: seq<CookieOp>

    constructor()
      ensures cookies == []
    {
      cookies := [];
    }

    /** The loop of `setClientCookie` over the domains. */
    method SetCookies(domains: seq<string>, token: string, refreshToken: string)
      modifies this
      ensures cookies == old(cookies) + SetOps(domains, token, refreshToken)
    {
      ghost var start := cookies;
      for i := 0 to |domains|
        invariant cookies == start + SetOps(domains[..i], token, refreshToken)
      {
        assert domains[..i + 1][..i] == domains[..i];
        cookies := cookies + [SetCookie("token", token, Options(domains[i]))];
        cookies := cookies + [SetCookie("refreshToken", refreshToken, Options(domains[i]))];
      }
      assert domains[..|domains|] == domains;
    }

    /** The loop of `removeClientCookie` over the domains. */
    method ClearCookies(domains: seq<string>)
      modifies this
      ensures cookies == old(cookies) + ClearOps(domains)
    {
      ghost var start := cookies;
      for i := 0 to |domains|
        invariant cookies == start + ClearOps(domains[..i])
      {
        assert domains[..i + 1][..i] == domains[..i];
        cookies := cookies + [ClearCookie("token", Options(domains[i]))];
        cookies := cookies + [ClearCookie("refreshToken", Options(domains[i]))];
      }
      assert domains[..|domains|] == domains;
    }

    /** `setClientCookie(res, {token, refreshToken})`. */
    method SetClientCookie(token: string, refreshToken: string, siteDomain: Option<string>, allowLocalhost: Option<string>)
      modifies this
      ensures cookies == old(cookies) + SetOps(GetDomains(siteDomain, allowLocalhost), token, refreshToken)
    {
      var domains := GetDomains(siteDomain, allowLocalhost);
      SetCookies(domains, token, refreshToken);
    }

    /** `removeClientCookie(res)`. */
    method RemoveClientCookie(siteDomain: Option<string>, allowLocalhost: Option<string>)
      modifies this
      ensures cookies == old(cookies) + ClearOps(GetDomains(siteDomain, allowLocalhost))
    {
      var domains := GetDomains(siteDomain, allowLocalhost);
      ClearCookies(domains);
    }
  }
}
