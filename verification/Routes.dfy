/** The URLs the ACME servers advertise and how a request path finds its handler. */
module Routes {
  import opened Text

  function OrderUrl(base: string, n: nat): string { base + "/order/" + Decimal(n) }
  function FinalizeUrl(base: string, n: nat): string { base + "/finalize/" + Decimal(n) }
  function AuthzUrl(base: string, n: nat): string { base + "/authz/" + Decimal(n) }
  function ChallengeUrl(base: string, n: nat): string { base + "/chall/" + Decimal(n) }
  function DnsChallengeUrl(base: string, n: nat): string { ChallengeUrl(base, n) + "-dns" }
  function CertUrl(base: string, n: nat): string { base + "/cert/" + Decimal(n) }
  function AccountUrl(base: string, n: nat): string { base + "/acct/" + Decimal(n) }

  datatype Route =
    | DirectoryRoute | NewNonceRoute | NewAccountRoute | NewOrderRoute | AuthzRoute | ChallengeRoute
    | FinalizeRoute | OrderRoute | CertRoute | CaRoute | KeyChangeRoute | RevokeRoute | UnknownRoute

  /** The chain of path tests in `ACMEResponder.__call__`. */
  function RouteOf(path: string): Route {
    if path == "/directory" then DirectoryRoute
    else if path == "/new-nonce" then NewNonceRoute
    else if path == "/new-account" then NewAccountRoute
    else if path == "/new-order" then NewOrderRoute
    else if "/authz/" <= path then AuthzRoute
    else if "/chall/" <= path then ChallengeRoute
    else if "/finalize/" <= path then FinalizeRoute
    else if "/order/" <= path then OrderRoute
    else if "/cert/" <= path then CertRoute
    else if path == "/ca.pem" then CaRoute
    else if path == "/key-change" then KeyChangeRoute
    else if path == "/revoke-cert" then RevokeRoute
    else UnknownRoute
  }

  // ---------------------------------------------------------------- numbers in URLs

  lemma DecimalPlain(n: nat)
    ensures '/' !in Decimal(n) && '-' !in Decimal(n)
  {
  }

  lemma UrlNumber(base: string, word: string, n: nat)
    requires word != "" && word[|word| - 1] == '/'
    ensures LastSegment(base + word + Decimal(n)) == Decimal(n)
  {
    DecimalPlain(n);
    var prefix := base + word[..|word| - 1];
    assert base + word + Decimal(n) == prefix + "/" + Decimal(n);
    LastSegmentAfterSlash(prefix, Decimal(n));
  }

  lemma UrlNumbers(base: string, n: nat)
    ensures LastSegment(OrderUrl(base, n)) == Decimal(n)
    ensures LastSegment(FinalizeUrl(base, n)) == Decimal(n)
    ensures LastSegment(AuthzUrl(base, n)) == Decimal(n)
    ensures LastSegment(ChallengeUrl(base, n)) == Decimal(n)
    ensures LastSegment(DnsChallengeUrl(base, n)) == Decimal(n) + "-dns"
    ensures LastSegment(CertUrl(base, n)) == Decimal(n)
  {
    UrlNumber(base, "/order/", n);
    UrlNumber(base, "/finalize/", n);
    UrlNumber(base, "/authz/", n);
    UrlNumber(base, "/chall/", n);
    UrlNumber(base, "/cert/", n);
    DnsNumber(base, n);
  }

  lemma DnsNumber(base: string, n: nat)
    ensures LastSegment(DnsChallengeUrl(base, n)) == Decimal(n) + "-dns"
  {
    DecimalPlain(n);
    var prefix := base + "/chall";
    assert DnsChallengeUrl(base, n) == prefix + "/" + (Decimal(n) + "-dns");
    LastSegmentAfterSlash(prefix, Decimal(n) + "-dns");
  }

  lemma DnsSuffixInjective(m: nat, n: nat)
    ensures Decimal(m) + "-dns" == Decimal(n) + "-dns" <==> m == n
    ensures Decimal(m) + "-dns" != Decimal(n)
  {
    DecimalPlain(n);
    var s, t := Decimal(m) + "-dns", Decimal(n) + "-dns";
    assert s[|Decimal(m)|] == '-';
    if s == t {
      assert s[..|s| - 4] == Decimal(m);
      assert t[..|t| - 4] == Decimal(n);
      DecimalInjective(m, n);
    }
  }

  /** The kinds of numbered URL a server advertises. */
  datatype Minted =
    | OrderKind | FinalizeKind | AuthzKind | ChallengeKind | DnsChallengeKind | CertKind | AccountKind

  function MintedUrl(kind: Minted, base: string, n: nat): string {
    match kind
    case OrderKind => OrderUrl(base, n)
    case FinalizeKind => FinalizeUrl(base, n)
    case AuthzKind => AuthzUrl(base, n)
    case ChallengeKind => ChallengeUrl(base, n)
    case DnsChallengeKind => DnsChallengeUrl(base, n)
    case CertKind => CertUrl(base, n)
    case AccountKind => AccountUrl(base, n)
  }

  function WordOf(kind: Minted): string {
    match kind
    case OrderKind => "order"
    case FinalizeKind => "finalize"
    case AuthzKind => "authz"
    case ChallengeKind => "chall"
    case DnsChallengeKind => "chall"
    case CertKind => "cert"
    case AccountKind => "acct"
  }

  function NumberOf(kind: Minted, n: nat): string {
    if kind.DnsChallengeKind? then Decimal(n) + "-dns" else Decimal(n)
  }

  /** The path of the URL, as a server sees it in a request. */
  function PathOf(kind: Minted, n: nat): string {
    "/" + WordOf(kind) + "/" + NumberOf(kind, n)
  }

  lemma MintedPath(kind: Minted, base: string, n: nat)
    ensures MintedUrl(kind, base, n) == base + PathOf(kind, n)
    ensures MintedUrl(kind, base, n) == base + "/" + WordOf(kind) + "/" + NumberOf(kind, n)
  {
    hide Decimal;
    Slashed();
    Regrouped(base, WordOf(kind), Decimal(n));
  }

  lemma Regrouped(base: string, word: string, number: string)
    ensures base + ("/" + word + "/") + number == base + "/" + word + "/" + number
    ensures base + ("/" + word + "/" + number) == base + "/" + word + "/" + number
    ensures base + ("/" + word + "/") + number + "-dns" == base + "/" + word + "/" + (number + "-dns")
    ensures base + ("/" + word + "/" + (number + "-dns")) == base + "/" + word + "/" + (number + "-dns")
  {
  }

  lemma Slashed()
    ensures "/" + "order" + "/" == "/order/" && "/" + "finalize" + "/" == "/finalize/"
    ensures "/" + "authz" + "/" == "/authz/" && "/" + "chall" + "/" == "/chall/"
    ensures "/" + "cert" + "/" == "/cert/" && "/" + "acct" + "/" == "/acct/"
  {
  }

  /** Two slashes before plain segments split a text in one way only. */
  lemma SegmentsDetermined(b: string, w: string, t: string, c: string, v: string, u: string)
    requires '/' !in w && '/' !in t && '/' !in v && '/' !in u
    requires b + "/" + w + "/" + t == c + "/" + v + "/" + u
    ensures b == c && w == v && t == u
  {
    LastDetermined(b + "/" + w, t, c + "/" + v, u);
    LastDetermined(b, w, c, v);
  }

  lemma LastDetermined(p: string, t: string, q: string, u: string)
    requires '/' !in t && '/' !in u && p + "/" + t == q + "/" + u
    ensures p == q && t == u
  {
    hide LastSegment;
    LastSegmentAfterSlash(p, t);
    LastSegmentAfterSlash(q, u);
    assert p == (p + "/" + t)[..|p|] && q == (q + "/" + u)[..|q|];
  }

  lemma WordsPlain(kind: Minted, n: nat)
    ensures '/' !in WordOf(kind) && '/' !in NumberOf(kind, n)
  {
    hide Decimal;
    DecimalPlain(n);
  }

  lemma WordsDistinct(kind: Minted, other: Minted)
    requires WordOf(kind) == WordOf(other) && kind.DnsChallengeKind? == other.DnsChallengeKind?
    ensures kind == other
  {
    assert |"order"| == 5 && |"finalize"| == 8 && |"authz"| == 5 && |"chall"| == 5 && |"cert"| == 4 && |"acct"| == 4;
    assert "order"[0] == 'o' && "authz"[0] == 'a' && "chall"[0] == 'c' && "cert"[0] == 'c' && "acct"[0] == 'a';
  }

  /** An advertised URL determines its kind, the base it was minted under and its number. */
  lemma UrlsDistinct(kind: Minted, b: string, m: nat, other: Minted, c: string, n: nat)
    requires MintedUrl(kind, b, m) == MintedUrl(other, c, n)
    ensures kind == other && b == c && m == n
  {
    hide MintedUrl, WordOf, Decimal;
    MintedPath(kind, b, m);
    MintedPath(other, c, n);
    WordsPlain(kind, m);
    WordsPlain(other, n);
    SegmentsDetermined(b, WordOf(kind), NumberOf(kind, m), c, WordOf(other), NumberOf(other, n));
    DnsSuffixInjective(m, n);
    DnsSuffixInjective(n, m);
    WordsDistinct(kind, other);
    if Decimal(m) == Decimal(n) { DecimalInjective(m, n); }
  }

  /** The handler of the resource, if the servers have one. */
  function HandlerOf(kind: Minted): Route {
    match kind
    case OrderKind => OrderRoute
    case FinalizeKind => FinalizeRoute
    case AuthzKind => AuthzRoute
    case ChallengeKind => ChallengeRoute
    case DnsChallengeKind => ChallengeRoute
    case CertKind => CertRoute
    case AccountKind => UnknownRoute
  }

  /** The path of an advertised URL reaches the handler of the resource it was minted for,
      exactly if it is not an account URL: those reach none. */
  lemma MintedRoutes(kind: Minted, n: nat)
    ensures RouteOf(PathOf(kind, n)) == HandlerOf(kind)
    ensures RouteOf(PathOf(kind, n)).UnknownRoute? <==> kind.AccountKind?
  {
    hide RouteOf, Decimal;
    Slashed();
    if kind.AccountKind? {
      AccountUnrouted(NumberOf(kind, n));
    } else {
      RouteByPrefix("/" + WordOf(kind) + "/", NumberOf(kind, n), HandlerOf(kind));
    }
  }

  /** The paths that reach a handler, written out. */
  lemma NumberedPaths(n: nat)
    ensures RouteOf("/order/" + Decimal(n)) == OrderRoute
    ensures RouteOf("/finalize/" + Decimal(n)) == FinalizeRoute
    ensures RouteOf("/authz/" + Decimal(n)) == AuthzRoute
    ensures RouteOf("/chall/" + Decimal(n)) == ChallengeRoute
    ensures RouteOf("/chall/" + Decimal(n) + "-dns") == ChallengeRoute
    ensures RouteOf("/cert/" + Decimal(n)) == CertRoute
  {
    hide RouteOf, Decimal;
    RouteByPrefix("/order/", Decimal(n), OrderRoute);
    RouteByPrefix("/finalize/", Decimal(n), FinalizeRoute);
    RouteByPrefix("/authz/", Decimal(n), AuthzRoute);
    RouteByPrefix("/chall/", Decimal(n), ChallengeRoute);
    RouteByPrefix("/chall/", Decimal(n) + "-dns", ChallengeRoute);
    RouteByPrefix("/cert/", Decimal(n), CertRoute);
    assert "/chall/" + Decimal(n) + "-dns" == "/chall/" + (Decimal(n) + "-dns");
  }

  lemma AccountUnrouted(rest: string)
    ensures RouteOf("/acct/" + rest) == UnknownRoute
  {
    var path := "/acct/" + rest;
    assert path[1] == "/acct/"[1] && path[2] == "/acct/"[2];
    AccountLetters();
    PrefixLetters();
    Unlike("/authz/", path, 2);
    Unlike("/chall/", path, 1);
    Unlike("/finalize/", path, 1);
    Unlike("/order/", path, 1);
    Unlike("/cert/", path, 1);
  }

  lemma Unlike(prefix: string, path: string, i: nat)
    requires i < |prefix| && i < |path| && prefix[i] != path[i]
    ensures !(prefix <= path)
  {
  }

  lemma AccountLetters()
    ensures "/acct/"[1] == 'a' && "/acct/"[2] == 'c' && "/authz/"[2] == 'u'
    ensures "/chall/"[1] == 'c' && "/cert/"[1] == 'c'
    ensures "/ca.pem"[1] == 'c' && "/key-change"[1] == 'k' && "/revoke-cert"[1] == 'r'
  {
  }

  function PrefixOf(route: Route): string {
    match route
    case AuthzRoute => "/authz/"
    case ChallengeRoute => "/chall/"
    case FinalizeRoute => "/finalize/"
    case OrderRoute => "/order/"
    case CertRoute => "/cert/"
    case _ => ""
  }

  lemma RouteByPrefix(prefix: string, rest: string, route: Route)
    requires prefix != "" && prefix == PrefixOf(route)
    ensures RouteOf(prefix + rest) == route
  {
    var path := prefix + rest;
    assert prefix <= path;
    assert path[1] == prefix[1] && path[2] == prefix[2] && path[3] == prefix[3];
    PrefixLetters();
    if "/authz/" <= path { assert "/authz/"[1] == path[1]; }
    if "/chall/" <= path { assert "/chall/"[2] == path[2]; }
    if "/finalize/" <= path { assert "/finalize/"[1] == path[1]; }
    if "/order/" <= path { assert "/order/"[1] == path[1]; }
  }

  lemma PrefixLetters()
    ensures "/directory"[1] == 'd' && "/new-nonce"[1] == 'n' && "/new-account"[1] == 'n' && "/new-order"[1] == 'n'
    ensures "/authz/"[1] == 'a' && "/chall/"[1..3] == "ch" && "/finalize/"[1] == 'f'
    ensures "/order/"[1] == 'o' && "/cert/"[1..3] == "ce"
  {
  }
}
